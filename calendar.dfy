/** Proleptic Gregorian calendar days, as Go's time.Time denotes them at day precision. */
module Calendar {

  datatype Date = Date(year: nat, month: nat, day: nat)

  predicate IsLeap(year: nat) {
    year % 4 == 0 && (year % 100 != 0 || year % 400 == 0)
  }

  /** Length of a month (1 = January) in a given year. */
  function DaysIn(month: nat, year: nat): (n: nat)
    ensures 28 <= n <= 31
    ensures n == 29 <==> month == 2 && IsLeap(year)
  {
    if month == 2 then (if IsLeap(year) then 29 else 28)
    else if month == 4 || month == 6 || month == 9 || month == 11 then 30
    else 31
  }

  predicate ValidDate(d: Date) {
    1 <= d.month <= 12 && 1 <= d.day <= DaysIn(d.month, d.year)
  }

  /** A day that exists in the calendar. Go's time.Time always denotes one. */
  type CalendarDay = d: Date | ValidDate(d) witness Date(1, 1, 1)

  /** The day of Go's zero Time, January 1 of year 1, which time.Parse returns on failure. */
  const ZeroDay: CalendarDay := Date(1, 1, 1)

  /** Calendar order: `a` is an earlier day than `b`. */
  predicate DayBefore(a: CalendarDay, b: CalendarDay) {
    a.year < b.year || (a.year == b.year && (a.month < b.month || (a.month == b.month && a.day < b.day)))
  }

  /**
   * Position of a day on the time line. Go compares the midnight instants of two days;
   * this number grows with them (see RankOrdersDays), so comparing ranks compares instants.
   */
  function Rank(d: CalendarDay): int {
    d.year * 416 + d.month * 32 + d.day
  }

  /** Comparing ranks is comparing days in calendar order. */
  lemma RankOrdersDays(a: CalendarDay, b: CalendarDay)
    ensures DayBefore(a, b) <==> Rank(a) < Rank(b)
    ensures a == b <==> Rank(a) == Rank(b)
  {
    if a.year < b.year {
      assert Rank(a) <= a.year * 416 + 415 && Rank(b) >= b.year * 416 + 33;
    } else if a.year > b.year {
      assert Rank(b) <= b.year * 416 + 415 && Rank(a) >= a.year * 416 + 33;
    }
  }

  /** Day of the week, 0 = Sunday through 6 = Saturday, as Go's time.Weekday numbers them. */
  function Weekday(d: CalendarDay): (w: nat)
    ensures w < 7
  {
    var y: int := if d.month < 3 then d.year - 1 else d.year;
    (YearTerm(y) + MonthOffset(d.month) + d.day) % 7
  }

  /** The calendar day after `d`. */
  function NextDay(d: CalendarDay): (n: CalendarDay)
    ensures DayBefore(d, n)
    ensures forall x: CalendarDay :: !(DayBefore(d, x) && DayBefore(x, n))
  {
    if d.day < DaysIn(d.month, d.year) then Date(d.year, d.month, d.day + 1)
    else if d.month < 12 then Date(d.year, d.month + 1, 1)
    else Date(d.year + 1, 1, 1)
  }

  /** The day `n` days after `d`. */
  function DaysAfter(d: CalendarDay, n: nat): CalendarDay {
    if n == 0 then d else NextDay(DaysAfter(d, n - 1))
  }

  /** Each day's weekday follows the previous day's, Saturday wrapping round to Sunday. */
  lemma WeekdayNext(d: CalendarDay)
    ensures Weekday(NextDay(d)) == (Weekday(d) + 1) % 7
  {
    if d.day < DaysIn(d.month, d.year) {
      WeekdayInMonth(d);
    } else if d.month == 2 {
      WeekdayIntoMarch(d);
    } else if d.month < 12 {
      WeekdayIntoMonth(d);
    } else {
      WeekdayIntoYear(d);
    }
  }

  /** The weekday formula with its year argument adjusted for January and February. */
  lemma WeekdayIs(d: CalendarDay, y: int)
    requires y == if d.month < 3 then d.year - 1 else d.year
    ensures Weekday(d) == (YearTerm(y) + MonthOffset(d.month) + d.day) % 7
  {
  }

  lemma WeekdayInMonth(d: CalendarDay)
    requires d.day < DaysIn(d.month, d.year)
    ensures Weekday(NextDay(d)) == (Weekday(d) + 1) % 7
  {
    var y: int := if d.month < 3 then d.year - 1 else d.year;
    var before := YearTerm(y) + MonthOffset(d.month) + d.day;
    WeekdayIs(d, y);
    WeekdayIs(NextDay(d), y);
    ModSevenSucc(before);
  }

  /** Crossing into March moves the year term on by one year. */
  lemma WeekdayIntoMarch(d: CalendarDay)
    requires d.month == 2 && d.day == DaysIn(2, d.year)
    ensures Weekday(NextDay(d)) == (Weekday(d) + 1) % 7
  {
    var before := YearTerm(d.year - 1) + MonthOffset(2) + d.day;
    MarchShift(d.year, d.day);
    WeekdayIs(d, d.year - 1);
    WeekdayIs(NextDay(d), d.year);
    WholeWeeks(before + 1, -4);
    ModSevenSucc(before);
  }

  /** From the last day of February to 1 March is four weeks and a day in the formula. */
  lemma MarchShift(year: nat, day: nat)
    requires day == DaysIn(2, year)
    ensures YearTerm(year) + MonthOffset(3) + 1 == YearTerm(year - 1) + MonthOffset(2) + day + 1 - 28
  {
    YearTermStep(year);
  }

  lemma WeekdayIntoMonth(d: CalendarDay)
    requires d.month != 2 && d.month < 12 && d.day == DaysIn(d.month, d.year)
    ensures Weekday(NextDay(d)) == (Weekday(d) + 1) % 7
  {
    var y: int := if d.month < 3 then d.year - 1 else d.year;
    var before := YearTerm(y) + MonthOffset(d.month) + d.day;
    var after := YearTerm(y) + MonthOffset(d.month + 1) + 1;
    MonthOffsetStep(d.month, d.year);
    WeekdayIs(d, y);
    WeekdayIs(NextDay(d), y);
    if after == before + 1 - 28 {
      WholeWeeks(before + 1, -4);
    } else {
      WholeWeeks(before + 1, -5);
    }
    ModSevenSucc(before);
  }

  /** 31 December to 1 January: the adjusted year of January is the year just ended. */
  lemma WeekdayIntoYear(d: CalendarDay)
    requires d.month == 12 && d.day == 31
    ensures Weekday(NextDay(d)) == (Weekday(d) + 1) % 7
  {
    var before := YearTerm(d.year) + MonthOffset(12) + 31;
    var after := YearTerm(d.year) + MonthOffset(1) + 1;
    assert after == before + 1 - 35;
    WeekdayIs(d, d.year);
    WeekdayIs(NextDay(d), d.year);
    WholeWeeks(before + 1, -5);
    ModSevenSucc(before);
  }

  /** Whole weeks do not change the weekday. */
  lemma WholeWeeks(b: int, weeks: int)
    ensures (b + 7 * weeks) % 7 == b % 7
  {
  }

  lemma ModSevenSucc(a: int)
    ensures (a % 7 + 1) % 7 == (a + 1) % 7
  {
  }

  /** The leap days up to year `y - 1`'s end, plus one day per year, counted from year 0. */
  function YearTerm(y: int): int {
    y + y / 4 - y / 100 + y / 400
  }

  /** A year, held by its last day, moves the weekday on by one, and by two when it is leap. */
  lemma YearTermStep(year: nat)
    ensures YearTerm(year) == YearTerm(year - 1) + 1 + (if IsLeap(year) then 1 else 0)
  {
    var y: int := year;
    QuotientStep(y);
    LeapDivisors(y);
  }

  /** Divisible by 400 implies by 100, and by 100 implies by 4. */
  lemma LeapDivisors(y: int)
    ensures y % 400 == 0 ==> y % 100 == 0
    ensures y % 100 == 0 ==> y % 4 == 0
  {
    if y % 400 == 0 {
      var t := 4 * (y / 400);
      assert y == 100 * t;
      HundredsMod(t);
    }
    if y % 100 == 0 {
      var t := 25 * (y / 100);
      assert y == 4 * t;
      FoursMod(t);
    }
  }

  lemma HundredsMod(t: int)
    ensures (100 * t) % 100 == 0
  {
  }

  lemma FoursMod(t: int)
    ensures (4 * t) % 4 == 0
  {
  }

  /** The floor quotients by 4, 100 and 400 grow from `y - 1` to `y` exactly where they divide `y`. */
  lemma QuotientStep(y: int)
    ensures y / 4 - (y - 1) / 4 == if y % 4 == 0 then 1 else 0
    ensures y / 100 - (y - 1) / 100 == if y % 100 == 0 then 1 else 0
    ensures y / 400 - (y - 1) / 400 == if y % 400 == 0 then 1 else 0
  {
  }

  /** Days from 1 March to the first of each month, modulo 7, January and February last. */
  function MonthOffset(month: nat): int
    requires 1 <= month <= 12
  {
    [0, 3, 2, 5, 0, 3, 5, 1, 4, 6, 2, 4][month - 1]
  }

  /** Within one adjusted year the offset of the next month is this month's plus its length. */
  lemma MonthOffsetStep(month: nat, year: nat)
    requires 1 <= month < 12 && month != 2
    ensures MonthOffset(month + 1) + 1 == MonthOffset(month) + DaysIn(month, year) + 1 - 28
      || MonthOffset(month + 1) + 1 == MonthOffset(month) + DaysIn(month, year) + 1 - 35
  {
  }

  /** Go's zero day, 1 January of year 1, and its reference day, 2 January 2006, are Mondays. */
  lemma WeekdayAnchors()
    ensures Weekday(ZeroDay) == 1
    ensures Weekday(Date(2006, 1, 2)) == 1
  {
  }

  /** The weekday advances by one for every day that passes. */
  lemma {:induction false} WeekdayAfter(d: CalendarDay, n: nat)
    ensures Weekday(DaysAfter(d, n)) == (Weekday(d) + n) % 7
  {
    if n == 0 {
      assert DaysAfter(d, n) == d;
      SmallModSeven(Weekday(d));
    } else {
      var prev := DaysAfter(d, n - 1);
      WeekdayAfter(d, n - 1);
      WeekdayNext(prev);
      assert DaysAfter(d, n) == NextDay(prev);
      OneMoreDay(Weekday(d), n, Weekday(prev), Weekday(NextDay(prev)));
    }
  }

  lemma SmallModSeven(w: int)
    requires 0 <= w < 7
    ensures w % 7 == w
  {
  }

  lemma OneMoreDay(w0: int, n: nat, w: int, w': int)
    requires n > 0 && w == (w0 + n - 1) % 7 && w' == (w + 1) % 7
    ensures w' == (w0 + n) % 7
  {
    ModSevenSucc(w0 + n - 1);
  }

  /** The weekday of the day `n` days after Go's zero day, as Go counts it from that Monday. */
  lemma WeekdayFromZeroDay(n: nat)
    ensures Weekday(DaysAfter(ZeroDay, n)) == (1 + n) % 7
  {
    WeekdayAnchors();
    WeekdayAfter(ZeroDay, n);
  }
}
