/**
 * The two Go time layouts the controller uses: the day label "Monday, 02 January 2006"
 * (written by Time.Format and read back by time.Parse) and the query date "2006-01-02"
 * (read by time.Parse).
 */
module Layouts {
  import opened Wrappers
  import opened Digits
  import opened Calendar

  /** Go's long weekday names, indexed by time.Weekday (Sunday first). */
  const WeekdayNames: seq<string> :=
    ["Sunday", "Monday", "Tuesday", "Wednesday", "Thursday", "Friday", "Saturday"]

  /** Go's long month names, January first. */
  const MonthNames: seq<string> :=
    ["January", "February", "March", "April", "May", "June",
     "July", "August", "September", "October", "November", "December"]

  /** Layout element "2006": the year zero-padded to four digits, longer if it needs more. */
  function YearText(year: nat): (s: string)
    ensures AllDigits(s) && DigitsValue(s) == year
    ensures 4 <= |s| && (|s| == 4 <==> year < 10000)
  {
    var width := if year < 10000 then 4 else NumDigits(year);
    DecimalRoundTrip(year, width);
    Decimal(year, width)
  }

  /**
   * Time.Format with layout "Monday, 02 January 2006": the weekday name, then the
   * day, month and year fields below.
   */
  function FormatLabel(d: CalendarDay): string {
    WeekdayNames[Weekday(d)] + DayField(d)
  }

  /** ", 02" and what follows it: the day zero-padded to two digits. */
  function DayField(d: CalendarDay): string {
    ", " + Decimal(d.day, 2) + MonthField(d)
  }

  /** " January" and what follows it. */
  function MonthField(d: CalendarDay): string {
    " " + MonthNames[d.month - 1] + YearField(d.year)
  }

  /** " 2006". */
  function YearField(year: nat): string {
    " " + YearText(year)
  }

  /** The text starts with the literal `lit`. */
  predicate StartsWith(s: string, lit: string) {
    |lit| <= |s| && s[..|lit|] == lit
  }

  /**
   * Go's name lookup: the first name in `names`, from index `from` on, that starts `s`,
   * with its index and the rest of `s`.
   */
  function LookupFrom(names: seq<string>, s: string, from: nat): (r: Option<(nat, string)>)
    decreases |names| - from
    ensures r.Some? ==> from <= r.value.0 < |names| && s == names[r.value.0] + r.value.1
  {
    if from >= |names| then None
    else if StartsWith(s, names[from]) then
      assert s == names[from] + s[|names[from]|..];
      Some((from, s[|names[from]|..]))
    else LookupFrom(names, s, from + 1)
  }

  function Lookup(names: seq<string>, s: string): Option<(nat, string)> {
    LookupFrom(names, s, 0)
  }

  /**
   * time.Parse with layout "Monday, 02 January 2006": a weekday name (read and then
   * ignored, as Go does), ", ", a two-digit day, " ", a month name, " ", exactly four
   * year digits and nothing after them; the day must exist in that month.
   */
  function ParseLabel(s: string): Option<CalendarDay> {
    match Lookup(WeekdayNames, s)
    case None => None
    case Some((_, rest)) => ParseDayField(rest)
  }

  /** The part after the weekday name: ", 02 January 2006". */
  function ParseDayField(s: string): Option<CalendarDay> {
    if StartsWith(s, ", ") && |s| >= 4 && AllDigits(s[2..4]) then ParseMonthField(DigitsValue(s[2..4]), s[4..])
    else None
  }

  /** The part after the day: " January 2006". */
  function ParseMonthField(day: nat, s: string): Option<CalendarDay> {
    if !StartsWith(s, " ") then None
    else match Lookup(MonthNames, s[1..])
      case None => None
      case Some((m, rest)) => ParseYearField(day, m + 1, rest)
  }

  /** The part after the month name: " 2006", and the check that the day exists. */
  function ParseYearField(day: nat, month: nat, s: string): Option<CalendarDay> {
    if StartsWith(s, " ") && |s| == 5 && AllDigits(s[1..]) then
      var year := DigitsValue(s[1..]);
      if 1 <= month <= 12 && 1 <= day <= DaysIn(month, year) then Some(Date(year, month, day)) else None
    else None
  }

  /** The day a label denotes for the sort comparator: the parsed day, or Go's zero day on error. */
  function ParsedDay(text: string): CalendarDay {
    ParseLabel(text).GetOr(ZeroDay)
  }

  /**
   * time.Parse with layout "2006-01-02": four year digits, '-', two month digits, '-',
   * two day digits, nothing else; the month must be 1..12 and the day must exist in it.
   */
  function ParseIso(s: string): Option<CalendarDay> {
    if |s| == 10 && AllDigits(s[..4]) && s[4] == '-' && AllDigits(s[5..7]) && s[7] == '-' && AllDigits(s[8..]) then
      var year := DigitsValue(s[..4]);
      var month := DigitsValue(s[5..7]);
      var day := DigitsValue(s[8..]);
      if 1 <= month <= 12 && 1 <= day <= DaysIn(month, year) then Some(Date(year, month, day)) else None
    else None
  }

  /** The canonical "2006-01-02" text of a day with a four-digit year. */
  function IsoText(d: CalendarDay): string
    requires d.year < 10000
  {
    Decimal(d.year, 4) + "-" + Decimal(d.month, 2) + "-" + Decimal(d.day, 2)
  }

  // ---------------------------------------------------------------------------------
  // Round trips

  /** No name of the table is a prefix of a different name followed by anything. */
  predicate NamesDistinctByThree(names: seq<string>) {
    && (forall i :: 0 <= i < |names| ==> |names[i]| >= 3)
    && (forall i, j :: 0 <= i < |names| && 0 <= j < |names| && i != j ==> names[i][..3] != names[j][..3])
  }

  lemma WeekdayNamesDistinct()
    ensures NamesDistinctByThree(WeekdayNames)
  {
    var heads := ["Sun", "Mon", "Tue", "Wed", "Thu", "Fri", "Sat"];
    forall i | 0 <= i < 7 ensures WeekdayNames[i][..3] == heads[i] {}
  }

  lemma MonthNamesDistinct()
    ensures NamesDistinctByThree(MonthNames)
  {
    var heads := ["Jan", "Feb", "Mar", "Apr", "May", "Jun", "Jul", "Aug", "Sep", "Oct", "Nov", "Dec"];
    forall i | 0 <= i < 12 ensures MonthNames[i][..3] == heads[i] {}
  }

  /** A text that starts with `q` does not start with a name whose first three letters differ. */
  lemma NotPrefix(s: string, p: string, q: string)
    requires |p| >= 3 && |q| >= 3 && p[..3] != q[..3]
    requires StartsWith(s, q)
    ensures !StartsWith(s, p)
  {
    assert s[..3] == q[..3];
  }

  /** Looking up a table name followed by any text finds that name and that text. */
  lemma {:induction false} LookupFindsName(names: seq<string>, i: nat, rest: string, from: nat)
    requires NamesDistinctByThree(names)
    requires from <= i < |names|
    ensures LookupFrom(names, names[i] + rest, from) == Some((i, rest))
    decreases i - from
  {
    var s := names[i] + rest;
    assert s[..|names[i]|] == names[i];
    if from < i {
      NotPrefix(s, names[from], names[i]);
      LookupFindsName(names, i, rest, from + 1);
    } else {
      assert s[|names[i]|..] == rest;
    }
  }

  lemma ParseYearFieldOf(d: CalendarDay)
    ensures ParseYearField(d.day, d.month, YearField(d.year)) == if d.year < 10000 then Some(d) else None
  {
    var s := YearField(d.year);
    assert s[1..] == YearText(d.year);
  }

  lemma ParseMonthFieldOf(day: nat, m: nat, tail: string)
    requires m < 12
    ensures ParseMonthField(day, " " + MonthNames[m] + tail) == ParseYearField(day, m + 1, tail)
  {
    var s := " " + MonthNames[m] + tail;
    assert s[..1] == " " && s[1..] == MonthNames[m] + tail;
    MonthNamesDistinct();
    LookupFindsName(MonthNames, m, tail, 0);
    assert Lookup(MonthNames, s[1..]) == Some((m, tail));
  }

  lemma ParseDayFieldOf(dd: string, tail: string)
    requires |dd| == 2 && AllDigits(dd)
    ensures ParseDayField(", " + dd + tail) == ParseMonthField(DigitsValue(dd), tail)
  {
    var s := ", " + dd + tail;
    assert s[..2] == ", ";
    assert s[2..4] == dd;
    assert s[4..] == tail;
  }

  /** Reading a label Format wrote: its day when the year has four digits, an error otherwise. */
  lemma ParseOfFormatLabel(d: CalendarDay)
    ensures ParseLabel(FormatLabel(d)) == if d.year < 10000 then Some(d) else None
  {
    WeekdayNamesDistinct();
    LookupFindsName(WeekdayNames, Weekday(d), DayField(d), 0);
    ParseDayFieldOf(Decimal(d.day, 2), MonthField(d));
    DecimalRoundTrip(d.day, 2);
    ParseMonthFieldOf(d.day, d.month - 1, YearField(d.year));
    ParseYearFieldOf(d);
  }

  /**
   * Like Go, the parser reads the weekday name and ignores it: a label with any weekday in
   * front of the day field denotes that day, although Format writes only the right one.
   */
  lemma WrongWeekdayAccepted(d: CalendarDay, w: nat)
    requires d.year < 10000 && w < 7
    ensures ParseLabel(WeekdayNames[w] + DayField(d)) == Some(d)
    ensures WeekdayNames[w] + DayField(d) == FormatLabel(d) <==> w == Weekday(d)
  {
    WeekdayNamesDistinct();
    LookupFindsName(WeekdayNames, w, DayField(d), 0);
    ParseDayFieldOf(Decimal(d.day, 2), MonthField(d));
    DecimalRoundTrip(d.day, 2);
    ParseMonthFieldOf(d.day, d.month - 1, YearField(d.year));
    ParseYearFieldOf(d);
    if WeekdayNames[w] + DayField(d) == FormatLabel(d) {
      NameSplitInjective(WeekdayNames, w, Weekday(d), DayField(d), DayField(d));
    }
  }

  /** Parsing a label that Format wrote gives back its day, for every four-digit year. */
  lemma ParseFormatLabel(d: CalendarDay)
    requires d.year < 10000
    ensures ParseLabel(FormatLabel(d)) == Some(d)
  {
    ParseOfFormatLabel(d);
  }

  /**
   * Distinct days have distinct labels, for every year: Format writes a longer year in
   * full, so the label still names the day even where Parse cannot read it back.
   */
  lemma LabelInjective(a: CalendarDay, b: CalendarDay)
    ensures FormatLabel(a) == FormatLabel(b) <==> a == b
  {
    if FormatLabel(a) == FormatLabel(b) {
      WeekdayNamesDistinct();
      LookupFindsName(WeekdayNames, Weekday(a), DayField(a), 0);
      LookupFindsName(WeekdayNames, Weekday(b), DayField(b), 0);
      DayFieldInjective(a, b);
    }
  }

  /** The text after the weekday name determines the day. */
  lemma DayFieldInjective(a: CalendarDay, b: CalendarDay)
    requires DayField(a) == DayField(b)
    ensures a == b
  {
    var s := DayField(a);
    assert s[2..4] == Decimal(a.day, 2) && s[2..4] == Decimal(b.day, 2);
    DecimalRoundTrip(a.day, 2);
    DecimalRoundTrip(b.day, 2);
    assert s[4..] == MonthField(a) && s[4..] == MonthField(b);
    MonthFieldInjective(a, b);
  }

  /** The text after the day determines the month and the year. */
  lemma MonthFieldInjective(a: CalendarDay, b: CalendarDay)
    requires MonthField(a) == MonthField(b)
    ensures a.month == b.month && a.year == b.year
  {
    var ta, tb := YearField(a.year), YearField(b.year);
    assert MonthField(a) == " " + MonthNames[a.month - 1] + ta;
    assert MonthField(b) == " " + MonthNames[b.month - 1] + tb;
    MonthNamesDistinct();
    SpacedNameSplit(MonthNames, a.month - 1, b.month - 1, ta, tb);
    YearFieldInjective(a.year, b.year);
  }

  /** A space, a table name and text split one way only. */
  lemma SpacedNameSplit(names: seq<string>, i: nat, j: nat, t: string, u: string)
    requires NamesDistinctByThree(names) && i < |names| && j < |names|
    requires " " + names[i] + t == " " + names[j] + u
    ensures i == j && t == u
  {
    assert (" " + names[i] + t)[1..] == names[i] + t;
    assert (" " + names[j] + u)[1..] == names[j] + u;
    NameSplitInjective(names, i, j, t, u);
  }

  /** A table name followed by text splits one way only. */
  lemma NameSplitInjective(names: seq<string>, i: nat, j: nat, t: string, u: string)
    requires NamesDistinctByThree(names) && i < |names| && j < |names|
    requires names[i] + t == names[j] + u
    ensures i == j && t == u
  {
    LookupFindsName(names, i, t, 0);
    LookupFindsName(names, j, u, 0);
  }

  /** The year field determines the year, however many digits it has. */
  lemma YearFieldInjective(x: nat, y: nat)
    requires YearField(x) == YearField(y)
    ensures x == y
  {
    assert YearField(x)[1..] == YearText(x);
    assert YearField(y)[1..] == YearText(y);
  }

  /** The sort comparator sees the very day a label was formatted from. */
  lemma ParsedDayOfLabel(d: CalendarDay)
    requires d.year < 10000
    ensures ParsedDay(FormatLabel(d)) == d
  {
    ParseFormatLabel(d);
  }

  /** A year past 9999 makes the label unreadable, so the comparator falls back to the zero day. */
  lemma LongYearLabelUnreadable(d: CalendarDay)
    requires d.year >= 10000
    ensures ParseLabel(FormatLabel(d)) == None
    ensures ParsedDay(FormatLabel(d)) == ZeroDay
  {
    ParseOfFormatLabel(d);
  }

  /** Every accepted "2006-01-02" string is the canonical text of the day it denotes. */
  lemma {:induction false} ParseIsoOnlyCanonical(s: string)
    requires ParseIso(s).Some?
    ensures ParseIso(s).value.year < 10000 && s == IsoText(ParseIso(s).value)
  {
    DecimalCanonical(s[..4]);
    DecimalCanonical(s[5..7]);
    DecimalCanonical(s[8..]);
    assert s == s[..4] + "-" + s[5..7] + "-" + s[8..];
  }

  /** Where the fields of a "2006-01-02" text sit. */
  lemma IsoFields(y: string, m: string, dd: string)
    requires |y| == 4 && |m| == 2 && |dd| == 2
    ensures var s := y + "-" + m + "-" + dd;
      |s| == 10 && s[..4] == y && s[4] == '-' && s[5..7] == m && s[7] == '-' && s[8..] == dd
  {
  }

  /** The canonical text of a day with a four-digit year is accepted and denotes that day. */
  lemma {:induction false} ParseIsoText(d: CalendarDay)
    requires d.year < 10000
    ensures ParseIso(IsoText(d)) == Some(d)
  {
    var y, m, dd := Decimal(d.year, 4), Decimal(d.month, 2), Decimal(d.day, 2);
    IsoFields(y, m, dd);
    assert Pow10(2) == 100 && Pow10(4) == 10000;
    DecimalRoundTrip(d.year, 4);
    DecimalRoundTrip(d.month, 2);
    DecimalRoundTrip(d.day, 2);
    assert IsoText(d) == y + "-" + m + "-" + dd;
    assert ParseIso(IsoText(d)) == Some(Date(d.year, d.month, d.day));
  }

  /** A date argument is accepted exactly when it is the canonical text of its day. */
  lemma ParseIsoCanonical(s: string, d: CalendarDay)
    ensures ParseIso(s) == Some(d) <==> d.year < 10000 && s == IsoText(d)
  {
    if ParseIso(s) == Some(d) {
      ParseIsoOnlyCanonical(s);
    }
    if d.year < 10000 && s == IsoText(d) {
      ParseIsoText(d);
    }
  }

  /** An empty date argument never parses. */
  lemma EmptyIsoRejected()
    ensures ParseIso("") == None
  {
  }
}
