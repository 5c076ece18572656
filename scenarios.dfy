/**
 * Concrete scenarios for the handlers' specifications: a three-record listing and a day detail
 * whose two records straddle midnight.
 */
module Scenarios {
  import opened Wrappers
  import opened Digits
  import opened Calendar
  import opened Layouts
  import opened ExpenseModel
  import opened GroupingFacts
  import opened ExpenseController

  const March5: CalendarDay := Date(2024, 3, 5)
  const March6: CalendarDay := Date(2024, 3, 6)
  const March1: CalendarDay := Date(2024, 3, 1)

  lemma YearText2024()
    ensures YearText(2024) == "2024"
  {
    assert Decimal(2, 1) == "2" by { assert Decimal(0, 0) == []; }
    assert Decimal(20, 2) == "20";
    assert Decimal(202, 3) == "202";
  }

  lemma TwoDigitFields()
    ensures Decimal(1, 2) == "01" && Decimal(3, 2) == "03" && Decimal(5, 2) == "05"
  {
    assert Decimal(0, 0) == [];
    assert Decimal(0, 1) == "0";
  }

  lemma MarchNames()
    ensures MonthNames[2] == "March" && WeekdayNames[2] == "Tuesday" && WeekdayNames[5] == "Friday"
  {
  }

  /** The concatenations the label of a March 2024 day is made of. */
  lemma MarchTexts()
    ensures " " + "March" + (" " + "2024") == " March 2024"
    ensures ", " + "05" + " March 2024" == ", 05 March 2024"
    ensures ", " + "01" + " March 2024" == ", 01 March 2024"
  {
  }

  lemma LabelTexts()
    ensures "Tuesday" + ", 05 March 2024" == "Tuesday, 05 March 2024"
    ensures "Friday" + ", 01 March 2024" == "Friday, 01 March 2024"
  {
  }

  lemma MarchField(d: CalendarDay)
    requires d.year == 2024 && d.month == 3
    ensures MonthField(d) == " March 2024"
  {
    YearText2024();
    MarchNames();
    MarchTexts();
  }

  lemma WeekdaysOfMarch()
    ensures Weekday(March5) == 2 && Weekday(March1) == 5
  {
  }

  lemma DayFieldOfMarch()
    ensures DayField(March5) == ", 05 March 2024"
    ensures DayField(March1) == ", 01 March 2024"
  {
    TwoDigitFields();
    MarchField(March5);
    MarchField(March1);
    MarchTexts();
  }

  lemma LabelOfMarch5()
    ensures FormatLabel(March5) == "Tuesday, 05 March 2024"
  {
    WeekdaysOfMarch();
    DayFieldOfMarch();
    MarchNames();
    LabelTexts();
  }

  lemma LabelOfMarch1()
    ensures FormatLabel(March1) == "Friday, 01 March 2024"
  {
    WeekdaysOfMarch();
    DayFieldOfMarch();
    MarchNames();
    LabelTexts();
  }

  lemma {:induction false} DistinctDatesCount(gs: seq<GroupedExpenseResponse>)
    requires DistinctDates(gs)
    ensures |DatesOf(gs)| == |gs|
  {
    if gs != [] {
      DistinctDatesInit(gs);
      DistinctDatesCount(Init(gs));
    }
  }

  /** Three active records of one user: two on 5 March 2024 (fetched in this order), one on 1 March 2024. */
  predicate ThreeRecords(first: Expense, second: Expense, third: Expense) {
    && first.createdAt.day == March5 && second.createdAt.day == March5 && third.createdAt.day == March1
  }

  lemma ThreeRecordLabels(first: Expense, second: Expense, third: Expense)
    requires ThreeRecords(first, second, third)
    ensures Label(first) == "Tuesday, 05 March 2024" && Label(second) == "Tuesday, 05 March 2024"
    ensures Label(third) == "Friday, 01 March 2024"
  {
    LabelOfMarch5();
    LabelOfMarch1();
  }

  /** Two records with one key followed by one with another: what the filters keep. */
  lemma ThreeRecordFilters(first: Expense, second: Expense, third: Expense, key: Expense -> string,
                           newer: string, older: string)
    requires key(first) == newer && key(second) == newer && key(third) == older && newer != older
    ensures Keys([first, second, third], key) == {newer, older}
    ensures WithKey([first, second, third], key, newer) == [first, second]
    ensures WithKey([first, second, third], key, older) == [third]
  {
    var s1, s2, s3 := [first], [first, second], [first, second, third];
    assert [] + [first] == s1 && s1 + [second] == s2 && s2 + [third] == s3;
    KeysSnoc([], key, first);
    KeysSnoc(s1, key, second);
    KeysSnoc(s2, key, third);
    WithKeySnoc([], key, first, newer);
    WithKeySnoc(s1, key, second, newer);
    WithKeySnoc(s2, key, third, newer);
    WithKeySnoc([], key, first, older);
    WithKeySnoc(s1, key, second, older);
    WithKeySnoc(s2, key, third, older);
    assert [] + [third] == [third];
  }

  lemma PairSums(a: Expense, b: Expense)
    ensures SumAmounts([a, b]) == a.amount + b.amount && Projections([a, b]) == [Project(a), Project(b)]
    ensures SumAmounts([a]) == a.amount && Projections([a]) == [Project(a)]
  {
    assert [] + [a] == [a] && [a] + [b] == [a, b];
    SumAmountsSnoc([], a);
    SumAmountsSnoc([a], b);
    ProjectionsSnoc([], a);
    ProjectionsSnoc([a], b);
    assert [] + [Project(a)] == [Project(a)] && [Project(a)] + [Project(b)] == [Project(a), Project(b)];
  }

  /** The groups of those three records, in fetch order inside. */
  lemma ThreeRecordGroups(first: Expense, second: Expense, third: Expense, key: Expense -> string,
                          newer: string, older: string)
    requires key(first) == newer && key(second) == newer && key(third) == older && newer != older
    ensures Keys([first, second, third], key) == {newer, older}
    ensures KeyGroup([first, second, third], key, newer) ==
      GroupedExpenseResponse(newer, first.amount + second.amount, [Project(first), Project(second)])
    ensures KeyGroup([first, second, third], key, older) ==
      GroupedExpenseResponse(older, third.amount, [Project(third)])
  {
    ThreeRecordFilters(first, second, third, key, newer, older);
    PairSums(first, second);
    PairSums(third, third);
  }

  /** The two labels read back as their days, so the comparator puts 5 March first. */
  lemma MarchLabelsOrdered()
    ensures Rank(ParsedDay("Friday, 01 March 2024")) < Rank(ParsedDay("Tuesday, 05 March 2024"))
  {
    LabelOfMarch5();
    LabelOfMarch1();
    ParsedDayOfLabel(March5);
    ParsedDayOfLabel(March1);
  }

  /** A sorted grouping with exactly two keys lists the one the comparator ranks later first. */
  lemma TwoGroupsSorted(gs: seq<GroupedExpenseResponse>, s: seq<Expense>, key: Expense -> string,
                        newer: string, older: string)
    requires IsGrouping(gs, s, key) && NewestDayFirst(gs)
    requires Keys(s, key) == {newer, older} && newer != older
    requires Rank(ParsedDay(older)) < Rank(ParsedDay(newer))
    ensures gs == [KeyGroup(s, key, newer), KeyGroup(s, key, older)]
  {
    DistinctDatesCount(gs);
    assert |gs| == 2;
    DatesOfMembers(gs, newer);
    DatesOfMembers(gs, older);
    assert SortKey(gs[1]) <= SortKey(gs[0]);
    assert gs[0].date == newer && gs[1].date == older;
  }

  /**
   * Grouping the three records gives two groups, 5 March first, its expenses in fetch
   * order (the query's created_at DESC puts the later record of the day first).
   */
  lemma ThreeRecordListing(first: Expense, second: Expense, third: Expense, response: seq<GroupedExpenseResponse>)
    requires ThreeRecords(first, second, third)
    requires IsGrouping(response, [first, second, third], Label) && NewestDayFirst(response)
    ensures response == [
      GroupedExpenseResponse("Tuesday, 05 March 2024", first.amount + second.amount, [Project(first), Project(second)]),
      GroupedExpenseResponse("Friday, 01 March 2024", third.amount, [Project(third)])]
  {
    var newer, older := "Tuesday, 05 March 2024", "Friday, 01 March 2024";
    assert newer != older by { assert newer[0] != older[0]; }
    ThreeRecordLabels(first, second, third);
    ThreeRecordGroups(first, second, third, Label, newer, older);
    MarchLabelsOrdered();
    TwoGroupsSorted(response, [first, second, third], Label, newer, older);
  }

  // Amounts in cents; user 7 owns all three records.
  const Food: Expense := Expense(1, "Food", 1050, 7, Timestamp(March5, 8 * 3600), None)
  const Transport: Expense := Expense(2, "Transport", 500, 7, Timestamp(March5, 18 * 3600), None)
  const Rent: Expense := Expense(3, "Rent", 50000, 7, Timestamp(March1, 9 * 3600), None)

  /** The grouped listing handler on the three records in created_at DESC order. */
  method ThreeRecordHandler() returns (response: seq<GroupedExpenseResponse>)
    ensures response == [
      GroupedExpenseResponse("Tuesday, 05 March 2024", 1550, [Project(Transport), Project(Food)]),
      GroupedExpenseResponse("Friday, 01 March 2024", 50000, [Project(Rent)])]
  {
    response := GetUserExpensesByDate([Transport, Food, Rent]);
    ThreeRecordListing(Transport, Food, Rent, response);
  }

  /** "2024-03-05" is accepted as 5 March 2024. */
  lemma IsoTextOfMarch5()
    ensures ParseDateParam("2024-03-05") == Success(March5)
  {
    assert Decimal(2024, 4) == "2024" by {
      YearText2024();
    }
    TwoDigitFields();
    assert IsoText(March5) == "2024-03-05";
    ParseIsoText(March5);
  }

  lemma FebruaryDigits()
    ensures DigitsValue("2024") == 2024 && DigitsValue("02") == 2 && DigitsValue("30") == 30
  {
    YearText2024();
    DecimalRoundTrip(2024, 4);
    assert "02"[..1] == "0" && "30"[..1] == "3";
  }

  /** "2024-02-30" is refused: 2024 is a leap year, but February still has only 29 days. */
  lemma NoThirtiethOfFebruary()
    ensures ParseDateParam("2024-02-30") == Failure(InvalidDateFormat)
  {
    var s := "2024-02-30";
    assert s[..4] == "2024" && s[5..7] == "02" && s[8..] == "30";
    FebruaryDigits();
    assert DaysIn(2, 2024) == 29;
  }

  /**
   * The day detail for 5 March: a record at 23:59 that day is selected; one two minutes
   * later (00:01 on 6 March) and another user's record of the same day are not.
   */
  lemma MidnightDetail(late: Expense, early: Expense, other: Expense, userId: nat)
    requires late.createdAt == Timestamp(March5, 23 * 3600 + 59 * 60) && early.createdAt == Timestamp(March6, 60)
    requires late.userId == userId && early.userId == userId && other.userId != userId
    requires IsActive(late) && IsActive(early) && IsActive(other)
    ensures Selected([late, early, other], userId, March5) == [late]
  {
    var rows := [late, early, other];
    assert Init([late]) == [];
    assert Selected([late], userId, March5) == [late];
    assert Init([late, early]) == [late] && !MatchesDay(early, userId, March5);
    assert Selected([late, early], userId, March5) == [late];
    assert Init(rows) == [late, early] && Last(rows) == other;
  }

  const Dinner: Expense := Expense(4, "Dinner", 2000, 7, Timestamp(March5, 23 * 3600 + 59 * 60), None)
  const Taxi: Expense := Expense(5, "Taxi", 1500, 7, Timestamp(March6, 60), None)
  const Neighbour: Expense := Expense(6, "Dinner", 900, 8, Timestamp(March5, 20 * 3600), None)

  /** The detail handler on that table: one expense, total 2000, labelled 5 March. */
  method MidnightHandler() returns (r: Result<GroupedExpenseResponse, ApiError>)
    ensures r == Success(GroupedExpenseResponse("Tuesday, 05 March 2024", 2000, [Project(Dinner)]))
  {
    r := GetUserExpensesByDateDetail([Dinner, Taxi, Neighbour], 7, "2024-03-05");
    IsoTextOfMarch5();
    MidnightDetail(Dinner, Taxi, Neighbour, 7);
    LabelOfMarch5();
    assert Projections([Dinner]) == [Project(Dinner)] by {
      ProjectionsSnoc([], Dinner);
      assert [] + [Dinner] == [Dinner];
    }
  }

  /** An empty or malformed date is refused before anything is looked up. */
  method RejectedDates() returns (empty: Result<GroupedExpenseResponse, ApiError>, bad: Result<GroupedExpenseResponse, ApiError>)
    ensures empty == Failure(DateRequired)
    ensures bad == Failure(InvalidDateFormat)
  {
    empty := GetUserExpensesByDateDetail([Dinner], 7, "");
    bad := GetUserExpensesByDateDetail([Dinner], 7, "2024-02-30");
    NoThirtiethOfFebruary();
  }
}
