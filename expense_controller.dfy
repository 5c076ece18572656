/**
 * The expense controller's handlers with the web and database plumbing removed: the
 * authenticated user, the request arguments, the rows a query returns and the current
 * time are parameters, and the soft-deleting UPDATE runs over an array of rows.
 */
module ExpenseController {
  import opened Wrappers
  import opened Calendar
  import opened Layouts
  import opened ExpenseModel
  import opened GroupingFacts

  // ---------------------------------------------------------------------------------
  // CreateExpense

  /**
   * The records the bulk create hands to the database: one per payload element, in payload
   * order, owned by the caller. Id and creation time still hold Go's zero values; the
   * database fills them in on insert.
   */
  method CreateExpense(inputs: seq<ExpenseInput>, userId: nat) returns (expenses: seq<Expense>)
    ensures |expenses| == |inputs|
    ensures forall i :: 0 <= i < |inputs| ==> InputOf(expenses[i]) == inputs[i] && expenses[i].userId == userId
    ensures forall i :: 0 <= i < |inputs| ==>
      expenses[i].id == 0 && expenses[i].createdAt == ZeroTimestamp && IsActive(expenses[i])
  {
    expenses := [];
    for i := 0 to |inputs|
      invariant |expenses| == i
      invariant forall j :: 0 <= j < i ==> InputOf(expenses[j]) == inputs[j] && expenses[j].userId == userId
      invariant forall j :: 0 <= j < i ==>
        expenses[j].id == 0 && expenses[j].createdAt == ZeroTimestamp && IsActive(expenses[j])
    {
      var e := inputs[i];
      var expense := Expense(0, e.tenant, e.amount, userId, ZeroTimestamp, None);
      expenses := expenses + [expense];
    }
  }

  // ---------------------------------------------------------------------------------
  // GetUserExpensesByDate

  /**
   * The grouped listing: `fetched` is what the query returns (the caller's active records,
   * newest first, see ActiveFetch). The response is a day grouping of exactly those records,
   * sorted so that no group's parsed day is earlier than a later group's, which is strict
   * calendar order whenever every year has four digits.
   */
  method GetUserExpensesByDate(fetched: seq<Expense>) returns (response: seq<GroupedExpenseResponse>)
    ensures IsGrouping(response, fetched, Label)
    ensures NewestDayFirst(response)
    ensures FourDigitYears(fetched) ==> StrictlyNewestDayFirst(response)
    ensures fetched == [] ==> response == []
  {
    var groups := AccumulateByDay(fetched);
    var collected := CollectGroups(groups);
    assert IsGrouping(collected, fetched, Label);
    response := SortByDateDescending(collected);
    PermutationKeepsGrouping(collected, response, fetched, Label);
    if FourDigitYears(fetched) {
      SortedGroupingIsStrict(response, fetched);
    }
    if fetched == [] {
      EmptyGrouping(response, Label);
    }
  }

  /** The accumulator pass: one map entry per day label, holding that label's running total and expenses. */
  method AccumulateByDay(fetched: seq<Expense>) returns (groups: map<string, GroupedExpenseResponse>)
    ensures GroupsOf(groups, fetched, Label)
  {
    groups := map[];
    for i := 0 to |fetched|
      invariant GroupsOf(groups, fetched[..i], Label)
    {
      var expense := fetched[i];
      var date := Label(expense);
      groups := AddToGroup(groups, expense, date, fetched[..i], Label);
      TakeSnoc(fetched, i);
    }
    assert fetched[..|fetched|] == fetched;
  }

  /**
   * The body of the accumulator loop once the record's day label `date` is formatted: the
   * record's amount and projection go to the entry for `date`, which is created if new.
   */
  method AddToGroup(groups: map<string, GroupedExpenseResponse>, expense: Expense, date: string,
                    ghost seen: seq<Expense>, ghost key: Expense -> string)
    returns (next: map<string, GroupedExpenseResponse>)
    requires GroupsOf(groups, seen, key) && date == key(expense)
    ensures GroupsOf(next, seen + [expense], key)
  {
    var dateKey := date;
    if dateKey in groups {
      var group := groups[dateKey];
      group := group.(total := group.total + expense.amount,
                      expenses := group.expenses + [Project(expense)]);
      next := groups[dateKey := group];
    } else {
      next := groups[dateKey := GroupedExpenseResponse(date, expense.amount, [Project(expense)])];
    }
    AccumulateStep(groups, next, seen, key, expense);
  }

  /** Copies the map's entries into a sequence, taking keys in no particular order (Go's map order). */
  method CollectGroups(groups: map<string, GroupedExpenseResponse>) returns (response: seq<GroupedExpenseResponse>)
    requires forall k :: k in groups ==> groups[k].date == k
    ensures forall i :: 0 <= i < |response| ==> response[i].date in groups && response[i] == groups[response[i].date]
    ensures DatesOf(response) == groups.Keys
    ensures DistinctDates(response)
  {
    response := [];
    var remaining := groups.Keys;
    while remaining != {}
      invariant remaining <= groups.Keys
      invariant forall i :: 0 <= i < |response| ==> response[i].date in groups && response[i] == groups[response[i].date]
      invariant DatesOf(response) == groups.Keys - remaining
      invariant DistinctDates(response)
      decreases remaining
    {
      var k :| k in remaining;
      DatesOfMembers(response, k);
      DatesOfSnoc(response, groups[k]);
      response := response + [groups[k]];
      remaining := remaining - {k};
    }
  }

  /**
   * sort.Slice over the response slice with the comparator that parses both dates and
   * puts the later one first.
   */
  method SortByDateDescending(groups: seq<GroupedExpenseResponse>) returns (sorted: seq<GroupedExpenseResponse>)
    ensures multiset(sorted) == multiset(groups)
    ensures NewestDayFirst(sorted)
  {
    var a := new GroupedExpenseResponse[|groups|](i requires 0 <= i < |groups| => groups[i]);
    assert a[..] == groups;
    SortByKeyDescending(a, SortKey);
    sorted := a[..];
  }

  /**
   * sort.Slice for a comparator of the form "key(a[i]) > key(a[j])": an in-place insertion
   * sort that leaves the keys in descending order.
   */
  method SortByKeyDescending<T>(a: array<T>, key: T -> int)
    modifies a
    ensures forall p, q :: 0 <= p < q < a.Length ==> key(a[q]) <= key(a[p])
    ensures multiset(a[..]) == multiset(old(a[..]))
  {
    var i := 0;
    while i < a.Length
      invariant 0 <= i <= a.Length
      invariant forall p, q :: 0 <= p < q < i ==> key(a[q]) <= key(a[p])
      invariant multiset(a[..]) == multiset(old(a[..]))
    {
      var j := i;
      while j > 0 && key(a[j - 1]) < key(a[j])
        invariant 0 <= j <= i
        invariant forall p, q :: 0 <= p < q <= i && p != j && q != j ==> key(a[q]) <= key(a[p])
        invariant forall q :: j < q <= i ==> key(a[q]) < key(a[j])
        invariant multiset(a[..]) == multiset(old(a[..]))
      {
        Swap(a, j - 1, j);
        j := j - 1;
      }
      i := i + 1;
    }
  }

  /** Exchanges two elements of an array. */
  method Swap<T>(a: array<T>, i: nat, j: nat)
    requires i < a.Length && j < a.Length
    modifies a
    ensures a[i] == old(a[j]) && a[j] == old(a[i])
    ensures forall k :: 0 <= k < a.Length && k != i && k != j ==> a[k] == old(a[k])
    ensures multiset(a[..]) == multiset(old(a[..]))
  {
    a[i], a[j] := a[j], a[i];
  }

  // ---------------------------------------------------------------------------------
  // The "date" query parameter of the day detail and the day delete

  /**
   * The checks both handlers run on "date": an empty string is DateRequired, and a string
   * time.Parse rejects with layout "2006-01-02" is InvalidDateFormat. What is accepted is
   * exactly the canonical text of some day with a four-digit year.
   */
  function ParseDateParam(dateStr: string): (r: Result<CalendarDay, ApiError>)
    ensures r == Failure(DateRequired) <==> dateStr == ""
    ensures r.Success? ==> r.value.year < 10000 && dateStr == IsoText(r.value)
    ensures r.Failure? && dateStr != "" ==>
      r.error == InvalidDateFormat && forall d: CalendarDay :: d.year < 10000 ==> dateStr != IsoText(d)
  {
    if dateStr == "" then Failure(DateRequired)
    else match ParseIso(dateStr)
      case None =>
        ParseIsoRejects(dateStr);
        Failure(InvalidDateFormat)
      case Some(d) =>
        ParseIsoOnlyCanonical(dateStr);
        Success(d)
  }

  /** A string ParseIso rejects is not the canonical text of any day. */
  lemma ParseIsoRejects(s: string)
    requires ParseIso(s).None?
    ensures forall d: CalendarDay :: d.year < 10000 ==> s != IsoText(d)
  {
    forall d: CalendarDay | d.year < 10000 ensures s != IsoText(d) {
      ParseIsoText(d);
    }
  }

  // ---------------------------------------------------------------------------------
  // GetUserExpensesByDateDetail

  /**
   * The day detail: after the date checks, the caller's active records of that day (in
   * table order), their total and their projections, under the day's label.
   */
  method GetUserExpensesByDateDetail(rows: seq<Expense>, userId: nat, dateStr: string)
    returns (r: Result<GroupedExpenseResponse, ApiError>)
    ensures ParseDateParam(dateStr).Failure? ==> r == Failure(ParseDateParam(dateStr).error)
    ensures ParseDateParam(dateStr).Success? ==>
      var day := ParseDateParam(dateStr).value;
      var selected := Selected(rows, userId, day);
      && r.Success?
      && r.value.date == FormatLabel(day)
      && r.value.total == SumAmounts(selected)
      && r.value.expenses == Projections(selected)
  {
    var parsed := ParseDateParam(dateStr);
    if parsed.Failure? {
      return Failure(parsed.error);
    }
    var day := parsed.value;
    var expenses := Selected(rows, userId, day);

    var total := TotalOf(expenses);
    var items := ProjectAll(expenses);
    r := Success(GroupedExpenseResponse(FormatLabel(day), total, items));
  }

  /** The detail's first loop: the running total of the amounts. */
  method TotalOf(expenses: seq<Expense>) returns (total: int)
    ensures total == SumAmounts(expenses)
  {
    total := 0;
    for i := 0 to |expenses|
      invariant total == SumAmounts(expenses[..i])
    {
      TakeSnoc(expenses, i);
      total := total + expenses[i].amount;
    }
    assert expenses[..|expenses|] == expenses;
  }

  /** The detail's second loop: a slice of len(expenses) responses, filled by index. */
  method ProjectAll(expenses: seq<Expense>) returns (items: seq<ExpenseResponse>)
    ensures items == Projections(expenses)
  {
    var a := new ExpenseResponse[|expenses|](_ => ExpenseResponse(0, "", 0, ZeroTimestamp));
    for i := 0 to |expenses|
      invariant forall j :: 0 <= j < i ==> a[j] == Project(expenses[j])
    {
      a[i] := Project(expenses[i]);
    }
    forall j | 0 <= j < |expenses| ensures a[..][j] == Projections(expenses)[j] {
      ProjectionsAt(expenses, j);
    }
    items := a[..];
  }

  // ---------------------------------------------------------------------------------
  // DeleteExpensesByDate

  /** "UPDATE ... SET deleted_at = now WHERE <MatchesDay>" over the table, one row at a time. */
  method SoftDeleteMatching(rows: array<Expense>, userId: nat, day: CalendarDay, now: Timestamp)
    modifies rows
    ensures rows[..] == SoftDeleted(old(rows[..]), userId, day, now)
  {
    ghost var before := rows[..];
    for i := 0 to rows.Length
      invariant rows[..i] == SoftDeleted(before[..i], userId, day, now)
      invariant rows[i..] == before[i..]
    {
      TakeSnoc(before, i);
      assert rows[i] == before[i];
      if MatchesDay(rows[i], userId, day) {
        rows[i] := rows[i].(deletedAt := Some(now));
      }
      assert rows[..i + 1] == rows[..i] + [rows[i]];
    }
    assert rows[..] == rows[..rows.Length] && before == before[..rows.Length];
  }

  /**
   * The day delete: after the date checks, every active record of the caller on that day
   * gets deleted_at = now; when a check fails the table is untouched.
   */
  method DeleteExpensesByDate(rows: array<Expense>, userId: nat, dateStr: string, now: Timestamp)
    returns (r: Result<(), ApiError>)
    modifies rows
    ensures ParseDateParam(dateStr).Failure? ==>
      r == Failure(ParseDateParam(dateStr).error) && rows[..] == old(rows[..])
    ensures ParseDateParam(dateStr).Success? ==>
      r.Success? && rows[..] == SoftDeleted(old(rows[..]), userId, ParseDateParam(dateStr).value, now)
  {
    var parsed := ParseDateParam(dateStr);
    if parsed.Failure? {
      return Failure(parsed.error);
    }
    SoftDeleteMatching(rows, userId, parsed.value, now);
    r := Success(());
  }
}
