/**
 * Expense records, the response shapes of the expense controller, and the pure parts of
 * its logic: projections, sums, the day label of a record and the WHERE predicates of its
 * queries, stated over an in-memory table of records.
 */
module ExpenseModel {
  import opened Wrappers
  import opened Calendar
  import opened Layouts

  /** Seconds after midnight. */
  type ClockTime = s: nat | s < 86400

  /** A created_at or deleted_at value: a calendar day and a time of day, in the zone it carries. */
  datatype Timestamp = Timestamp(day: CalendarDay, clock: ClockTime)

  /** Go's zero Time, 0001-01-01 00:00:00. */
  const ZeroTimestamp: Timestamp := Timestamp(ZeroDay, 0)

  /** Position of an instant on the time line: comparing keys compares instants. */
  function TimeKey(t: Timestamp): int {
    Rank(t.day) * 86400 + t.clock
  }

  /** A stored expense; amounts are whole cents and `deletedAt` is None while the record is active. */
  datatype Expense = Expense(
    id: nat, tenant: string, amount: int, userId: nat,
    createdAt: Timestamp, deletedAt: Option<Timestamp>)

  /** One element of the bulk-create payload. */
  datatype ExpenseInput = ExpenseInput(tenant: string, amount: int)

  /** What the API shows of a record. */
  datatype ExpenseResponse = ExpenseResponse(id: nat, tenant: string, amount: int, createdAt: Timestamp)

  /** One day's summary; the day-detail response has the same shape. */
  datatype GroupedExpenseResponse = GroupedExpenseResponse(date: string, total: int, expenses: seq<ExpenseResponse>)

  /** Why a date argument is refused: absent, or not a "YYYY-MM-DD" day. */
  datatype ApiError = DateRequired | InvalidDateFormat

  function Project(e: Expense): ExpenseResponse {
    ExpenseResponse(e.id, e.tenant, e.amount, e.createdAt)
  }

  /** The payload element a record was built from. */
  function InputOf(e: Expense): ExpenseInput {
    ExpenseInput(e.tenant, e.amount)
  }

  function Last<T>(s: seq<T>): T
    requires s != []
  {
    s[|s| - 1]
  }

  function Init<T>(s: seq<T>): seq<T>
    requires s != []
  {
    s[..|s| - 1]
  }

  /** Growing a prefix by one element. */
  lemma TakeSnoc<T>(s: seq<T>, i: nat)
    requires i < |s|
    ensures s[..i + 1] == s[..i] + [s[i]]
  {
  }

  /** Each record projected, in order. */
  function Projections(s: seq<Expense>): (r: seq<ExpenseResponse>)
    ensures |r| == |s|
  {
    if s == [] then [] else Projections(Init(s)) + [Project(Last(s))]
  }

  /** Exact sum of the amounts. */
  function SumAmounts(s: seq<Expense>): int {
    if s == [] then 0 else SumAmounts(Init(s)) + Last(s).amount
  }

  /** Group key of a record: its creation day formatted as "Monday, 02 January 2006". */
  function Label(e: Expense): string {
    FormatLabel(e.createdAt.day)
  }

  // The grouping is stated for any key function; the listing groups by Label. Keeping the
  // key abstract lets the grouping lemmas reason about key equality alone.

  /** The keys that occur in a sequence of records. */
  function Keys(s: seq<Expense>, key: Expense -> string): set<string> {
    if s == [] then {} else Keys(Init(s), key) + {key(Last(s))}
  }

  /** The records with key `k`, in their original order. */
  function WithKey(s: seq<Expense>, key: Expense -> string, k: string): (r: seq<Expense>)
    ensures |r| <= |s|
  {
    if s == [] then []
    else if key(Last(s)) == k then WithKey(Init(s), key, k) + [Last(s)]
    else WithKey(Init(s), key, k)
  }

  /** The records with any other key, in their original order. */
  function WithoutKey(s: seq<Expense>, key: Expense -> string, k: string): (r: seq<Expense>)
    ensures |r| <= |s|
  {
    if s == [] then []
    else if key(Last(s)) != k then WithoutKey(Init(s), key, k) + [Last(s)]
    else WithoutKey(Init(s), key, k)
  }

  /** The summary that the records of `s` with key `k` should add up to. */
  function KeyGroup(s: seq<Expense>, key: Expense -> string, k: string): GroupedExpenseResponse {
    GroupedExpenseResponse(k, SumAmounts(WithKey(s, key, k)), Projections(WithKey(s, key, k)))
  }

  /** A record not soft-deleted. */
  predicate IsActive(e: Expense) {
    e.deletedAt.None?
  }

  /** "user_id = ? AND deleted_at IS NULL", the WHERE of the grouped listing. */
  predicate ActiveOwned(e: Expense, userId: nat) {
    e.userId == userId && IsActive(e)
  }

  /** The rows that predicate selects, in table order. */
  function ActiveOf(rows: seq<Expense>, userId: nat): (r: seq<Expense>)
    ensures |r| <= |rows|
  {
    if rows == [] then []
    else if ActiveOwned(Last(rows), userId) then ActiveOf(Init(rows), userId) + [Last(rows)]
    else ActiveOf(Init(rows), userId)
  }

  /** "ORDER BY created_at DESC": no record is older than one after it. */
  predicate NewestFirst(s: seq<Expense>) {
    forall i, j :: 0 <= i < j < |s| ==> TimeKey(s[j].createdAt) <= TimeKey(s[i].createdAt)
  }

  /** What the grouped listing's query may return: the selected rows, each once, newest first. */
  predicate ActiveFetch(rows: seq<Expense>, userId: nat, fetched: seq<Expense>) {
    multiset(fetched) == multiset(ActiveOf(rows, userId)) && NewestFirst(fetched)
  }

  /**
   * "user_id = ? AND DATE(created_at) = DATE(?) AND deleted_at IS NULL", the WHERE of the
   * day detail and of the soft delete.
   */
  predicate MatchesDay(e: Expense, userId: nat, day: CalendarDay) {
    e.userId == userId && e.createdAt.day == day && IsActive(e)
  }

  /** The rows that predicate selects, in table order. */
  function Selected(rows: seq<Expense>, userId: nat, day: CalendarDay): (r: seq<Expense>)
    ensures |r| <= |rows|
  {
    if rows == [] then []
    else if MatchesDay(Last(rows), userId, day) then Selected(Init(rows), userId, day) + [Last(rows)]
    else Selected(Init(rows), userId, day)
  }

  /** One row after "UPDATE ... SET deleted_at = now WHERE <MatchesDay>". */
  function MarkDeleted(e: Expense, userId: nat, day: CalendarDay, now: Timestamp): Expense {
    if MatchesDay(e, userId, day) then e.(deletedAt := Some(now)) else e
  }

  /** The whole table after that update. */
  function SoftDeleted(rows: seq<Expense>, userId: nat, day: CalendarDay, now: Timestamp): (r: seq<Expense>)
    ensures |r| == |rows|
  {
    if rows == [] then [] else SoftDeleted(Init(rows), userId, day, now) + [MarkDeleted(Last(rows), userId, day, now)]
  }

  // ---------------------------------------------------------------------------------
  // Summaries of a whole grouped response

  /** The day labels of a grouped response. */
  function DatesOf(gs: seq<GroupedExpenseResponse>): set<string> {
    if gs == [] then {} else DatesOf(Init(gs)) + {Last(gs).date}
  }

  function SumTotals(gs: seq<GroupedExpenseResponse>): int {
    if gs == [] then 0 else SumTotals(Init(gs)) + Last(gs).total
  }

  /** All expense lists of a grouped response, one after another. */
  function Flatten(gs: seq<GroupedExpenseResponse>): seq<ExpenseResponse> {
    if gs == [] then [] else Flatten(Init(gs)) + Last(gs).expenses
  }

  /** No two groups carry the same day label. */
  predicate DistinctDates(gs: seq<GroupedExpenseResponse>) {
    forall i, j :: 0 <= i < j < |gs| ==> gs[i].date != gs[j].date
  }

  /**
   * `gs` groups the records of `s` by `key`: one group per key that occurs, none for any
   * other, each holding exactly the total and the expenses of its key. The listing's
   * response is such a grouping for key Label.
   */
  predicate IsGrouping(gs: seq<GroupedExpenseResponse>, s: seq<Expense>, key: Expense -> string) {
    && (forall i :: 0 <= i < |gs| ==> gs[i] == KeyGroup(s, key, gs[i].date))
    && DistinctDates(gs)
    && DatesOf(gs) == Keys(s, key)
  }

  /** The key the sort compares: the day parsed back from the label (the zero day on error). */
  function SortKey(g: GroupedExpenseResponse): int {
    Rank(ParsedDay(g.date))
  }

  /** Sorted for the comparator "dateI.After(dateJ)": no group is earlier than one after it. */
  predicate NewestDayFirst(gs: seq<GroupedExpenseResponse>) {
    forall i, j :: 0 <= i < j < |gs| ==> SortKey(gs[j]) <= SortKey(gs[i])
  }

  /** Strictly descending by calendar day. */
  predicate StrictlyNewestDayFirst(gs: seq<GroupedExpenseResponse>) {
    forall i, j :: 0 <= i < j < |gs| ==> DayBefore(ParsedDay(gs[j].date), ParsedDay(gs[i].date))
  }

  /** Every record has a four-digit year, as the storage's DATETIME range guarantees. */
  predicate FourDigitYears(s: seq<Expense>) {
    forall e :: e in s ==> e.createdAt.day.year < 10000
  }

  // ---------------------------------------------------------------------------------
  // How the definitions grow by one record or one group

  lemma KeysSnoc(s: seq<Expense>, key: Expense -> string, e: Expense)
    ensures Keys(s + [e], key) == Keys(s, key) + {key(e)}
  {
    assert Init(s + [e]) == s && Last(s + [e]) == e;
  }

  lemma WithKeySnoc(s: seq<Expense>, key: Expense -> string, e: Expense, k: string)
    ensures WithKey(s + [e], key, k) == if key(e) == k then WithKey(s, key, k) + [e] else WithKey(s, key, k)
  {
    assert Init(s + [e]) == s && Last(s + [e]) == e;
  }

  lemma SumAmountsSnoc(s: seq<Expense>, e: Expense)
    ensures SumAmounts(s + [e]) == SumAmounts(s) + e.amount
  {
    assert Init(s + [e]) == s && Last(s + [e]) == e;
  }

  lemma ProjectionsSnoc(s: seq<Expense>, e: Expense)
    ensures Projections(s + [e]) == Projections(s) + [Project(e)]
  {
  }

  /** Adding a record adds its amount and appends its projection to its own key's summary only. */
  lemma KeyGroupSnoc(s: seq<Expense>, key: Expense -> string, e: Expense, k: string)
    ensures KeyGroup(s + [e], key, k) ==
      if key(e) == k then
        GroupedExpenseResponse(k, KeyGroup(s, key, k).total + e.amount, KeyGroup(s, key, k).expenses + [Project(e)])
      else KeyGroup(s, key, k)
  {
    var before := WithKey(s, key, k);
    WithKeySnoc(s, key, e, k);
    if key(e) == k {
      SumAmountsSnoc(before, e);
      ProjectionsSnoc(before, e);
    }
  }

  /** The accumulator map holds, for every key of `s`, that key's summary, and nothing else. */
  predicate GroupsOf(groups: map<string, GroupedExpenseResponse>, s: seq<Expense>, key: Expense -> string) {
    && groups.Keys == Keys(s, key)
    && (forall k :: k in groups ==> groups[k] == KeyGroup(s, key, k))
  }

  /** How one pass of the accumulator loop turns `groups` into `next` for record `e`. */
  predicate Accumulated(groups: map<string, GroupedExpenseResponse>, next: map<string, GroupedExpenseResponse>,
                        key: Expense -> string, e: Expense)
  {
    && next.Keys == groups.Keys + {key(e)}
    && (forall k :: k in groups && k != key(e) ==> next[k] == groups[k])
    && (key(e) in groups ==>
          next[key(e)] == GroupedExpenseResponse(key(e), groups[key(e)].total + e.amount,
                                                 groups[key(e)].expenses + [Project(e)]))
    && (key(e) !in groups ==> next[key(e)] == GroupedExpenseResponse(key(e), e.amount, [Project(e)]))
  }

  /**
   * One pass of the accumulator loop: the entry for the record's key gets its amount
   * and projection (a new entry if the key is new), every other entry stays.
   */
  lemma AccumulateStep(groups: map<string, GroupedExpenseResponse>, next: map<string, GroupedExpenseResponse>,
                       s: seq<Expense>, key: Expense -> string, e: Expense)
    requires GroupsOf(groups, s, key) && Accumulated(groups, next, key, e)
    ensures GroupsOf(next, s + [e], key)
  {
    KeysSnoc(s, key, e);
    forall k | k in next ensures next[k] == KeyGroup(s + [e], key, k) {
      AccumulateEntry(groups, next, s, key, e, k);
    }
  }

  lemma AccumulateEntry(groups: map<string, GroupedExpenseResponse>, next: map<string, GroupedExpenseResponse>,
                        s: seq<Expense>, key: Expense -> string, e: Expense, k: string)
    requires GroupsOf(groups, s, key) && Accumulated(groups, next, key, e) && k in next
    ensures next[k] == KeyGroup(s + [e], key, k)
  {
    KeyGroupSnoc(s, key, e, k);
    if k != key(e) {
      assert next[k] == groups[k];
    } else if k in groups {
      assert groups[k] == KeyGroup(s, key, k);
    } else {
      AbsentKey(s, key, k);
      assert KeyGroup(s, key, k) == GroupedExpenseResponse(k, 0, []);
    }
  }

  /** A key occurs exactly when some record carries it. */
  lemma {:induction false} KeysMembers(s: seq<Expense>, key: Expense -> string, k: string)
    ensures k in Keys(s, key) <==> WithKey(s, key, k) != []
  {
    if s != [] {
      KeysMembers(Init(s), key, k);
    }
  }

  lemma KeyOfMember(s: seq<Expense>, key: Expense -> string, e: Expense)
    requires e in s
    ensures key(e) in Keys(s, key)
  {
    WithKeyMembers(s, key, key(e), e);
    KeysMembers(s, key, key(e));
  }

  /** The day labels of a response are the dates its groups carry. */
  lemma {:induction false} DatesOfMembers(gs: seq<GroupedExpenseResponse>, k: string)
    ensures k in DatesOf(gs) <==> exists i :: 0 <= i < |gs| && gs[i].date == k
  {
    if gs != [] {
      DatesOfMembers(Init(gs), k);
      if k in DatesOf(Init(gs)) {
        var i :| 0 <= i < |Init(gs)| && Init(gs)[i].date == k;
        assert gs[i].date == k;
      }
    }
  }

  /** A key that does not occur has no records. */
  lemma AbsentKey(s: seq<Expense>, key: Expense -> string, k: string)
    requires k !in Keys(s, key)
    ensures WithKey(s, key, k) == []
  {
    KeysMembers(s, key, k);
  }

  lemma DatesOfSnoc(gs: seq<GroupedExpenseResponse>, g: GroupedExpenseResponse)
    ensures DatesOf(gs + [g]) == DatesOf(gs) + {g.date}
  {
    assert Init(gs + [g]) == gs && Last(gs + [g]) == g;
  }

  // ---------------------------------------------------------------------------------
  // What the filters keep

  /** The i-th projection is the projection of the i-th record. */
  lemma {:induction false} ProjectionsAt(s: seq<Expense>, i: nat)
    requires i < |s|
    ensures Projections(s)[i] == Project(s[i])
  {
    if i < |s| - 1 {
      ProjectionsAt(Init(s), i);
    }
  }

  /** A sequence is its last element appended to the rest, so its members are theirs. */
  lemma MembersInitLast<T>(s: seq<T>, x: T)
    requires s != []
    ensures x in s <==> x in Init(s) || x == Last(s)
    ensures multiset(s) == multiset(Init(s)) + multiset{Last(s)}
  {
    assert s == Init(s) + [Last(s)];
  }

  lemma {:induction false} WithKeyMembers(s: seq<Expense>, key: Expense -> string, k: string, e: Expense)
    ensures e in WithKey(s, key, k) <==> e in s && key(e) == k
  {
    if s != [] {
      WithKeyMembers(Init(s), key, k, e);
      MembersInitLast(s, e);
    }
  }

  lemma {:induction false} WithoutKeyMembers(s: seq<Expense>, key: Expense -> string, k: string, e: Expense)
    ensures e in WithoutKey(s, key, k) <==> e in s && key(e) != k
  {
    if s != [] {
      WithoutKeyMembers(Init(s), key, k, e);
      MembersInitLast(s, e);
    }
  }

  /** The grouped listing's query keeps exactly the caller's active rows. */
  lemma {:induction false} ActiveOfMembers(rows: seq<Expense>, userId: nat, e: Expense)
    ensures e in ActiveOf(rows, userId) <==> e in rows && ActiveOwned(e, userId)
  {
    if rows != [] {
      ActiveOfMembers(Init(rows), userId, e);
      MembersInitLast(rows, e);
    }
  }

  /** The day query keeps exactly the caller's active rows created on that day. */
  lemma {:induction false} SelectedMembers(rows: seq<Expense>, userId: nat, day: CalendarDay, e: Expense)
    ensures e in Selected(rows, userId, day) <==> e in rows && MatchesDay(e, userId, day)
  {
    if rows != [] {
      SelectedMembers(Init(rows), userId, day, e);
      MembersInitLast(rows, e);
    }
  }
}
