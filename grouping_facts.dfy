/**
 * What the grouped listing promises about the records it was given: conservation of money
 * and records, one group per day, the fetch order inside a group, and the day order of the
 * groups, which rests on the label round trip.
 */
module GroupingFacts {
  import opened Wrappers
  import opened Calendar
  import opened Layouts
  import opened ExpenseModel

  // ---------------------------------------------------------------------------------
  // Reordering the groups (the sort) keeps them a grouping

  /** An element at two positions occurs at least twice. */
  lemma TwiceInSeq<T>(s: seq<T>, i: nat, j: nat)
    requires i < j < |s| && s[i] == s[j]
    ensures multiset(s)[s[i]] >= 2
  {
    assert s == s[..j] + [s[j]] + s[j + 1..];
    assert s[i] in s[..j];
  }

  /** Groups with distinct dates are distinct, so each occurs once. */
  lemma {:induction false} DistinctDatesOnce(gs: seq<GroupedExpenseResponse>, g: GroupedExpenseResponse)
    requires DistinctDates(gs)
    ensures multiset(gs)[g] <= 1
  {
    if gs != [] {
      var init, last := Init(gs), Last(gs);
      assert DistinctDates(init) by {
        forall i, j | 0 <= i < j < |init| ensures init[i].date != init[j].date {
          assert init[i] == gs[i] && init[j] == gs[j];
        }
      }
      DistinctDatesOnce(init, g);
      assert gs == init + [last];
      assert multiset(gs) == multiset(init) + multiset{last};
      if g == last {
        assert g !in init by {
          forall i | 0 <= i < |init| ensures init[i] != last {
            assert init[i] == gs[i] && last == gs[|gs| - 1];
          }
        }
      }
    }
  }

  /** A permutation of a grouping with distinct dates again has distinct dates. */
  lemma PermutationKeepsDistinct(a: seq<GroupedExpenseResponse>, b: seq<GroupedExpenseResponse>)
    requires multiset(a) == multiset(b) && DistinctDates(a)
    ensures DistinctDates(b)
  {
    forall i, j | 0 <= i < j < |b| ensures b[i].date != b[j].date {
      if b[i] == b[j] {
        TwiceInSeq(b, i, j);
        DistinctDatesOnce(a, b[i]);
      } else {
        assert b[i] in multiset(a) && b[j] in multiset(a);
        var p :| 0 <= p < |a| && a[p] == b[i];
        var q :| 0 <= q < |a| && a[q] == b[j];
        assert p != q;
        assert a[p].date != a[q].date;
      }
    }
  }

  /** Any reordering of a grouping is a grouping of the same records by the same key. */
  lemma PermutationKeepsGrouping(a: seq<GroupedExpenseResponse>, b: seq<GroupedExpenseResponse>,
                                  s: seq<Expense>, key: Expense -> string)
    requires multiset(a) == multiset(b) && IsGrouping(a, s, key)
    ensures IsGrouping(b, s, key)
  {
    PermutationKeepsDistinct(a, b);
    forall i | 0 <= i < |b| ensures b[i] == KeyGroup(s, key, b[i].date) {
      assert b[i] in multiset(a);
    }
    forall k ensures k in DatesOf(b) <==> k in DatesOf(a) {
      DatesOfMembers(a, k);
      DatesOfMembers(b, k);
      if k in DatesOf(b) {
        var i :| 0 <= i < |b| && b[i].date == k;
        assert b[i] in multiset(a);
      }
      if k in DatesOf(a) {
        var i :| 0 <= i < |a| && a[i].date == k;
        assert a[i] in multiset(b);
      }
    }
  }

  // ---------------------------------------------------------------------------------
  // Day order

  /** A key that occurs is the key of one of the records. */
  lemma KeyWitness(s: seq<Expense>, key: Expense -> string, k: string) returns (e: Expense)
    requires k in Keys(s, key)
    ensures e in s && key(e) == k
  {
    KeysMembers(s, key, k);
    e := WithKey(s, key, k)[0];
    WithKeyMembers(s, key, k, e);
  }

  /**
   * When every year has four digits, a grouping sorted for the comparator is strictly
   * newest day first: each label parses back to its own day, and distinct labels are
   * distinct days.
   */
  lemma SortedGroupingIsStrict(gs: seq<GroupedExpenseResponse>, s: seq<Expense>)
    requires IsGrouping(gs, s, Label) && NewestDayFirst(gs) && FourDigitYears(s)
    ensures StrictlyNewestDayFirst(gs)
  {
    forall i, j | 0 <= i < j < |gs| ensures DayBefore(ParsedDay(gs[j].date), ParsedDay(gs[i].date)) {
      DatesOfMembers(gs, gs[i].date);
      DatesOfMembers(gs, gs[j].date);
      var ei := KeyWitness(s, Label, gs[i].date);
      var ej := KeyWitness(s, Label, gs[j].date);
      ParsedDayOfLabel(ei.createdAt.day);
      ParsedDayOfLabel(ej.createdAt.day);
      RankOrdersDays(ParsedDay(gs[j].date), ParsedDay(gs[i].date));
    }
  }

  /** Only the empty response has no dates. */
  lemma DatesOfEmpty(gs: seq<GroupedExpenseResponse>)
    ensures DatesOf(gs) == {} <==> gs == []
  {
    if gs != [] {
      assert Last(gs).date in DatesOf(gs);
    }
  }

  /** No records, no groups. */
  lemma EmptyGrouping(gs: seq<GroupedExpenseResponse>, key: Expense -> string)
    requires IsGrouping(gs, [], key)
    ensures gs == []
  {
    DatesOfEmpty(gs);
  }

  // ---------------------------------------------------------------------------------
  // Conservation: the groups hold every record once, and the totals add up

  lemma {:induction false} ConcatSums(a: seq<Expense>, b: seq<Expense>)
    ensures SumAmounts(a + b) == SumAmounts(a) + SumAmounts(b)
    ensures Projections(a + b) == Projections(a) + Projections(b)
  {
    if b == [] {
      assert a + b == a;
    } else {
      ConcatSums(a, Init(b));
      assert Init(a + b) == a + Init(b) && Last(a + b) == Last(b);
    }
  }

  lemma ProjectionsSnocMultiset(s: seq<Expense>, e: Expense)
    ensures multiset(Projections(s + [e])) == multiset(Projections(s)) + multiset{Project(e)}
  {
    ProjectionsSnoc(s, e);
  }

  lemma MultisetWithout<T>(p: seq<T>, x: T, q: seq<T>)
    ensures multiset(p + [x] + q) == multiset(p + q) + multiset{x}
  {
  }

  /** Taking the record `x` out from between `front` and `back` takes away its amount. */
  lemma RemoveAmountBetween(front: seq<Expense>, x: Expense, back: seq<Expense>)
    ensures SumAmounts(front + [x] + back) == SumAmounts(front + back) + x.amount
  {
    ConcatSums(front, back);
    ConcatSums(front + [x], back);
    SumAmountsSnoc(front, x);
  }

  /** Taking the record `x` out from between `front` and `back` takes away its projection. */
  lemma RemoveProjectionBetween(front: seq<Expense>, x: Expense, back: seq<Expense>)
    ensures multiset(Projections(front + [x] + back)) == multiset(Projections(front + back)) + multiset{Project(x)}
  {
    ConcatSums(front, back);
    ConcatSums(front + [x], back);
    ProjectionsSnoc(front, x);
    var pf, pb := Projections(front), Projections(back);
    assert Projections(front + [x] + back) == pf + [Project(x)] + pb;
    MultisetWithout(pf, Project(x), pb);
  }

  lemma MultisetCancel<T>(a: multiset<T>, b: multiset<T>, x: T)
    requires a + multiset{x} == b + multiset{x}
    ensures a == b
  {
    forall y ensures a[y] == b[y] {
      assert (a + multiset{x})[y] == (b + multiset{x})[y];
    }
  }

  /** The last record of `a` found in a permutation `b` of it, with what surrounds it. */
  lemma PickOut(a: seq<Expense>, b: seq<Expense>) returns (front: seq<Expense>, back: seq<Expense>)
    requires a != [] && multiset(a) == multiset(b)
    ensures b == front + [Last(a)] + back
    ensures multiset(Init(a)) == multiset(front + back)
  {
    var x := Last(a);
    assert a == Init(a) + [x];
    assert x in multiset(b);
    var j :| 0 <= j < |b| && b[j] == x;
    front, back := b[..j], b[j + 1..];
    assert b == front + [x] + back;
    MultisetWithout(front, x, back);
    MultisetCancel(multiset(Init(a)), multiset(front + back), x);
  }

  /** Reordering records does not change their sum. */
  lemma {:induction false} PermutationKeepsSum(a: seq<Expense>, b: seq<Expense>)
    requires multiset(a) == multiset(b)
    ensures SumAmounts(a) == SumAmounts(b)
    decreases |a|
  {
    if a != [] {
      var front, back := PickOut(a, b);
      PermutationKeepsSum(Init(a), front + back);
      RemoveAmountBetween(front, Last(a), back);
    }
  }

  /** Reordering records does not change the multiset of their projections. */
  lemma {:induction false} PermutationKeepsProjections(a: seq<Expense>, b: seq<Expense>)
    requires multiset(a) == multiset(b)
    ensures multiset(Projections(a)) == multiset(Projections(b))
    decreases |a|
  {
    if a != [] {
      var front, back := PickOut(a, b);
      PermutationKeepsProjections(Init(a), front + back);
      RemoveProjectionBetween(front, Last(a), back);
      assert multiset(Projections(a)) == multiset(Projections(Init(a))) + multiset{Project(Last(a))};
    }
  }

  /** Reordering records changes neither their sum nor the multiset of their projections. */
  lemma PermutationKeepsSums(a: seq<Expense>, b: seq<Expense>)
    requires multiset(a) == multiset(b)
    ensures SumAmounts(a) == SumAmounts(b)
    ensures multiset(Projections(a)) == multiset(Projections(b))
  {
    PermutationKeepsSum(a, b);
    PermutationKeepsProjections(a, b);
  }

  /** The records of one key and the others split the sum. */
  lemma {:induction false} SplitSumByKey(s: seq<Expense>, key: Expense -> string, k: string)
    ensures SumAmounts(s) == SumAmounts(WithKey(s, key, k)) + SumAmounts(WithoutKey(s, key, k))
  {
    if s != [] {
      SplitSumByKey(Init(s), key, k);
      SplitSumStep(s, key, k);
    }
  }

  lemma SplitSumStep(s: seq<Expense>, key: Expense -> string, k: string)
    requires s != []
    requires SumAmounts(Init(s)) == SumAmounts(WithKey(Init(s), key, k)) + SumAmounts(WithoutKey(Init(s), key, k))
    ensures SumAmounts(s) == SumAmounts(WithKey(s, key, k)) + SumAmounts(WithoutKey(s, key, k))
  {
    var on, off, e := WithKey(Init(s), key, k), WithoutKey(Init(s), key, k), Last(s);
    if key(e) == k {
      assert WithKey(s, key, k) == on + [e] && WithoutKey(s, key, k) == off;
      SumAmountsSnoc(on, e);
    } else {
      assert WithKey(s, key, k) == on && WithoutKey(s, key, k) == off + [e];
      SumAmountsSnoc(off, e);
    }
  }

  /** The records of one key and the others split the projections. */
  lemma {:induction false} SplitProjectionsByKey(s: seq<Expense>, key: Expense -> string, k: string)
    ensures multiset(Projections(s)) ==
      multiset(Projections(WithKey(s, key, k))) + multiset(Projections(WithoutKey(s, key, k)))
  {
    if s != [] {
      SplitProjectionsByKey(Init(s), key, k);
      SplitProjectionsStep(s, key, k);
    }
  }

  lemma SplitProjectionsStep(s: seq<Expense>, key: Expense -> string, k: string)
    requires s != []
    requires multiset(Projections(Init(s))) ==
      multiset(Projections(WithKey(Init(s), key, k))) + multiset(Projections(WithoutKey(Init(s), key, k)))
    ensures multiset(Projections(s)) ==
      multiset(Projections(WithKey(s, key, k))) + multiset(Projections(WithoutKey(s, key, k)))
  {
    var on, off, e := WithKey(Init(s), key, k), WithoutKey(Init(s), key, k), Last(s);
    var whole, one := multiset(Projections(Init(s))), multiset{Project(e)};
    var mOn, mOff := multiset(Projections(on)), multiset(Projections(off));
    MultisetShuffle(whole, mOn, mOff, one);
    assert multiset(Projections(s)) == whole + one;
    if key(e) == k {
      assert WithKey(s, key, k) == on + [e] && WithoutKey(s, key, k) == off;
      ProjectionsSnocMultiset(on, e);
      assert multiset(Projections(on + [e])) == mOn + one;
      assert whole + one == (mOn + one) + mOff;
    } else {
      assert WithKey(s, key, k) == on && WithoutKey(s, key, k) == off + [e];
      ProjectionsSnocMultiset(off, e);
      assert multiset(Projections(off + [e])) == mOff + one;
      assert whole + one == mOn + (mOff + one);
    }
  }

  lemma MultisetShuffle<T>(whole: multiset<T>, left: multiset<T>, right: multiset<T>, extra: multiset<T>)
    requires whole == left + right
    ensures whole + extra == (left + extra) + right
    ensures whole + extra == left + (right + extra)
  {
  }

  /** Taking one key away leaves the other keys' records as they were. */
  lemma {:induction false} WithKeyOfWithout(s: seq<Expense>, key: Expense -> string, k: string, other: string)
    requires k != other
    ensures WithKey(WithoutKey(s, key, k), key, other) == WithKey(s, key, other)
  {
    if s != [] {
      WithKeyOfWithout(Init(s), key, k, other);
      WithKeyOfWithoutStep(s, key, k, other);
    }
  }

  lemma WithKeyOfWithoutStep(s: seq<Expense>, key: Expense -> string, k: string, other: string)
    requires s != [] && k != other
    requires WithKey(WithoutKey(Init(s), key, k), key, other) == WithKey(Init(s), key, other)
    ensures WithKey(WithoutKey(s, key, k), key, other) == WithKey(s, key, other)
  {
    var off, e := WithoutKey(Init(s), key, k), Last(s);
    if key(e) != k {
      assert WithoutKey(s, key, k) == off + [e];
      WithKeySnoc(off, key, e, other);
    } else {
      assert WithoutKey(s, key, k) == off;
    }
  }

  lemma {:induction false} KeysOfWithout(s: seq<Expense>, key: Expense -> string, k: string)
    ensures Keys(WithoutKey(s, key, k), key) == Keys(s, key) - {k}
  {
    if s != [] {
      KeysOfWithout(Init(s), key, k);
      KeysOfWithoutStep(s, key, k);
    }
  }

  lemma KeysOfWithoutStep(s: seq<Expense>, key: Expense -> string, k: string)
    requires s != []
    requires Keys(WithoutKey(Init(s), key, k), key) == Keys(Init(s), key) - {k}
    ensures Keys(WithoutKey(s, key, k), key) == Keys(s, key) - {k}
  {
    var off, e := WithoutKey(Init(s), key, k), Last(s);
    var before, l := Keys(Init(s), key), key(e);
    assert Keys(s, key) == before + {l};
    if l != k {
      assert WithoutKey(s, key, k) == off + [e];
      KeysSnoc(off, key, e);
      assert (before + {l}) - {k} == (before - {k}) + {l};
    } else {
      assert WithoutKey(s, key, k) == off;
      assert (before + {l}) - {k} == before - {k};
    }
  }

  lemma KeysEmpty(s: seq<Expense>, key: Expense -> string)
    ensures Keys(s, key) == {} <==> s == []
  {
    if s != [] {
      assert key(Last(s)) in Keys(s, key);
    }
  }

  /** Dropping the last group keeps the dates distinct, and its date is not among the rest. */
  lemma DistinctDatesInit(gs: seq<GroupedExpenseResponse>)
    requires gs != [] && DistinctDates(gs)
    ensures DistinctDates(Init(gs))
    ensures Last(gs).date !in DatesOf(Init(gs))
  {
    var init := Init(gs);
    forall i, j | 0 <= i < j < |init| ensures init[i].date != init[j].date {
      assert init[i] == gs[i] && init[j] == gs[j];
    }
    DatesOfMembers(init, Last(gs).date);
    forall i | 0 <= i < |init| ensures init[i].date != Last(gs).date {
      assert init[i] == gs[i];
    }
  }

  /** Without its last group, a grouping groups the records of the other keys. */
  lemma GroupingInit(gs: seq<GroupedExpenseResponse>, s: seq<Expense>, key: Expense -> string)
    requires gs != [] && IsGrouping(gs, s, key)
    ensures IsGrouping(Init(gs), WithoutKey(s, key, Last(gs).date), key)
  {
    var init, k := Init(gs), Last(gs).date;
    DistinctDatesInit(gs);
    forall i | 0 <= i < |init| ensures init[i] == KeyGroup(WithoutKey(s, key, k), key, init[i].date) {
      assert init[i] == gs[i];
      WithKeyOfWithout(s, key, k, init[i].date);
    }
    assert gs == init + [Last(gs)];
    DatesOfSnoc(init, Last(gs));
    KeysOfWithout(s, key, k);
  }

  /**
   * Nothing is lost or duplicated: the group totals add up to the sum of the records, and
   * the groups' expenses are the records' projections, each once.
   */
  lemma {:induction false} GroupingConserves(gs: seq<GroupedExpenseResponse>, s: seq<Expense>,
                                             key: Expense -> string)
    requires IsGrouping(gs, s, key)
    ensures SumTotals(gs) == SumAmounts(s)
    ensures multiset(Flatten(gs)) == multiset(Projections(s))
    decreases |gs|
  {
    if gs == [] {
      KeysEmpty(s, key);
    } else {
      var k := Last(gs).date;
      GroupingInit(gs, s, key);
      GroupingConserves(Init(gs), WithoutKey(s, key, k), key);
      SplitSumByKey(s, key, k);
      SplitProjectionsByKey(s, key, k);
    }
  }

  /** Over the table: the listing accounts for every active record of the caller and no other. */
  lemma ListingConserves(rows: seq<Expense>, userId: nat, fetched: seq<Expense>, gs: seq<GroupedExpenseResponse>)
    requires ActiveFetch(rows, userId, fetched) && IsGrouping(gs, fetched, Label)
    ensures SumTotals(gs) == SumAmounts(ActiveOf(rows, userId))
    ensures multiset(Flatten(gs)) == multiset(Projections(ActiveOf(rows, userId)))
  {
    GroupingConserves(gs, fetched, Label);
    PermutationKeepsSums(fetched, ActiveOf(rows, userId));
  }

  /**
   * Every expense the listing shows is the projection of an active record of the caller,
   * filed under that record's day label: soft-deleted rows and other users' rows never appear.
   */
  lemma ListedComesFromActive(rows: seq<Expense>, userId: nat, fetched: seq<Expense>,
                              gs: seq<GroupedExpenseResponse>, i: nat, x: ExpenseResponse) returns (e: Expense)
    requires ActiveFetch(rows, userId, fetched) && IsGrouping(gs, fetched, Label)
    requires i < |gs| && x in gs[i].expenses
    ensures e in rows && ActiveOwned(e, userId) && Project(e) == x && Label(e) == gs[i].date
  {
    e := ProjectionSource(WithKey(fetched, Label, gs[i].date), x);
    WithKeyMembers(fetched, Label, gs[i].date, e);
    assert e in multiset(ActiveOf(rows, userId));
    ActiveOfMembers(rows, userId, e);
  }

  // ---------------------------------------------------------------------------------
  // One group per day

  lemma {:induction false} ProjectionOfMember(s: seq<Expense>, e: Expense)
    requires e in s
    ensures Project(e) in Projections(s)
  {
    var i :| 0 <= i < |s| && s[i] == e;
    ProjectionsAt(s, i);
  }

  lemma {:induction false} ProjectionSource(s: seq<Expense>, x: ExpenseResponse) returns (e: Expense)
    requires x in Projections(s)
    ensures e in s && Project(e) == x
  {
    var i :| 0 <= i < |Projections(s)| && Projections(s)[i] == x;
    ProjectionsAt(s, i);
    e := s[i];
  }

  /** A record's projection is in a group exactly when the group carries the record's label. */
  lemma RecordInItsGroup(gs: seq<GroupedExpenseResponse>, s: seq<Expense>, e: Expense, i: nat)
    requires IsGrouping(gs, s, Label) && e in s && i < |gs|
    ensures Project(e) in gs[i].expenses <==> gs[i].date == Label(e)
  {
    var k := gs[i].date;
    WithKeyMembers(s, Label, k, e);
    if k == Label(e) {
      ProjectionOfMember(WithKey(s, Label, k), e);
    }
    if Project(e) in gs[i].expenses {
      var source := ProjectionSource(WithKey(s, Label, k), Project(e));
      WithKeyMembers(s, Label, k, source);
    }
  }

  /** Every record has a group, the one of its label. */
  lemma RecordHasGroup(gs: seq<GroupedExpenseResponse>, s: seq<Expense>, e: Expense) returns (i: nat)
    requires IsGrouping(gs, s, Label) && e in s
    ensures i < |gs| && gs[i].date == Label(e) && Project(e) in gs[i].expenses
  {
    KeyOfMember(s, Label, e);
    DatesOfMembers(gs, Label(e));
    i :| 0 <= i < |gs| && gs[i].date == Label(e);
    RecordInItsGroup(gs, s, e, i);
  }

  /** Records created on the same day are in the same groups. */
  lemma SameDaySameGroup(gs: seq<GroupedExpenseResponse>, s: seq<Expense>, e1: Expense, e2: Expense)
    requires IsGrouping(gs, s, Label) && e1 in s && e2 in s && e1.createdAt.day == e2.createdAt.day
    ensures forall i :: 0 <= i < |gs| ==> (Project(e1) in gs[i].expenses <==> Project(e2) in gs[i].expenses)
  {
    forall i | 0 <= i < |gs| ensures Project(e1) in gs[i].expenses <==> Project(e2) in gs[i].expenses {
      RecordInItsGroup(gs, s, e1, i);
      RecordInItsGroup(gs, s, e2, i);
    }
  }

  /** Records of different days never share a group, whatever their years. */
  lemma DifferentDaysApart(gs: seq<GroupedExpenseResponse>, s: seq<Expense>, e1: Expense, e2: Expense)
    requires IsGrouping(gs, s, Label) && e1 in s && e2 in s && e1.createdAt.day != e2.createdAt.day
    ensures forall i :: 0 <= i < |gs| ==> !(Project(e1) in gs[i].expenses && Project(e2) in gs[i].expenses)
  {
    LabelInjective(e1.createdAt.day, e2.createdAt.day);
    forall i | 0 <= i < |gs| ensures !(Project(e1) in gs[i].expenses && Project(e2) in gs[i].expenses) {
      RecordInItsGroup(gs, s, e1, i);
      RecordInItsGroup(gs, s, e2, i);
    }
  }

  // ---------------------------------------------------------------------------------
  // Inside a group, the fetch order survives

  predicate ResponsesNewestFirst(xs: seq<ExpenseResponse>) {
    forall p, q :: 0 <= p < q < |xs| ==> TimeKey(xs[q].createdAt) <= TimeKey(xs[p].createdAt)
  }

  lemma {:induction false} WithKeyKeepsOrder(s: seq<Expense>, key: Expense -> string, k: string)
    requires NewestFirst(s)
    ensures NewestFirst(WithKey(s, key, k))
  {
    if s != [] {
      var init, e := Init(s), Last(s);
      assert NewestFirst(init) by {
        forall p, q | 0 <= p < q < |init| ensures TimeKey(init[q].createdAt) <= TimeKey(init[p].createdAt) {
          assert init[p] == s[p] && init[q] == s[q];
        }
      }
      WithKeyKeepsOrder(init, key, k);
      if key(e) == k {
        forall x | x in WithKey(init, key, k) ensures x in init {
          WithKeyMembers(init, key, k, x);
        }
        NewestFirstSnoc(WithKey(init, key, k), init, e, s);
        assert WithKey(s, key, k) == WithKey(init, key, k) + [e];
      } else {
        assert WithKey(s, key, k) == WithKey(init, key, k);
      }
    }
  }

  /** Appending a record no newer than any record of `init` keeps a sub-list of `init` newest first. */
  lemma NewestFirstSnoc(kept: seq<Expense>, init: seq<Expense>, e: Expense, s: seq<Expense>)
    requires NewestFirst(kept) && NewestFirst(s) && s == init + [e]
    requires forall x :: x in kept ==> x in init
    ensures NewestFirst(kept + [e])
  {
    var both := kept + [e];
    forall p, q | 0 <= p < q < |both| ensures TimeKey(both[q].createdAt) <= TimeKey(both[p].createdAt) {
      if q == |kept| {
        assert both[p] in init;
        var r :| 0 <= r < |init| && init[r] == both[p];
        assert s[r] == both[p] && s[|s| - 1] == e;
      } else {
        assert both[p] == kept[p] && both[q] == kept[q];
      }
    }
  }

  lemma ProjectionsKeepOrder(s: seq<Expense>)
    requires NewestFirst(s)
    ensures ResponsesNewestFirst(Projections(s))
  {
    forall p, q | 0 <= p < q < |s|
      ensures TimeKey(Projections(s)[q].createdAt) <= TimeKey(Projections(s)[p].createdAt)
    {
      ProjectionsAt(s, p);
      ProjectionsAt(s, q);
    }
  }

  /** With the query's newest-first order, every group lists its expenses newest first. */
  lemma GroupsKeepFetchOrder(gs: seq<GroupedExpenseResponse>, s: seq<Expense>, key: Expense -> string)
    requires IsGrouping(gs, s, key) && NewestFirst(s)
    ensures forall i :: 0 <= i < |gs| ==> ResponsesNewestFirst(gs[i].expenses)
  {
    forall i | 0 <= i < |gs| ensures ResponsesNewestFirst(gs[i].expenses) {
      WithKeyKeepsOrder(s, key, gs[i].date);
      ProjectionsKeepOrder(WithKey(s, key, gs[i].date));
    }
  }

  // ---------------------------------------------------------------------------------
  // The day detail agrees with the day's group in the listing

  /** The day query selects the records the listing puts under that day's label. */
  lemma {:induction false} SelectedIsLabelGroup(rows: seq<Expense>, userId: nat, d: CalendarDay)
    ensures Selected(rows, userId, d) == WithKey(ActiveOf(rows, userId), Label, FormatLabel(d))
  {
    if rows != [] {
      var init, e := Init(rows), Last(rows);
      SelectedIsLabelGroup(init, userId, d);
      LabelInjective(e.createdAt.day, d);
      if ActiveOwned(e, userId) {
        assert ActiveOf(rows, userId) == ActiveOf(init, userId) + [e];
        WithKeySnoc(ActiveOf(init, userId), Label, e, FormatLabel(d));
      } else {
        assert ActiveOf(rows, userId) == ActiveOf(init, userId);
      }
    }
  }

  lemma {:induction false} WithKeyCount(s: seq<Expense>, key: Expense -> string, k: string, e: Expense)
    ensures multiset(WithKey(s, key, k))[e] == if key(e) == k then multiset(s)[e] else 0
  {
    if s != [] {
      WithKeyCount(Init(s), key, k, e);
      assert s == Init(s) + [Last(s)];
    }
  }

  /** Filtering by a key commutes with reordering. */
  lemma WithKeyPermutation(a: seq<Expense>, b: seq<Expense>, key: Expense -> string, k: string)
    requires multiset(a) == multiset(b)
    ensures multiset(WithKey(a, key, k)) == multiset(WithKey(b, key, k))
  {
    forall e ensures multiset(WithKey(a, key, k))[e] == multiset(WithKey(b, key, k))[e] {
      WithKeyCount(a, key, k, e);
      WithKeyCount(b, key, k, e);
    }
  }

  /**
   * The detail of a day reports the same total and the same expenses (up to order) as
   * the listing's group carrying that day's label.
   */
  lemma DetailAgreesWithListing(rows: seq<Expense>, userId: nat, fetched: seq<Expense>,
                                gs: seq<GroupedExpenseResponse>, i: nat, d: CalendarDay)
    requires ActiveFetch(rows, userId, fetched) && IsGrouping(gs, fetched, Label)
    requires i < |gs| && gs[i].date == FormatLabel(d)
    ensures gs[i].total == SumAmounts(Selected(rows, userId, d))
    ensures multiset(gs[i].expenses) == multiset(Projections(Selected(rows, userId, d)))
  {
    var k := FormatLabel(d);
    SelectedIsLabelGroup(rows, userId, d);
    WithKeyPermutation(fetched, ActiveOf(rows, userId), Label, k);
    PermutationKeepsSums(WithKey(fetched, Label, k), WithKey(ActiveOf(rows, userId), Label, k));
  }
}
