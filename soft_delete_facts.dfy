/**
 * What the day delete does to the table: it marks exactly the caller's active records of
 * that day, changes nothing else about them or any other row, and a repeat is harmless.
 */
module SoftDeleteFacts {
  import opened Wrappers
  import opened Calendar
  import opened ExpenseModel

  lemma SoftDeletedSplit(rows: seq<Expense>, userId: nat, day: CalendarDay, now: Timestamp)
    requires rows != []
    ensures Init(SoftDeleted(rows, userId, day, now)) == SoftDeleted(Init(rows), userId, day, now)
    ensures Last(SoftDeleted(rows, userId, day, now)) == MarkDeleted(Last(rows), userId, day, now)
  {
  }

  /** Row by row: a matching row gets deleted_at = now, every other row is left as it was. */
  lemma {:induction false} SoftDeletedAt(rows: seq<Expense>, userId: nat, day: CalendarDay, now: Timestamp, i: nat)
    requires i < |rows|
    ensures SoftDeleted(rows, userId, day, now)[i] ==
      if MatchesDay(rows[i], userId, day) then rows[i].(deletedAt := Some(now)) else rows[i]
  {
    if i < |rows| - 1 {
      SoftDeletedAt(Init(rows), userId, day, now, i);
    }
  }

  /** Only deleted_at ever changes, and it changes exactly on the matching rows. */
  lemma OnlyDeletedAtChanges(rows: seq<Expense>, userId: nat, day: CalendarDay, now: Timestamp)
    ensures var after := SoftDeleted(rows, userId, day, now);
      forall i :: 0 <= i < |rows| ==>
        && after[i].(deletedAt := rows[i].deletedAt) == rows[i]
        && (after[i] != rows[i] <==> MatchesDay(rows[i], userId, day))
        && (MatchesDay(rows[i], userId, day) ==> after[i].deletedAt == Some(now))
  {
    forall i | 0 <= i < |rows| {
      SoftDeletedAt(rows, userId, day, now, i);
    }
  }

  /** With no matching row the update is a no-op. */
  lemma NoMatchNoChange(rows: seq<Expense>, userId: nat, day: CalendarDay, now: Timestamp)
    requires Selected(rows, userId, day) == []
    ensures SoftDeleted(rows, userId, day, now) == rows
  {
    forall i | 0 <= i < |rows| ensures SoftDeleted(rows, userId, day, now)[i] == rows[i] {
      SoftDeletedAt(rows, userId, day, now, i);
      SelectedMembers(rows, userId, day, rows[i]);
    }
  }

  /** Deleting the same day again, at any later time, changes nothing: marked rows are no longer active. */
  lemma SoftDeleteIdempotent(rows: seq<Expense>, userId: nat, day: CalendarDay, now: Timestamp, later: Timestamp)
    ensures SoftDeleted(SoftDeleted(rows, userId, day, now), userId, day, later) == SoftDeleted(rows, userId, day, now)
  {
    var once := SoftDeleted(rows, userId, day, now);
    forall i | 0 <= i < |rows| ensures SoftDeleted(once, userId, day, later)[i] == once[i] {
      SoftDeletedAt(rows, userId, day, now, i);
      SoftDeletedAt(once, userId, day, later, i);
    }
  }

  /**
   * After the delete, the day query finds nothing for that user and day, and finds the
   * same rows as before for any other user or day.
   */
  lemma {:induction false} SelectedAfterDelete(rows: seq<Expense>, userId: nat, day: CalendarDay, now: Timestamp,
                                               otherUser: nat, otherDay: CalendarDay)
    ensures Selected(SoftDeleted(rows, userId, day, now), otherUser, otherDay) ==
      if otherUser == userId && otherDay == day then [] else Selected(rows, otherUser, otherDay)
  {
    if rows != [] {
      SelectedAfterDelete(Init(rows), userId, day, now, otherUser, otherDay);
      SoftDeletedSplit(rows, userId, day, now);
    }
  }

  /** The listing of any other user is unchanged. */
  lemma {:induction false} OtherUsersUntouched(rows: seq<Expense>, userId: nat, day: CalendarDay, now: Timestamp,
                                               otherUser: nat)
    requires otherUser != userId
    ensures ActiveOf(SoftDeleted(rows, userId, day, now), otherUser) == ActiveOf(rows, otherUser)
  {
    if rows != [] {
      OtherUsersUntouched(Init(rows), userId, day, now, otherUser);
      SoftDeletedSplit(rows, userId, day, now);
    }
  }

  /** The caller's listing afterwards holds exactly their active records of the other days. */
  lemma {:induction false} OwnListingAfterDelete(rows: seq<Expense>, userId: nat, day: CalendarDay, now: Timestamp,
                                                 e: Expense)
    ensures e in ActiveOf(SoftDeleted(rows, userId, day, now), userId) <==>
      e in ActiveOf(rows, userId) && e.createdAt.day != day
  {
    var after := SoftDeleted(rows, userId, day, now);
    ActiveOfMembers(after, userId, e);
    ActiveOfMembers(rows, userId, e);
    if e in after && ActiveOwned(e, userId) {
      var i :| 0 <= i < |after| && after[i] == e;
      SoftDeletedAt(rows, userId, day, now, i);
    }
    if e in rows && ActiveOwned(e, userId) && e.createdAt.day != day {
      var i :| 0 <= i < |rows| && rows[i] == e;
      SoftDeletedAt(rows, userId, day, now, i);
      assert after[i] == e;
    }
  }
}
