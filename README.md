# Expense aggregation of the Xperimall backend, in Dafny

This project models the expense controller of the Xperimall backend
(`XperimallBackend/controllers/expense_controller.go`). It covers four handlers, with the web
framework and the database taken out:

- **CreateExpense** turns a bulk payload of `{tenant, amount}` items into records owned by
  the authenticated user.
- **GetUserExpensesByDate** takes the user's active records, newest first. It groups them in a
  map keyed by the day label `"Monday, 02 January 2006"`, with a running total and a list of
  projected expenses per day. It then copies the map into a slice and sorts the slice newest
  day first. The sort comparator parses each label back into a date.
- **GetUserExpensesByDateDetail** checks a `date` argument in `YYYY-MM-DD` form. It selects
  the user's active records of that calendar day, sums their amounts in a loop and fills the
  response's expense array by index.
- **DeleteExpensesByDate** checks the same argument. It then sets `deleted_at` to the current
  time on every active record of the user on that day.

The grouping is stated for any key function (`Keys`, `WithKey`, `WithoutKey`, `KeyGroup`,
`IsGrouping`); the listing uses it with the key `Label`, the record's creation day formatted
with `"Monday, 02 January 2006"`. Facts that rest on what the label says about the day
(the sort order, one group per day, the detail agreeing with the listing) are stated for
`Label` itself.

Module layout:

- `Digits`: fixed-width decimal text and its value.
- `Calendar`: the proleptic Gregorian calendar, leap years, the weekday and calendar order.
- `Layouts`: Go's `Format`/`Parse` for the two time layouts the controller uses, with the
  round trips the sort relies on.
- `ExpenseModel`: records, their projection, sums, the `WHERE` predicates as filters, and the
  effect of the soft-deleting `UPDATE`.
- `ExpenseController`: the handlers as imperative methods.
  - CreateExpense appends in a loop.
  - The listing builds a `map` in a loop, collects it into a sequence while choosing keys in
    no fixed order, and sorts an `array` in place.
  - The detail sums in a loop and fills an `array` by index.
  - The delete updates an `array` of rows in place.
- `GroupingFacts`, `SoftDeleteFacts`: what the handlers' specifications imply.
- `Scenarios`: concrete scenarios, stated as lemmas and methods that the verifier checks.

Amounts are integers (cents). A timestamp is a calendar day plus a second of the day, so the
SQL `DATE(created_at)` is the day component. The authenticated user, the rows the database
holds or returns, and the current time are parameters. Each failed check becomes an `ApiError`
value.

Where the code and a plain reading of the intended behaviour differ, the model follows the code:

- The listing's query orders by `created_at DESC`. Inside a day group, a later record of the
  day therefore comes first. In the three-record example, the 18:00 "Transport" record precedes
  the 08:00 "Food" record (`Scenarios.ThreeRecordHandler`, on the records Transport, Food and Rent).
- The grouping itself does not drop soft-deleted rows. They are excluded only because the
  query excludes them (`ActiveFetch`; `GroupingFacts.ListedComesFromActive`).
- The affected-row count of the delete is not returned, so the model does not return one.
- A label whose year has more than four digits does not parse back. The comparator then sees
  Go's zero time, so the descending order is strict only for four-digit years
  (`ExpenseModel.FourDigitYears`). `Layouts.LongYearLabelUnreadable` shows the fallback.

## Model

| member | source | states |
|---|---|---|
| ExpenseController.CreateExpense | XperimallBackend/controllers/expense_controller.go:48-56 | one record per payload item, in payload order, with that item's tenant and amount, owned by the caller, not deleted, with id and creation time still at their zero values |
| ExpenseController.GetUserExpensesByDate | XperimallBackend/controllers/expense_controller.go:102-144 | the response is a day grouping of exactly the fetched records; no group's parsed day is earlier than a later group's; strictly newest day first when all years have four digits; no records give no groups |
| ExpenseController.AccumulateByDay | XperimallBackend/controllers/expense_controller.go:102-131 | after the loop the map has one entry per day label that occurs, holding that label's exact total and its records' projections in fetch order |
| ExpenseController.AddToGroup | XperimallBackend/controllers/expense_controller.go:105-130 | one loop pass: the record's amount and projection go into the entry for its label, which is created when the label is new; the map invariant is kept |
| ExpenseModel.AccumulateStep | XperimallBackend/controllers/expense_controller.go:110-130 | both branches of the map update extend the per-key summaries by exactly one record |
| ExpenseModel.KeyGroupSnoc | XperimallBackend/controllers/expense_controller.go:111-118 | appending a record adds its amount to its own key's total and its projection to that key's list, and leaves other keys alone |
| ExpenseController.CollectGroups | XperimallBackend/controllers/expense_controller.go:134-137 | the collected slice holds each map entry exactly once, in any order |
| ExpenseController.SortByKeyDescending | XperimallBackend/controllers/expense_controller.go:140-144 | after the in-place sort the keys do not increase and the slice is a permutation of the input |
| ExpenseController.SortByDateDescending | XperimallBackend/controllers/expense_controller.go:140-144 | the sorted slice is a permutation of the collected groups, and no group's parsed day is earlier than a later group's |
| ExpenseController.TotalOf | XperimallBackend/controllers/expense_controller.go:183-186 | the loop's running total ends as the exact sum of the selected amounts |
| ExpenseController.ProjectAll | XperimallBackend/controllers/expense_controller.go:195-204 | the slice filled by index holds the projection of each selected record at its position |
| ExpenseController.Swap | XperimallBackend/controllers/expense_controller.go:140 | exchanges two slice elements and keeps the multiset |
| GroupingFacts.PermutationKeepsGrouping | XperimallBackend/controllers/expense_controller.go:134-144 | any reordering of a grouping, such as the slice the sort produces, is a grouping of the same records by the same key |
| GroupingFacts.SortedGroupingIsStrict | XperimallBackend/controllers/expense_controller.go:140-144 | with four-digit years, a grouping ordered for the parse-based comparator is strictly descending by calendar day |
| GroupingFacts.EmptyGrouping | XperimallBackend/controllers/expense_controller.go:102-137 | no records give an empty response |
| GroupingFacts.GroupingConserves | XperimallBackend/controllers/expense_controller.go:102-131 | the group totals add up to the sum of the fetched amounts, and the groups' lists together hold each fetched record's projection exactly once |
| GroupingFacts.ListingConserves | XperimallBackend/controllers/expense_controller.go:95-131 | the same conservation measured against the table: the caller's active rows, whatever order the query returns them in |
| GroupingFacts.PermutationKeepsSums | XperimallBackend/controllers/expense_controller.go:95 | reordering records changes neither their sum nor the multiset of their projections |
| GroupingFacts.SplitSumByKey | XperimallBackend/controllers/expense_controller.go:110-122 | one key's records and the rest split the sum |
| GroupingFacts.SplitProjectionsByKey | XperimallBackend/controllers/expense_controller.go:112-128 | one key's records and the rest split the projections |
| GroupingFacts.ListedComesFromActive | XperimallBackend/controllers/expense_controller.go:95-131 | every listed expense is the projection of an active row of the caller, under that row's own day label |
| GroupingFacts.RecordInItsGroup | XperimallBackend/controllers/expense_controller.go:105-120 | a record's projection is in a group exactly when the group carries the record's day label |
| GroupingFacts.RecordHasGroup | XperimallBackend/controllers/expense_controller.go:105-130 | every fetched record appears in the group of its label |
| GroupingFacts.SameDaySameGroup | XperimallBackend/controllers/expense_controller.go:105-120 | records of the same calendar day, at any times, are in the same groups |
| GroupingFacts.DifferentDaysApart | XperimallBackend/controllers/expense_controller.go:105-120 | records of different days never share a group, whatever their years |
| GroupingFacts.GroupsKeepFetchOrder | XperimallBackend/controllers/expense_controller.go:95-118 | when the fetch is newest first, every group lists its expenses newest first |
| GroupingFacts.WithKeyKeepsOrder | XperimallBackend/controllers/expense_controller.go:112 | picking one key's records out of a newest-first list keeps them newest first |
| GroupingFacts.SelectedIsLabelGroup | XperimallBackend/controllers/expense_controller.go:171-175 | the day query selects exactly the caller's active records under that day's label, in the same order |
| GroupingFacts.DetailAgreesWithListing | XperimallBackend/controllers/expense_controller.go:171-205 | the detail of a day reports the same total, and the same expenses up to order, as the listing's group with that day's label |
| GroupingFacts.WithKeyPermutation | XperimallBackend/controllers/expense_controller.go:95 | filtering by a key commutes with reordering the fetched records |
| ExpenseController.ParseDateParam | XperimallBackend/controllers/expense_controller.go:156-167 | an empty argument is DateRequired; an accepted argument is exactly the canonical `YYYY-MM-DD` text of its day; any other argument is InvalidDateFormat and names no day |
| ExpenseController.ParseIsoRejects | XperimallBackend/controllers/expense_controller.go:163-167 | a string the parse refuses is not the canonical text of any day |
| ExpenseController.GetUserExpensesByDateDetail | XperimallBackend/controllers/expense_controller.go:156-205 | a rejected argument gives its error; otherwise the date is the day's label, the total is the sum of the selected records and expense i is the projection of selected record i |
| ExpenseController.SoftDeleteMatching | XperimallBackend/controllers/expense_controller.go:231-233 | the array afterwards is the table after the update: the matching rows get `deleted_at = now` |
| ExpenseController.DeleteExpensesByDate | XperimallBackend/controllers/expense_controller.go:217-233 | a rejected argument gives its error and leaves the table unchanged; otherwise the table becomes the soft-deleted table for that user, day and time |
| SoftDeleteFacts.SoftDeletedAt | XperimallBackend/controllers/expense_controller.go:231-233 | row by row: a matching row gets `deleted_at = now`, every other row is unchanged |
| SoftDeleteFacts.OnlyDeletedAtChanges | XperimallBackend/controllers/expense_controller.go:231-233 | only `deleted_at` changes, it changes on exactly the matching rows, and there it becomes now |
| SoftDeleteFacts.NoMatchNoChange | XperimallBackend/controllers/expense_controller.go:231-242 | with no matching row the update changes nothing; `DeleteExpensesByDate`'s second `ensures` reports success in that case too |
| SoftDeleteFacts.SoftDeleteIdempotent | XperimallBackend/controllers/expense_controller.go:231-233 | repeating the delete for the same user and day, at any later time, changes nothing |
| SoftDeleteFacts.SelectedAfterDelete | XperimallBackend/controllers/expense_controller.go:231-233 | afterwards the day query finds nothing for that user and day, and the same rows as before for any other user or day |
| SoftDeleteFacts.OtherUsersUntouched | XperimallBackend/controllers/expense_controller.go:231-233 | another user's listing is unchanged by the delete |
| SoftDeleteFacts.OwnListingAfterDelete | XperimallBackend/controllers/expense_controller.go:231-233 | the caller's listing afterwards holds exactly their active records of the other days |
| Layouts.FormatLabel | XperimallBackend/controllers/expense_controller.go:105 | the label `Format` writes for a day; `ParseOfFormatLabel` reads it back and `LabelInjective` shows it names the day |
| Layouts.ParseLabel | XperimallBackend/controllers/expense_controller.go:141-142 | `time.Parse` with the label layout; `ParseOfFormatLabel` gives its result on every label `Format` writes |
| Layouts.ParsedDay | XperimallBackend/controllers/expense_controller.go:141-143 | the parsed day with the error dropped, so a failed parse gives the zero day; `ParsedDayOfLabel` and `LongYearLabelUnreadable` give its value on every label |
| Layouts.ParseIso | XperimallBackend/controllers/expense_controller.go:163 | `time.Parse` with `2006-01-02`, also used at :224; `ParseIsoCanonical` states exactly which strings it accepts and what it yields |
| ExpenseModel.Label | XperimallBackend/controllers/expense_controller.go:105 | the record's group key, its creation day formatted; `RecordInItsGroup`, `SameDaySameGroup` and `DifferentDaysApart` state what it separates |
| ExpenseModel.Project | XperimallBackend/controllers/expense_controller.go:112-128 | the `ExpenseResponse` literal of both branches, also built at :199-204; `ProjectionsAt` and `ProjectAll` use it at each index |
| ExpenseModel.Projections | XperimallBackend/controllers/expense_controller.go:198-204 | one projection per record, as many as records; `ProjectionsAt` gives each element |
| ExpenseModel.SumAmounts | XperimallBackend/controllers/expense_controller.go:183-186 | the exact sum of the amounts, also the running total at :111; `TotalOf` and `GroupingConserves` connect it to the loops |
| ExpenseModel.ActiveOf | XperimallBackend/controllers/expense_controller.go:95 | the rows the listing's `WHERE` keeps, never more than the table; `ActiveOfMembers` states membership |
| ExpenseModel.ActiveFetch | XperimallBackend/controllers/expense_controller.go:95 | what the listing query returns: the rows `ActiveOf` keeps, each once, in `created_at DESC` order; `ListingConserves` and `ListedComesFromActive` rest on it |
| ExpenseModel.MatchesDay | XperimallBackend/controllers/expense_controller.go:172 | the day `WHERE` of the detail and of the delete (:232); `SelectedMembers` and `SoftDeletedAt` rest on it |
| ExpenseModel.Selected | XperimallBackend/controllers/expense_controller.go:171-175 | the rows the day query selects, never more than the table; `SelectedMembers` states membership and `SelectedIsLabelGroup` the order |
| ExpenseModel.MarkDeleted | XperimallBackend/controllers/expense_controller.go:231-233 | one row after the `UPDATE`; `SoftDeletedAt` and `OnlyDeletedAtChanges` state its effect |
| ExpenseModel.SoftDeleted | XperimallBackend/controllers/expense_controller.go:231-233 | the table after the `UPDATE`, as many rows as before; `SoftDeletedAt` gives every row and `SoftDeleteIdempotent` repeating it |
| ExpenseModel.ActiveOfMembers | XperimallBackend/controllers/expense_controller.go:95 | the listing's WHERE keeps exactly the caller's rows with no deletion marker |
| ExpenseModel.SelectedMembers | XperimallBackend/controllers/expense_controller.go:172 | the day WHERE keeps exactly the caller's undeleted rows whose creation day is the given day |
| ExpenseModel.WithKeyMembers | XperimallBackend/controllers/expense_controller.go:105-110 | the records filed under a key are exactly the records carrying that key |
| ExpenseModel.KeysMembers | XperimallBackend/controllers/expense_controller.go:105-110 | a key is in the map exactly when some record carries it |
| ExpenseModel.ProjectionsAt | XperimallBackend/controllers/expense_controller.go:198-204 | the i-th projection is the projection of the i-th record |
| Layouts.ParseOfFormatLabel | XperimallBackend/controllers/expense_controller.go:140-143 | parsing a formatted label gives back its day when the year has four digits, and fails otherwise |
| Layouts.ParseFormatLabel | XperimallBackend/controllers/expense_controller.go:141-142 | parse(format(d)) = d for four-digit years |
| Layouts.ParsedDayOfLabel | XperimallBackend/controllers/expense_controller.go:141-143 | the comparator sees the very day a label was formatted from |
| Layouts.LongYearLabelUnreadable | XperimallBackend/controllers/expense_controller.go:141-142 | a label with a five-or-more-digit year fails to parse, and the comparator falls back to the zero day |
| Layouts.WrongWeekdayAccepted | XperimallBackend/controllers/expense_controller.go:141-142 | the parse reads any weekday name and ignores it, so a label with the wrong weekday still yields the day, though only the right weekday gives the text `Format` writes |
| Layouts.LabelInjective | XperimallBackend/controllers/expense_controller.go:105-108 | two days share a label only when they are the same day, for every year, since a longer year is written in full |
| Layouts.LookupFindsName | XperimallBackend/controllers/expense_controller.go:141-142 | the name lookup of the parse finds a weekday or month name when the text starts with it |
| Layouts.YearText | XperimallBackend/controllers/expense_controller.go:105 | the year element is decimal digits worth the year, four of them exactly when the year is below 10000 |
| Layouts.ParseIsoCanonical | XperimallBackend/controllers/expense_controller.go:224 | `YYYY-MM-DD` parsing accepts a string exactly when it is the canonical text of the day it yields |
| Layouts.ParseIsoOnlyCanonical | XperimallBackend/controllers/expense_controller.go:163 | every accepted string is the canonical text of an existing day with a four-digit year |
| Layouts.ParseIsoText | XperimallBackend/controllers/expense_controller.go:224 | the canonical text of every four-digit-year day is accepted and yields that day |
| Layouts.EmptyIsoRejected | XperimallBackend/controllers/expense_controller.go:157-163 | the empty string does not parse, so the separate emptiness check matters only for its message |
| Layouts.WeekdayNamesDistinct | XperimallBackend/controllers/expense_controller.go:141 | no weekday name is a prefix of another one followed by more text |
| Layouts.MonthNamesDistinct | XperimallBackend/controllers/expense_controller.go:141 | no month name is a prefix of another one followed by more text |
| Digits.DecimalRoundTrip | XperimallBackend/controllers/expense_controller.go:163 | the value of a zero-padded decimal field is the number written |
| Digits.DecimalCanonical | XperimallBackend/controllers/expense_controller.go:163 | a digit field is the zero-padded decimal text of its value |
| Digits.Decimal | XperimallBackend/controllers/expense_controller.go:193 | the zero-padded field has the requested width and only digits |
| Digits.DigitsValue | XperimallBackend/controllers/expense_controller.go:163 | a digit string's value is below 10 to the power of its length |
| Calendar.DaysIn | XperimallBackend/controllers/expense_controller.go:163 | a month has 28 to 31 days, and 29 exactly for February of a leap year |
| Calendar.RankOrdersDays | XperimallBackend/controllers/expense_controller.go:143 | comparing days by rank is calendar order, and equal ranks are equal days |
| Calendar.Weekday | XperimallBackend/controllers/expense_controller.go:105 | the weekday index is below seven; `WeekdayNext`, `WeekdayAnchors` and `WeekdayFromZeroDay` tie it to the calendar |
| Calendar.NextDay | XperimallBackend/controllers/expense_controller.go:105 | the next calendar day is later than the day it follows, with no day in between |
| Calendar.WeekdayNext | XperimallBackend/controllers/expense_controller.go:105 | the weekday of the next day is one more, Saturday wrapping to Sunday |
| Calendar.WeekdayAnchors | XperimallBackend/controllers/expense_controller.go:105 | Go's zero day, 1 January of year 1, and its reference date, 2 January 2006, are Mondays |
| Calendar.WeekdayAfter | XperimallBackend/controllers/expense_controller.go:105 | n days later the weekday has advanced by n, modulo seven |
| Calendar.WeekdayFromZeroDay | XperimallBackend/controllers/expense_controller.go:105 | the day n days after Go's zero day falls on weekday (1 + n) mod 7, as Go counts from that Monday |
| Scenarios.ThreeRecordGroups | XperimallBackend/controllers/expense_controller.go:105-130 | two records of one key followed by one of another give exactly those two keys, with totals 1st+2nd and 3rd and the projections in fetch order |
| Scenarios.ThreeRecordListing | XperimallBackend/controllers/expense_controller.go:95-144 | two records of 5 March 2024 and one of 1 March 2024 give exactly two groups, "Tuesday, 05 March 2024" first, with its records in fetch order, then "Friday, 01 March 2024" |
| Scenarios.ThreeRecordHandler | XperimallBackend/controllers/expense_controller.go:102-144 | the listing handler on Transport (18:00), Food (08:00) and Rent returns the totals 1550 and 50000 under those labels |
| Scenarios.MidnightDetail | XperimallBackend/controllers/expense_controller.go:163-175 | "2024-03-05" selects the 23:59 record of that day, not the 00:01 record of the next day, and not another user's record |
| Scenarios.MidnightHandler | XperimallBackend/controllers/expense_controller.go:156-205 | the detail handler on that table returns one expense, total 2000, labelled "Tuesday, 05 March 2024" |
| Scenarios.NoThirtiethOfFebruary | XperimallBackend/controllers/expense_controller.go:163-167 | "2024-02-30" is refused as InvalidDateFormat although 2024 is a leap year |
| Scenarios.RejectedDates | XperimallBackend/controllers/expense_controller.go:156-167 | an empty date gives DateRequired and an impossible date gives InvalidDateFormat |
| Scenarios.LabelOfMarch5 | XperimallBackend/controllers/expense_controller.go:105 | 5 March 2024 is formatted "Tuesday, 05 March 2024" |

## Left out

- HTTP handling is left out. This covers `c.Get("user_id")`, the missing-user 401 answers,
  `ShouldBindJSON` and its validation of the payload, `c.Query`, and the JSON answers and
  status codes. The user and the payload are parameters, and only the two date errors are
  modelled.
- Database calls are left out: `Create`, `Where`, `Find`, `Order`, `Update`, and their error
  answers. The listing takes the fetched rows as a parameter, and `ActiveFetch` states what the
  query returns, including its order. The detail takes the table and selects with `Selected`. Its
  query has no ORDER BY, so the database's order is unspecified. The model fixes that order to
  table order, and the `ensures` of `GetUserExpensesByDateDetail` that expense i is the
  projection of `Selected(rows, ...)[i]` depends on that choice. The delete runs over an array of rows.
  `XperimallBackend/database/database.go` is not part of this model.
- XperimallBackend/models is not part of this model. The record's fields follow their uses in
  the controller.
- Amounts are `float64` in the source and integers here. Float addition is not associative,
  so exact conservation holds only for exact amounts.
- CreateExpense: the id and creation time the database assigns on insert are not modelled.
  The records keep Go's zero values.
- `time.Now()` is a parameter. Time zones and the connection's `loc=Local` are not modelled:
  a timestamp already carries its calendar day.
- `sort.Slice` is modelled as an insertion sort with the same comparator. Its own algorithm and
  its instability are not modelled.
- Go's `time.Parse` matches weekday and month names without regard to case and accepts runs of
  spaces. The model's label parser accepts only the exact case and the single spaces that
  `Format` writes. Like Go, it reads any weekday name and ignores it, so it also accepts labels
  whose weekday is wrong for the day (`Layouts.WrongWeekdayAccepted`). Years before 0000 are
  not modelled.
- GetUserExpenses (expense_controller.go:70-85) is not part of this model.
- ExpenseController.GetUserExpensesByDate: strict descending day order is proved only when
  every year has four digits. Longer years fall back to the zero day in the comparator.
- ExpenseController.CollectGroups: Go's randomised map iteration order is modelled as an
  arbitrary choice. When every year has four digits, nothing depends on it after the sort.
  Labels with longer years all sort as the zero day (see the `GetUserExpensesByDate` line
  above), so their final order, and that of a 1 January 0001 label, comes from the map order.
- ExpenseController.GetUserExpensesByDate: with no records Go's `var response` slice stays nil,
  and `c.JSON` writes `null`, not `[]`. The model returns the empty sequence and does not tell
  the two apart.
