# Food pyramid tracker — a verified model of its core

The tracker lets a user drag foods into the five meal slots of a day. Each
drop asks for a portion: teaspoon, spoon, cup, bowl or plate. The day logs
are kept in browser storage as an object that maps a date to its meals and
each meal to a list of items. Early versions stored a bare food id; later
ones store `{ id, portion }`. The weekly statistics page picks an ISO week
(`YYYY-Www`) and computes that week's date range. It then tallies every item
logged on a date in the range into one bucket per food. Each bucket holds a
count and a portion-weighted score. The buckets are sorted into a ranking,
which is drawn as a pyramid from the reversed ranking: the first tier
emitted shows the last rank, and the last, widest tier shows rank 1. The
older, server-backed
revision has its own statistics page. It counts the fetched logs per food
type and lists them in reverse.

The model has these modules:

- `Civil`: day numbers, with day 0 = 1970-01-01 in the proleptic Gregorian
  calendar. It converts them to and from civil dates and gives the UTC
  weekday.
- `Text`: code-point string order and zero-padded decimal digits.
- `Week`: the statistics page's date helpers. `Date` objects become the
  `UtcDate` class, which holds a day number and changes it through
  `SetUTCDate`.
- `IsoWeek`: what the week value helper computes compared with the ISO week
  (see Findings).
- `Logs`: the item forms and their normalisation.
- `Ranking`: the bucket record, the sort comparator, the in-place sort and
  the pyramid ranks.
- `Aggregate`: `aggregateWeek`, which is the portion scores, the food
  metadata, the nested tallying loops, and the lemmas about what the ranking
  contains.
- `Tracker`: the tracker page as a class with the page's state, its handlers
  and the storage migration loop.
- `ClientStats`: the server-backed statistics page, with its count per food
  type and its in-place reversal.
- `Seqs` and `Wrappers`: sequence reversal, `Option`, and lookup in a
  constant table.

The page's data is modelled like this:

- The statistics page iterates over the parsed storage object with
  `Object.entries` and `Object.values`. These are modelled as sequences in
  iteration order, and a missing value is `None`.
- The tracker page only reads and replaces keys, so its day logs are a
  `map`. An object spread followed by a key assignment is a map update.

## Model

| member | source | states |
|---|---|---|
| Logs.Normalize | src/pages/Tracker.jsx:165-170 | a bare id becomes an entry with that id and the plate portion; an object item is returned unchanged |
| Tracker.MigrateLogs | src/pages/Tracker.jsx:163-172 | the nested migration loop leaves exactly the day logs `MigrateStore` describes: every meal list of every date normalized |
| Tracker.MigrateMeals | src/pages/Tracker.jsx:164-171 | the inner loop over one date's meals replaces every meal list by its normalized copy and keeps the meal names |
| Tracker.MigrateShape | src/pages/Tracker.jsx:163-172 | migration keeps every date, every meal and every list length; a bare id becomes a plate entry and an object item is kept |
| Tracker.MigrateIdempotent | src/pages/Tracker.jsx:163-172 | migrating already migrated day logs changes nothing |
| Tracker.Tracker.constructor | src/pages/Tracker.jsx:147-155 | initial state: the given date, empty logs, no drag, no pending drop, the foods view, no touch |
| Tracker.Tracker.Load | src/pages/Tracker.jsx:158-175 | stored logs, when present, are migrated and become the day logs; otherwise the state is unchanged |
| Tracker.Tracker.SetDate | src/pages/Tracker.jsx:287-292 | the date input changes only the selected date |
| Tracker.Tracker.HandleDragStart | src/pages/Tracker.jsx:183-189 | the dragged id is remembered; a window narrower than 768 switches to the meals view, a wider one keeps the view |
| Tracker.Tracker.HandleDragEnd | src/pages/Tracker.jsx:191-205 | the drag id is always cleared; a pending drop of the dragged food is set exactly when the target is one of the five meal slots, otherwise it is left as it was |
| Tracker.Tracker.ConfirmDrop | src/pages/Tracker.jsx:207-230 | with no pending drop nothing changes; otherwise the day logs become `AppendItem` of `{ id: categoryId, portion }` to the pending meal of the selected date, and the pending drop is cleared |
| Tracker.Tracker.CancelDrop | src/pages/Tracker.jsx:347-350 | closing the portion dialog discards the pending drop and leaves the logs alone |
| Tracker.AppendItemEffect | src/pages/Tracker.jsx:212-226 | the new item is last in its meal after the old items; the day and meal are created when absent; every other meal and date keeps its items |
| Tracker.Tracker.RemoveItem | src/pages/Tracker.jsx:232-247 | the day logs become `RemoveItemFrom` of the selected date, meal and index; nothing else in the state changes |
| Tracker.RemoveAtEffect | src/pages/Tracker.jsx:236-237 | `splice(index, 1)` on the copy: an index in range removes exactly that element and keeps the order; an index at or past the end changes nothing; a negative index counts back from the end, and one before the start removes the first element |
| Tracker.RemoveItemEffect | src/pages/Tracker.jsx:232-247 | only the chosen meal of the selected date changes; every other meal and date keeps its items; an absent date gains only `{ [mealId]: [] }` |
| Tracker.Tracker.OnTouchStart | src/pages/Tracker.jsx:252-255 | a touch records its start and clears the end |
| Tracker.Tracker.OnTouchMove | src/pages/Tracker.jsx:257-259 | a move records the end |
| Tracker.SwipeView | src/pages/Tracker.jsx:250-275 | with both coordinates truthy, the meals view is chosen exactly when start minus end exceeds 50 and the foods view exactly when it is below -50; a null or zero coordinate chooses nothing |
| Tracker.Tracker.OnTouchEnd | src/pages/Tracker.jsx:261-275 | the view becomes the one the swipe chooses and is otherwise unchanged; nothing else changes |
| Tracker.ChipOf | src/pages/Tracker.jsx:86-102 | a chip's label is the category's label from the list, or the raw id when the list has no such category; its portion title is the label of the portion shown (plate for a bare id), or empty |
| Tracker.ChipNormalization | src/pages/Tracker.jsx:86-102 | a meal slot shows a bare id exactly as the plate entry the migration makes of it, with the plate's title; a food missing from the category list is labelled by its raw id |
| Aggregate.PortionScore | src/pages/Stats.jsx:21-27 | every portion scores between 1 and 5 |
| Aggregate.ScoringRules | src/pages/Stats.jsx:83-86 | a bare id scores like a plate (5); a missing or empty portion scores 5; teaspoon 1, spoon 2, cup 3, bowl 4; any other portion 1 |
| Aggregate.InRangeDays | src/pages/Stats.jsx:79 | for four-digit years, the string test `startDate <= date <= endDate` on formatted dates holds exactly when the day lies between the two days, both ends included |
| Aggregate.NoDateInRange | src/pages/Stats.jsx:78-79 | when no date is in range, no item contributes |
| Aggregate.AggregateWeek | src/pages/Stats.jsx:74-113 | `totalItems` is the number of items in meals of in-range dates; the ranking is in comparator order and is a permutation of the buckets of those items |
| Aggregate.TallyDay | src/pages/Stats.jsx:81-103 | tallying one date's meal lists extends the bucket, the key order and the counter by exactly that date's items |
| Aggregate.TallyMeal | src/pages/Stats.jsx:82-102 | tallying one meal list creates a missing bucket with the food's metadata and zero counts, then adds one and the item's score; the counter grows by the list length |
| Aggregate.TallySnoc | src/pages/Stats.jsx:89-101 | one more item updates only its own food's bucket and appends the food to the key order when it is new |
| Aggregate.TallyMeaning | src/pages/Stats.jsx:89-100 | a food has a bucket exactly when one of its items was tallied; its bucket counts its items and sums their scores, with its metadata |
| Aggregate.OrderMatchesKeys | src/pages/Stats.jsx:89-106 | the bucket's key order lists each tallied food once, in order of first appearance |
| Aggregate.BucketBounds | src/pages/Stats.jsx:94-100 | every bucket has `1 <= timesEaten <= weightedScore <= 5 * timesEaten` |
| Aggregate.BucketMeta | src/pages/Stats.jsx:87-93 | a bucket's label and colour are the food's metadata entry when there is one, and otherwise the raw id and `#64748b` |
| Aggregate.TallyTotal | src/pages/Stats.jsx:99-106 | the `timesEaten` of the buckets add up to the number of items |
| Aggregate.SumTimesPermutation | src/pages/Stats.jsx:106-110 | reordering entries keeps the sum of their counts |
| Aggregate.RankingEntries | src/pages/Stats.jsx:89-110 | every ranking entry is the bucket of its food: the count and score sum of that food's items |
| Aggregate.RankingFoods | src/pages/Stats.jsx:89-110 | a food appears in the ranking exactly when it has an item in range |
| Aggregate.RankingDistinct | src/pages/Stats.jsx:89-110 | no food appears twice in the ranking |
| Aggregate.RankingTotal | src/pages/Stats.jsx:99-110 | the ranking's counts add up to `totalItems`, and the ranking is empty exactly when no item is in range |
| Aggregate.MigrationInvariant | src/pages/Stats.jsx:83 | the statistics tally a bare id exactly as the entry the tracker's migration makes of it |
| Ranking.Before | src/pages/Stats.jsx:106-110 | an entry belongs before another exactly when the comparator as written (the first nonzero of score difference, count difference and label comparison) is negative |
| Ranking.BeforeTrichotomy | src/pages/Stats.jsx:106-110 | of two entries, one belongs first or the comparator ties them |
| Ranking.BeforeTransitive | src/pages/Stats.jsx:106-110 | the comparator's order is transitive |
| Ranking.BeforeAsymmetric | src/pages/Stats.jsx:106-110 | two entries never both belong before each other |
| Ranking.SortRanking | src/pages/Stats.jsx:106-110 | the in-place sort leaves the array in comparator order and a permutation of its old contents |
| Ranking.SinkLast | src/pages/Stats.jsx:106-110 | one insertion step extends the sorted prefix by one, keeps the contents and leaves the rest of the array alone |
| Ranking.PyramidRankPosition | src/pages/Stats.jsx:164-168 | the rank `ranking.length - index` printed on a tier of the reversed list lies between 1 and the ranking length, is that entry's 1-based position in the ranking, and differs from every other tier's rank |
| Ranking.PyramidBase | src/pages/Stats.jsx:164-168 | the last, widest tier emitted shows rank 1: the first ranking entry, which no entry belongs before |
| Week.FormatDateISO | src/pages/Stats.jsx:29 | the text is ten characters: four, two and two digits joined by `-`, which read back as the year, month and day of the day number |
| Week.FormatDateISOOrder | src/pages/Stats.jsx:79 | for four-digit years, formatted dates compare as strings exactly as their days compare |
| Week.UtcDate.constructor | src/pages/Stats.jsx:32 | a date object holds the given day |
| Week.UtcDate.SetUTCDate | src/pages/Stats.jsx:53-59 | setting the day of the month moves the date by the difference, overflowing into other months and years |
| Week.GetISOWeekStart | src/pages/Stats.jsx:31-36 | the result is the Monday on or before the date, with Sunday counted as day 7 |
| Week.MondayOnOrBefore | src/pages/Stats.jsx:33-34 | the result is a Monday, at most six days before the day |
| Week.GetISOWeekValue | src/pages/Stats.jsx:38-43 | the result is the Monday's year and `ceil(dayOfYear / 7)` written as `YYYY-Www` |
| Week.CalendarWeekOf | src/pages/Stats.jsx:40-41 | the week number is between 1 and 53 and is the ceiling of the Monday's 1-based day of the year divided by 7 |
| Week.MondayYear | src/pages/Stats.jsx:40-42 | the year written is the Monday's calendar year, and the week is computed from that year's 1 January |
| Week.GetWeekRange | src/pages/Stats.jsx:45-62 | start is week `w`'s Monday counted from week 1's Monday, end is six days later, both formatted as `YYYY-MM-DD` |
| Week.WeekDates | src/pages/Stats.jsx:55-59 | the start and end objects hold week `w`'s Monday and the Sunday after it |
| Week.Week1MondayDate | src/pages/Stats.jsx:50-53 | week 1's Monday is the Monday on or before 4 January |
| Week.Week1MondayFacts | src/pages/Stats.jsx:50-53 | week 1's Monday is a Monday between 29 December and 4 January |
| Week.WeeksAdjoin | src/pages/Stats.jsx:55-59 | every week runs Monday to Sunday, and week `w + 1` starts the day after week `w` ends |
| Week.YearWeeks | src/pages/Stats.jsx:50-56 | a year has 52 or 53 weeks, and the week after its last is week 1 of the next year |
| Week.WeekValueRoundTrip | src/pages/Stats.jsx:42-48 | reading back a written week value gives the year and week that were written |
| Week.ParseWeekValueInverse | src/pages/Stats.jsx:42-48 | writing out a well-formed week value that was read gives the same text |
| Week.Week2024W01 | src/pages/Stats.jsx:45-62 | `2024-W01` runs from 2024-01-01 to 2024-01-07 |
| Week.Week2023W52 | src/pages/Stats.jsx:45-62 | `2023-W52` ends on 2023-12-31, the day before `2024-W01` starts |
| Civil.CivilRoundTrip | src/pages/Stats.jsx:40 | a valid civil date converts to a day number and back unchanged |
| Civil.DaysOrder | src/pages/Stats.jsx:79 | day numbers order exactly as dates do, and distinct dates have distinct day numbers |
| Text.PadOrder | src/pages/Stats.jsx:42 | zero-padded numbers of one width compare as strings exactly as the numbers compare |
| Text.PadValue | src/pages/Stats.jsx:42 | a padded number reads back as that number |
| IsoWeek.CalendarWeekRange | src/pages/Stats.jsx:38-62 | for a year that starts on a Tuesday, Wednesday or Thursday, the written week's range starts the week before the date's own Monday |
| IsoWeek.CalendarWeekCounterexample | src/pages/Stats.jsx:38-62 | Monday 2025-06-02 gives `2025-W22`, and that week's range ends before 2025-06-02 |
| IsoWeek.IsoWeekRoundTrip | src/pages/Stats.jsx:45-62 | the corrected week of a day is a week of its year whose range contains the day |
| IsoWeek.IsoWeekUnique | src/pages/Stats.jsx:45-62 | a week whose range contains the day is the corrected week of that day, and no other |
| IsoWeek.GetIsoWeekValueCorrected | src/pages/Stats.jsx:38-43 | the corrected helper writes a well-formed week value whose range contains the date |
| ClientStats.CountByFoodType | client/src/pages/Stats.jsx:27-45 | each food type that occurs maps to its number of logs and no other type has a key; keys are listed once each; the counts add up to the number of logs; no logs give no keys |
| ClientStats.ReverseLogs | client/src/pages/Stats.jsx:16-17 | the in-place reversal leaves the array reversed |
| ClientStats.ReversalKeepsCounts | client/src/pages/Stats.jsx:17-30 | reversing the logs does not change any food type's count |
| ClientStats.NewestFirst | client/src/pages/Stats.jsx:16-17 | after the reversal, the log the server appended last comes first, followed by the earlier logs reversed |
| Seqs.ReversedIndex | src/pages/Stats.jsx:164-166 | element `i` of a reversed list is element `length - 1 - i` of the list |
| Seqs.ReversedMultiset | client/src/pages/Stats.jsx:17 | reversal keeps every element with its multiplicity |
| Wrappers.LookupMissing | src/pages/Stats.jsx:86-87 | a key has no table entry exactly when no entry has that key |

## Left out

- Rendering, React hooks and effects, the drag-and-drop library wiring and
  the icons. The handlers are modelled as methods on the page state.
- Reading and writing browser storage and `JSON.parse` failures.
  `Tracker.Tracker.Load` receives the parsed logs, or `None` when storage
  held nothing. `saveLogs` is the assignment to `dayLogs`, and the write to
  storage is not modelled.
- The `fetch` calls, HTTP, the Express server and routing. The server's
  append of each new log is taken as given in `ClientStats.NewestFirst`.
- Ranking.Before: `localeCompare` is replaced by code-point order, so label
  ties are broken by a fixed total order and not by locale rules.
- Ranking.SortRanking: the relative order of entries the comparator ties
  (equal score, count and label) is not stated.
- Aggregate.AggregateWeek: `Object.values(bucket)` is modelled in insertion
  order. JavaScript lists integer-like keys first, so a numeric food id
  would change the order before sorting, though not the sorted result.
- Prototype keys such as `__proto__` used as food ids are not modelled, and
  neither are non-array meal values, which make the source throw. Meal
  lists are typed sequences, and only a missing meal map or list is
  modelled, as `None`.
- Aggregate.ScoringRules: a portion named like an inherited object member
  (`constructor`, `toString`, `valueOf`, `__proto__`) finds that member in
  `PORTION_SCORE`, and the score sum then turns into string concatenation.
  The model scores such a portion 1, like any other unknown portion.
- ClientStats.CountByFoodType: a food type named like an inherited object
  member breaks `acc[foodType] || 0` the same way; the model counts it like
  any other type. Its `keys` are in first-met order, while `Object.entries`
  lists integer-like keys first, in numeric order.
- The pyramid bar widths and `maxScore` are not modelled. They are
  floating-point presentation math.
- JavaScript `Date` detail is not modelled:
  - millisecond timestamps;
  - the local-time date of `new Date()`, which is taken as a civil date;
  - `Date.UTC` mapping years 0-99 to 1900-1999.
  Dates are day numbers, and formatting requires four-digit years, so that
  comparing date strings is chronological.
- Week.GetWeekRange: a malformed week value, which gives `NaN` and a
  `RangeError` in the source, is excluded by the precondition
  `WellFormedWeekValue`.
- Tracker.Tracker.RemoveItem: the `splice` on the copied array is modelled
  as the value `RemoveAt` of the list, not as an in-place array update.
- Tracker.MigrateLogs: the source overwrites each `parsed[d][m]` in place,
  in the object `JSON.parse` has just built. The model builds new maps
  instead. The result is the same, because a freshly parsed object shares
  no inner objects.
- The view tabs' `setViewMode` calls are not modelled. They are plain
  assignments.
- The tracker's date default, today's date from the clock, is a parameter
  of the constructor.

## Findings

| source | as written | input that shows it | evidently intended | confidence | as-written member | corrected member |
|---|---|---|---|---|---|---|
| src/pages/Stats.jsx:38-43 | the week number is `ceil(dayOfYear / 7)` of the week's Monday in its calendar year | 2025-06-02 (a Monday): written as `2025-W22`, whose range by `getWeekRange` is 2025-05-26..2025-06-01 and does not contain the date | the ISO week, numbered from the Monday of the week holding 4 January, so the selected week's range contains the date | not executed | IsoWeek.CalendarWeekRange, IsoWeek.CalendarWeekCounterexample | IsoWeek.IsoWeekRoundTrip, IsoWeek.IsoWeekUnique, IsoWeek.GetIsoWeekValueCorrected |
