# Team progress dashboard: the computing core

A Dafny model of the computing core of a small team dashboard. A fixed
roster of research analysts logs work activities. The core has five
activity categories: roadshows, calls, reports, high-frequency services
and internal services. Three views turn that data into figures.

- **Personal progress** (`personal.dfy`). Each analyst has three
  completion rates: roadshows, calls and reports, each current/target.
  Progress is the rounded percentage of their mean. The view also shows
  the roster's lowest progress, the rounded team average, and a warning
  flag on every analyst whose progress equals that lowest value.
- **Weekly comparison** (`weekly.dfy`, `calendar.dfy`, `types.dfy`).
  - `getWeekRange` maps a reference date to its Monday 00:00 to
    Saturday 23:59:59.999 window. From a Sunday it maps back to the week
    that just ended.
  - `processRecords` tallies the records inside a window: team totals
    per category, plus a per-member table whose keys are created lazily,
    in first-seen order.
  - The view runs both for this week and for the week before. It then
    shows the five team totals side by side and one card per member
    present this week.
  - The cards follow `Object.keys` of the member table (`keys.dfy`).
    Keys that are array indices, such as "9" or "10", come first, in
    ascending numeric order. The other keys follow in the order they
    were created.
- **Rankings** (`rankings.dfy`, `numerals.dfy`).
  - Four analysts carry an editable percentile, read with
    `parseInt(text) || 0`.
  - Thirteen groups carry an editable rank and share. Our group is the
    first entry and starts at rank 6.
  - The leaderboard is a stable sort of a copy of the groups by rank,
    cut to the first five.

JavaScript semantics are written out:

- `getDay`, `getDate`, `setDate` and `setHours` are the members of the
  `Calendar.Date` class. Days count from 1970-01-01, and `getDate` uses
  the proleptic Gregorian calendar.
- Rates are exact fractions.
- `Math.round` rounds halves up.
- `Math.min()` of nothing (+Infinity) and the average of an empty roster
  (NaN) are both `None`.
- `Object.keys` of a plain object follows OrdinaryOwnPropertyKeys
  (ECMA-262, section 10.1.11.1). `Keys.ObjectKeys` states that order.
- `Array.prototype.sort` is stable (ECMA-262, section 23.1.3.30). The
  model sorts an array in place by adjacent swaps, and `Rankings.RankOrder`
  is the stable-insertion specification the sort is proved against.

Four behaviours of the code are easy to get wrong, so they are stated
here:

- A rate is current/target and is not capped at 1. A target of 0 gives
  rate 0.
- Progress averages three categories: roadshows, calls and reports.
- The warning flags whoever has the lowest progress, whatever that value
  is. There is no threshold.
- Nothing compares progress with the time elapsed in a period.

## Model

| member | source | states |
|---|---|---|
| Types.Counts.Inc | views/WeeklyView.tsx:47-55 | incrementing one category's counter raises that category by exactly one and leaves the other four unchanged |
| Calendar.Weekday | views/WeeklyView.tsx:17 | `getDay` is always 0..6 |
| Calendar.DayOfMonth | views/WeeklyView.tsx:18 | `getDate` is a day of the month, 1..31 |
| Calendar.MondayOf | views/WeeklyView.tsx:17-19 | the day `getWeekRange` moves to is a Monday, and the reference day is among the seven days starting there |
| Calendar.MondayOfIsMonday | views/WeeklyView.tsx:17-19 | the `diffToMon` day is a Monday; the day five later is a Saturday; the reference day is among the seven days from that Monday, and among the first six exactly when it is not a Sunday (a Sunday is the seventh) |
| Calendar.MondayOfUnique | views/WeeklyView.tsx:17-19 | the Monday reached is the only Monday among the reference day and the six days before it |
| Calendar.MondayOfWeekBefore | views/WeeklyView.tsx:70-72 | moving the reference date back 7 days moves its Monday back exactly 7 days |
| Calendar.Feb15Of2026 | views/WeeklyView.tsx:17-19 | 2026-02-15 is a Sunday with `getDate` 15, and its week starts on Monday 2026-02-09 |
| Calendar.Date.FromInstant | views/WeeklyView.tsx:19 | `new Date(t)` holds the time value `t`, with the time of day in 0..86399999 |
| Calendar.Date.Copy | views/WeeklyView.tsx:22 | `new Date(monday)` has the same day and time of day |
| Calendar.Date.GetDay | views/WeeklyView.tsx:17 | `getDay` is always 0..6 |
| Calendar.Date.GetDate | views/WeeklyView.tsx:18 | `getDate` is always 1..31 |
| Calendar.Date.SetDate | views/WeeklyView.tsx:19 | `setDate(k)` moves to day k counted from the first of the current month, keeps the time of day, and returns the new time value |
| Calendar.Date.SetHours | views/WeeklyView.tsx:20 | `setHours(h, m, s, ms)` keeps the day and sets the time of day to exactly that hour, minute, second and millisecond |
| Weekly.GetWeekRange | views/WeeklyView.tsx:11-27 | returns fresh dates, Monday 00:00:00.000 and Saturday 23:59:59.999 of the reference day's week; the argument itself is moved to that Monday with its time of day kept |
| Weekly.WeekWindow | views/WeeklyView.tsx:11-27 | the window starts at midnight of a Monday at most six days before the reference day, and ends one millisecond before the Sunday after its Saturday |
| Weekly.NoonOfDay | views/WeeklyView.tsx:42-43 | the instant a record is compared at lies on the record's own day, exactly twelve hours after midnight |
| Weekly.InWeekWindow | views/WeeklyView.tsx:42-45 | a record, compared at noon of its day, is inside a week window exactly when its day lies from the Monday to the Saturday, both included |
| Weekly.ReferenceDayInOwnWindow | views/WeeklyView.tsx:11-27 | a reference day lies in its own window if and only if it is not a Sunday |
| Weekly.NoSundayInWindow | views/WeeklyView.tsx:11-27 | no record dated on a Sunday is inside any week window |
| Weekly.LastWeekWindow | views/WeeklyView.tsx:68-72 | last week's window is this week's shifted back exactly 7 days, and the two never hold the same record |
| Weekly.SaturdayInSundayOut | views/WeeklyView.tsx:11-27 | a record on the window's Saturday is counted this week; one on the following Sunday is in neither this week's nor last week's window |
| Weekly.MembersInSnoc | views/WeeklyView.tsx:51-53 | appending a record adds its member to the member set exactly when the record is inside the window |
| Weekly.CountsSnoc | views/WeeklyView.tsx:45-55 | appending a record changes the team count and the member count of its own category by one when it is inside the window, and nothing else; it appends its member to the first-seen order only when that member is new |
| Weekly.FirstSeenListsMembers | views/WeeklyView.tsx:51-53 | the member key order lists every member with a record inside the window, each exactly once, and no one else |
| Weekly.AbsentMemberCountsZero | views/WeeklyView.tsx:152 | a member with no record inside the window has a zero count in every category |
| Weekly.MemberSumSnocRecord | views/WeeklyView.tsx:45-55 | over distinct members, one more record raises the member sum of a category by exactly the team count's increase |
| Weekly.NewMemberSumsZero | views/WeeklyView.tsx:51-53 | a member first seen at a record had no count in any category among the records before it |
| Weekly.MemberSumIsTotal | views/WeeklyView.tsx:45-55 | for every category, the first-seen members' counts add up to the team total |
| Weekly.RowSumIsMemberSum | views/WeeklyView.tsx:150-151 | summing a member table's rows gives the member sum of the records whenever each row holds that member's count |
| Weekly.TallyRowsSumToTotal | views/WeeklyView.tsx:150-151 | in a tally, the member cards of a category add up to the team figure of that category |
| Weekly.OutsideRecordChangesNothing | views/WeeklyView.tsx:45 | a record outside the window, anywhere in the list, changes no total, no member count, no member set and no key order |
| Weekly.IsInside | views/WeeklyView.tsx:42-45 | the record's date at 12:00:00.000 is compared with both ends of the window, both included |
| Weekly.Bump | views/WeeklyView.tsx:46-56 | a record inside the window raises the team total of its category by one; it adds its member's row (from zero) if missing and raises that row's category by one; other rows stay; the key order gains the member only when new; a well-formed table stays well-formed |
| Weekly.BumpTotals | views/WeeklyView.tsx:47-48 | a record inside the window raises the team total of its category by one, keeping the totals equal to the in-window counts |
| Weekly.BumpRows | views/WeeklyView.tsx:51-55 | a record inside the window creates its member's row with five zeros if needed and raises its category there; the table keeps exactly the in-window members and their in-window counts |
| Weekly.BumpOrder | views/WeeklyView.tsx:51-53 | a member is appended to the key order only on their first in-window record, so the key order stays the first-seen order |
| Weekly.BumpTallies | views/WeeklyView.tsx:45-56 | a record inside the window extends a tally of the records before it to a tally including it |
| Weekly.SkipTallies | views/WeeklyView.tsx:45 | a record outside the window leaves a tally valid for the longer list unchanged |
| Weekly.ProcessRecords | views/WeeklyView.tsx:29-59 | the team totals are the in-window counts per category; the member keys are exactly the members with an in-window record, each once, created in first-seen order; each member row holds that member's in-window count per category |
| Weekly.LoadWeeklyStats | views/WeeklyView.tsx:68-75 | the current stats tally this week's window around `now`, and the previous stats tally the window of `now` minus 7 days |
| Weekly.TallyWeekOf | views/WeeklyView.tsx:72-75 | `processRecords` over `getWeekRange(date)` tallies the records in the week window of the date's original day; the date itself is left on that week's Monday with its time of day kept |
| Weekly.ChartData | views/WeeklyView.tsx:99-105 | five rows in the fixed category order; each holds this week's and last week's team total of its category |
| Weekly.LastWeekRow | views/WeeklyView.tsx:152 | last week's figure of each category is the member's row value, or 0 when the member had no row last week |
| Weekly.MemberBreakdown | views/WeeklyView.tsx:150-152 | one card per key of this week's member table, in `Object.keys` order, each for a member that has a row |
| Weekly.ChartMatchesRecords | views/WeeklyView.tsx:99-105 | the overview has five rows in the order roadshow, call, report, service, internal; each holds this week's and last week's in-window count of its category, and the shown change is their difference |
| Weekly.BreakdownMatchesRecords | views/WeeklyView.tsx:150-171 | one card per member with a record this week, in the `Object.keys` order of the first-seen order; each holds five cells in the fixed category order with that member's count this week and last week (0 when absent last week) |
| Weekly.ReportMatchesRecords | views/WeeklyView.tsx:99-171 | the overview and the member cards built from two tallies show exactly the in-window counts of this week and of last week, the cards in `Object.keys` order |
| Weekly.WeeklyReport | views/WeeklyView.tsx:61-171 | end to end from the record list and `now`: the overview and the member cards hold exactly the in-window counts of this week and of last week, the cards in `Object.keys` order |
| Keys.IndexKeys | views/WeeklyView.tsx:150 | the keys kept are array indices |
| Keys.NameKeys | views/WeeklyView.tsx:150 | the keys kept are not array indices |
| Keys.KeysSplit | views/WeeklyView.tsx:150 | the array-index keys and the other keys together are exactly the created keys |
| Keys.InsertIndexPermutes | views/WeeklyView.tsx:150 | inserting a key adds exactly that key |
| Keys.InsertIndexAscends | views/WeeklyView.tsx:150 | inserting a key into an ascending list keeps it ascending |
| Keys.InsertIndexFacts | views/WeeklyView.tsx:150 | inserting a key into an ascending list keeps it ascending and adds exactly that key |
| Keys.HeadBound | views/WeeklyView.tsx:150 | in an ascending list the first key is at most every later key |
| Keys.ConsAscending | views/WeeklyView.tsx:150 | a key no larger than any key of an ascending list can go in front of it |
| Keys.SortIndicesFacts | views/WeeklyView.tsx:150 | sorting the array-index keys gives an ascending permutation of them |
| Keys.ObjectKeys | views/WeeklyView.tsx:150 | `Object.keys` lists each created key once: first the array indices in ascending numeric order, then the other keys in creation order |
| Keys.KeysFromOrder | views/WeeklyView.tsx:150-151 | every listed key is a created key, so each card finds its member's row |
| Keys.NamesKeepCreationOrder | views/WeeklyView.tsx:150 | with no array-index key, `Object.keys` is the creation order |
| Keys.NoIndexKeys | views/WeeklyView.tsx:150 | with no array-index key, the other keys are all the keys, in order |
| Keys.NumericKeysAscend | views/WeeklyView.tsx:150 | keys created as "10" and then "9" are listed as "9", "10" |
| Personal.RoundHalfUp | views/PersonalView.tsx:89 | `Math.round(n / d)` is the integer within half of n / d, with halves rounding up |
| Personal.RoundHalfUpUnique | views/PersonalView.tsx:89 | that integer is the only one within that distance |
| Personal.RoundHalfUpBetween | views/PersonalView.tsx:102 | rounding a quotient that lies between two integers gives a value between them |
| Personal.Rate | views/PersonalView.tsx:84-86 | a rate equals current/target when the target is positive and 0 otherwise |
| Personal.Plus | views/PersonalView.tsx:89 | the sum of two fractions with positive denominators has a positive denominator |
| Personal.PlusBounds | views/PersonalView.tsx:89 | bounds on two rates add up to bounds on their sum |
| Personal.SumOfRates | views/PersonalView.tsx:89 | the sum of the three rates has a positive denominator |
| Personal.Progress | views/PersonalView.tsx:88-89 | progress is the integer nearest to 100 times the mean of the three rates, with halves rounding up |
| Personal.RateBounds | views/PersonalView.tsx:84-86 | a rate is at most 1 when the target is not exceeded or not positive, at least 1 when a positive target is met, and never negative for a non-negative count |
| Personal.ProgressFullMarks | views/PersonalView.tsx:84-89 | every target met exactly gives 100 |
| Personal.ProgressNoActivity | views/PersonalView.tsx:84-89 | no activity gives 0 |
| Personal.ProgressNonNegative | views/PersonalView.tsx:84-89 | non-negative counts give non-negative progress |
| Personal.ProgressAtMostHundred | views/PersonalView.tsx:84-89 | with no target exceeded, progress is at most 100 |
| Personal.ProgressAtLeastHundred | views/PersonalView.tsx:84-89 | with every positive target met or passed, progress is at least 100 |
| Personal.ProgressOvershoot | views/PersonalView.tsx:84-89 | rates are not capped: 30 of 25 roadshows with the other targets met gives 107 |
| Personal.WithProgress | views/PersonalView.tsx:83-96 | the roster keeps its length and order; each entry keeps its fields and gains role 策略研究 and its own progress |
| Personal.Progresses | views/PersonalView.tsx:99 | the list of progress values holds each analyst's progress in roster order |
| Personal.MinOf | views/PersonalView.tsx:99 | `Math.min` of an empty list is +Infinity (None); otherwise it is a member of the list and no larger than any member |
| Personal.MinProgress | views/PersonalView.tsx:99 | `minProgress` is missing exactly for an empty roster; otherwise it is some analyst's progress and no higher than anyone's |
| Personal.SumProgressBounds | views/PersonalView.tsx:102 | the reduce sum lies between length × lowest and length × highest progress |
| Personal.TeamAverage | views/PersonalView.tsx:102 | the average is missing (NaN) exactly for an empty roster; otherwise it is within half of the progress sum divided by the roster size, halves rounding up |
| Personal.HasMaximum | views/PersonalView.tsx:102 | a non-empty roster has an analyst with the highest progress |
| Personal.TeamAverageBetween | views/PersonalView.tsx:99-102 | for a non-empty roster the team average exists and lies between the lowest progress and the highest |
| Personal.WarningMarksLowest | views/PersonalView.tsx:211 | an analyst is flagged if and only if their progress is no higher than anyone's; ties are all flagged; a non-empty roster has at least one flag |
| Personal.RawDataFigures | views/PersonalView.tsx:5-38 | on the shipped roster: progress 63, 96, 27 and 66; lowest 27; team average 63; only the third analyst flagged |
| Numerals.DigitChar | views/RankingsView.tsx:27 | the character of a digit value is a digit with that value |
| Numerals.Decimal | views/RankingsView.tsx:27 | the decimal text of a number is non-empty, all digits, with no leading zero |
| Numerals.SkipSpaces | views/RankingsView.tsx:34 | skipping leading white space leaves a suffix of the text that does not start with white space, and everything removed is white space |
| Numerals.LeadingDigits | views/RankingsView.tsx:34 | the digits `parseInt` reads are the longest run of digits at the front of the text |
| Numerals.DecimalValue | views/RankingsView.tsx:27 | the decimal text of n has value n |
| Numerals.LeadingDigitsOfDigits | views/RankingsView.tsx:34 | a digit string followed by a non-digit is read up to that non-digit |
| Numerals.ParseDecimal | views/RankingsView.tsx:34 | `parseInt(text) \|\| 0` reads back the decimal text of n as n, whatever non-digit text follows |
| Numerals.ParseUnsigned | views/RankingsView.tsx:34 | text starting with a digit reads as the value of its leading digits |
| Numerals.ParseNegativeDecimal | views/RankingsView.tsx:34 | a minus sign before the decimal text of n reads as -n |
| Numerals.ParseMinus | views/RankingsView.tsx:34 | text starting with a minus sign reads as the negated value of the digits after it, or 0 when none follow |
| Numerals.ParseIntOrZero | views/RankingsView.tsx:34 | a negative result needs a minus sign after the white space; text whose first non-space character is no sign and no digit reads as 0 |
| Numerals.ParseNoDigits | views/RankingsView.tsx:34 | text with no digit at all reads as 0 |
| Numerals.NoDigitsAfterSpaces | views/RankingsView.tsx:34 | skipping white space does not bring in a digit |
| Rankings.HandleAnalystChange | views/RankingsView.tsx:33-36 | same length and order; analysts with another id are unchanged; the analyst with that id gets the parsed percentile and keeps every other field |
| Rankings.InitialGroups | views/RankingsView.tsx:24-31 | thirteen groups with ids 1..13; our group ranks 6 with share 5.2; group i+1 ranks i+1 with the i-th random share |
| Rankings.HandleGroupChange | views/RankingsView.tsx:38-40 | same length and order; groups with another id are unchanged; the group with that id gets the edited field and keeps the other fields |
| Rankings.EditsKeepMyGroup | views/RankingsView.tsx:38-42 | after any edits there are still 13 groups, and `groups[0]` is still group 1 with our name |
| Rankings.EditsKeepIds | views/RankingsView.tsx:38-40 | any run of edits keeps the length, and every position's id and name |
| Rankings.WithRankConcat | views/RankingsView.tsx:160 | the groups of one rank in a concatenation are those of each part, in order |
| Rankings.Insert | views/RankingsView.tsx:160 | inserting one group grows the sequence by one |
| Rankings.RankOrder | views/RankingsView.tsx:160 | the stable order has the same length as its input |
| Rankings.InsertFacts | views/RankingsView.tsx:160 | inserting into a sorted sequence keeps it sorted and keeps the order within each rank |
| Rankings.InsertSorted | views/RankingsView.tsx:160 | inserting into a sorted sequence keeps it sorted |
| Rankings.InsertRuns | views/RankingsView.tsx:160 | after inserting a group, the groups of each rank are in the same order as in the group followed by the sequence |
| Rankings.RankOrderFacts | views/RankingsView.tsx:160 | the stable order is sorted by rank, is a permutation of the input, and keeps the input order among groups of equal rank |
| Rankings.SortedRunsUnique | views/RankingsView.tsx:160 | two sequences of the same length, both sorted by rank and with the same groups of each rank in the same order, are equal: a stable sort has one possible result |
| Rankings.LeastRankFirst | views/RankingsView.tsx:160 | in a sorted sequence the first group's rank is at most every rank that occurs |
| Rankings.CountInRun | views/RankingsView.tsx:160 | a group occurs in a sequence as often as it occurs among the groups of its rank |
| Rankings.RunsPermute | views/RankingsView.tsx:160 | sequences with the same groups of each rank are permutations of each other |
| Rankings.SwapKeepsRuns | views/RankingsView.tsx:160 | swapping two neighbours of different rank keeps the order within each rank |
| Rankings.SinkStart | views/RankingsView.tsx:160 | an insertion step starts with the new element as the one moving down, everything before it sorted |
| Rankings.SinkStep | views/RankingsView.tsx:160 | swapping the moving element with a higher-ranked left neighbour keeps the step's state one place further left and keeps the order within each rank |
| Rankings.SinkDone | views/RankingsView.tsx:160 | once the moving element's left neighbour ranks no higher, the prefix up to the step's end is sorted |
| Rankings.SortByRank | views/RankingsView.tsx:160 | sorts the array in place by rank; the result is a permutation and keeps the original order within each rank |
| Rankings.SinkLast | views/RankingsView.tsx:160 | one insertion step: the sorted prefix of the array grows by one, the order within each rank is kept, and the groups after the step's index stay in place |
| Rankings.Leaderboard | views/RankingsView.tsx:160 | the first min(5, n) groups of the stable rank order; they are sorted and drawn from the groups |
| Rankings.RankOrderPrefix | views/RankingsView.tsx:160 | the first n groups of the stable order are sorted by rank and drawn from the groups |
| Rankings.SortedRunsAreRankOrder | views/RankingsView.tsx:160 | any arrangement sorted by rank that keeps each rank's groups in their original order is the stable order |
| Rankings.SortedIsOwnOrder | views/RankingsView.tsx:160 | a list already sorted by rank is its own stable order |
| Rankings.InsertAt | views/RankingsView.tsx:160 | a group goes after all groups of strictly smaller rank and before the first one not smaller |
| Rankings.InitialLeaderboard | views/RankingsView.tsx:24-31 | with the initial ranks the leaderboard shows groups 2, 3, 4 and 5 and then our group 1, which is ahead of group 6 on the shared rank 6 |
| Rankings.TieKeepsOrder | views/RankingsView.tsx:160 | ranks 2, 1, 1 for ids 1, 2, 3 give the order 2, 3, 1: equal ranks keep their input order |

## Left out

- Rendering: the JSX markup, styling, modals, charts and the
  `detailsData` lists shown in them are presentation only.
- I/O: the `fetch('/api/records')` call, its error handling and the
  loading state. The record list is a parameter of
  `Weekly.LoadWeeklyStats`, and "now" is a `Calendar.Date` argument.
- Time zones: a record's `"YYYY-MM-DD"` date is taken as a local day,
  compared at local noon. `new Date("YYYY-MM-DD")` actually parses as UTC
  midnight, so west of UTC the record would fall on the day before.
  Daylight-saving changes in day length are also not modelled.
- Date-string parsing: records carry a day number, not the text.
- Calendar.Date.SetHours: requires every argument in its usual range. The
  views only pass such values, so JavaScript's carry into the next day is
  not modelled.
- Floating point: rates and averages are exact fractions. Binary rounding
  could differ from the exact result where the value is within about 1e-13
  of a half.
- Record categories: `type` is one of the five categories. Records of
  any other type would get their own key in the JavaScript totals; they
  are not representable here.
- Record fields that no core operation reads are not part of the model:
  institution, report, service and interaction types, the
  real-roadshow flag and the client name.
- Math.random: the twelve random group shares are a parameter of
  `Rankings.InitialGroups`.
- Rankings.HandleGroupChange: the view stores the edited rank as the
  input's text, and the sort reads it back with `Number`. The model keeps
  the rank as an integer. Two cases fall outside it. A cleared field is
  the empty text, and `Number("")` is 0, so that group sorts as rank 0,
  ahead of every positive rank. Text such as "2.5" reads as a fraction.
- Numerals.ParseIntOrZero: `0x` hexadecimal prefixes and Unicode white
  space other than tab, line breaks, vertical tab, form feed and space are
  not modelled.
- Numerals.ParseIntOrZero: `parseInt` returns a double. A run of digits
  worth more than 2^53 loses precision there, but the model reads it
  exactly.
- Rankings.SortByRank: an insertion sort by adjacent swaps stands in for
  the engine's sort. Only what ECMA-262 promises is proved about it.
- Calendar.DayOfMonth: its contract states only the range 1..31. It
  enters the week computation through `GetDate` and `SetDate`, where it
  cancels out, so no week property depends on its exact value. Its
  exact value is checked on one date only, in `Calendar.Feb15Of2026`.
- Weekly.ProcessRecords: a member id is treated as an ordinary key. In
  JavaScript, an id equal to an inherited name of `Object.prototype`
  (`constructor`, `toString`, `__proto__`, ...) finds the inherited
  value. No own row is created for it, so it never gets a card. Ids are
  analyst names, so this case is not modelled.
- Weekly.BreakdownMatchesRecords: an id that is an inherited
  `Object.prototype` name is treated as an ordinary key; see
  `Weekly.ProcessRecords`.
- Weekly.ReportMatchesRecords: an id that is an inherited
  `Object.prototype` name is treated as an ordinary key; see
  `Weekly.ProcessRecords`.
- Weekly.WeeklyReport: an id that is an inherited `Object.prototype`
  name is treated as an ordinary key; see `Weekly.ProcessRecords`.
- Other views and files are not part of this model: TeamView,
  EntryView, PasswordGate, BottomNav, App and deploy.py.
- Progress against elapsed time: no view computes it, so the model has
  no such figure.
