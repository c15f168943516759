# Toastmasters points dashboard, modelled in Dafny

The dashboard loads a sheet of attendance rows (member or name, role,
meeting date or date, points). It keeps the rows that name a member
(`rawData`) and lets the user narrow them with four controls: member,
role, start date and end date. The rows on show (`filteredData`) feed
five charts:

- a leaderboard of points per member;
- a per-member progress line;
- a bar of points per meeting date;
- a pie of points per role;
- a cumulative club-progress line.

The model covers all of `script.js` except the network, the DOM and the
charting library:

- `Rows`: a parsed row is a map from column name to text. It is modelled as
  a `Row` of `Cell`s, where a cell is `Absent` (`undefined`) or `Text`. The
  `||` fallbacks follow JavaScript truthiness: `undefined` and `""` are
  falsy. A cell used as an object key becomes its property-name string, so
  `undefined` becomes "undefined".
- `Seqs`: `filter`, `map`, `[...new Set(...)]` (distinct values in
  first-seen order) and a stable `sort` by a comparison. These are pure
  functions with their lemmas.
- `StringOrder`: the order in which the default `sort()` puts strings.
- `Filters`: the load filter, the dropdown choice lists and the predicate
  of `applyFilters`.
- `Grouping`: the `forEach` loop that fills an object from group key to
  points. It is a method over a `map` plus a key list in insertion order,
  proved against the group totals.
- `Charts`: the five builders. Each is a method proved equal to a
  specification function, and lemmas state what each chart shows.
- `DashboardState`: a `Dashboard` class with the two mutable lists. Its
  methods are the load callback, `initFilters`, `applyFilters`,
  `resetFilters` and `rebuildCharts`.

`new Date(x)` is a parameter `instant: Cell -> int`, the instant a date
value denotes. Points are the integer each row's `Points` column parses to.

A reset skips the positive-points rule: `resetFilters` sets `filteredData`
to `rawData`, so rows with zero or negative points appear after a reset.
They never appear after applying controls, even all blank ones.
`Filters.UnsetFilterIsNotAllRows` and
`DashboardState.ResetShowsZeroPointRows` show the difference.

## Model

| member | source | states |
|---|---|---|
| StringOrder.LexLe | script.js:154 | the default string order: a proper prefix sorts first |
| StringOrder.LexLeStrict | script.js:154 | of two different strings, exactly one sorts first |
| StringOrder.LexLeFirstDifference | script.js:154 | two strings compare at their first differing character |
| Rows.PropertyKey | script.js:97 | a cell as an object key is its text, or "undefined" for a missing cell; the key is "undefined" exactly for a missing cell and for the text "undefined" |
| Rows.PropertyKeyMerges | script.js:150 | a missing cell and the text "undefined" share a key; no other two cells do |
| Rows.NameOf | script.js:53 | `Member` when non-empty, else `Name`; truthy iff either is |
| Rows.RoleOf | script.js:54 | the row's role when non-empty, else "Unknown"; never empty |
| Rows.DateOf | script.js:55 | `Meeting Date` when non-empty, else `Date`; truthy iff either is |
| Rows.CellLe | script.js:134 | the default sort on raw date values: `undefined` after every string, and of two different strings exactly one sorts first |
| Rows.Or | script.js:13 | the `or` fallback on cells: the result is truthy iff either is, it is `a` when `a` is truthy and `b` otherwise |
| StringOrder.LexLeIsTotalOrder | script.js:154 | the default string sort order is total, transitive and antisymmetric |
| Rows.CellLeIsTotalOrder | script.js:134 | sorting raw date values is a total order with `undefined` after every string |
| Seqs.FilterIsSubsequence | script.js:52-69 | `filter` keeps an order-preserving subsequence |
| Seqs.DistinctElements | script.js:25 | `[...new Set(xs)]` holds each value of `xs` exactly once and nothing else |
| Seqs.DistinctFirstSeenOrder | script.js:25 | `[...new Set(xs)]` lists values in the order of their first occurrence |
| Seqs.Sort | script.js:124 | the sort returns as many elements as it is given |
| Seqs.SortMultiset | script.js:124 | sorting permutes its input |
| Seqs.FilterCount | script.js:52-69 | `filter` keeps every copy of a passing element and none of a failing one |
| Seqs.SortSorted | script.js:124 | sorting by a total preorder gives a sorted result |
| Seqs.SortStable | script.js:124 | sorting keeps elements that compare equal in input order |
| Seqs.SortStrictlyAscending | script.js:154 | sorting distinct keys by a total order gives strictly ascending keys |
| Filters.Ingest | script.js:13 | the loaded rows are parsed rows that name a member |
| Filters.Admits | script.js:53-68 | an admitted row has positive points; with every control blank, exactly those rows are admitted |
| Filters.IngestKeepsNamedRows | script.js:13 | loading keeps exactly the rows with a non-empty Member or Name, every copy, in order |
| Filters.FilterRowsExact | script.js:52-69 | a row is shown, as often as it is loaded, iff it has positive points and meets every set control; in order |
| Filters.UnsetKeepsPositiveRows | script.js:59-68 | with every control blank, exactly the positive-point rows are shown, every copy, in order |
| Filters.FilterRowsAppend | script.js:52-69 | each row is judged on its own: filtering distributes over concatenation |
| Filters.UnknownRoleAdmitsRoleless | script.js:54-66 | choosing the role "Unknown" admits a row without a Role |
| Filters.UnsetFilterIsNotAllRows | script.js:68 | blank controls still drop a zero-point row |
| Filters.MemberChoicesDistinct | script.js:25 | member options: each member once, first-seen order, none empty |
| Filters.RoleChoicesDistinct | script.js:34 | role options: each role once, first-seen order, "Unknown" for a missing role |
| Grouping.GroupKeysElements | script.js:101 | the accumulator's keys are distinct and are exactly the rows' keys |
| Grouping.GroupTotalsConserve | script.js:93-102 | the group totals add up to the total points of the rows |
| Grouping.SumTotalsSorted | script.js:154-155 | listing the groups in sorted order does not change their sum |
| Grouping.GroupTotalPositive | script.js:188-194 | with positive points, every group present has a positive total |
| Grouping.GroupSums | script.js:93-99 | the object-filling loop yields the keys in first-seen order and each key's total |
| Charts.ValuesAreTotals | script.js:155 | reading the accumulator at each label gives that label's group total |
| Charts.BuildLeaderboard | script.js:92-110 | the leaderboard labels and data equal the specified member chart |
| Charts.BuildRoleBreakdown | script.js:166-184 | the pie labels and data equal the specified role chart |
| Charts.BuildMeetingSummary | script.js:145-163 | sorted dates, each with its total, equal the specified meeting chart |
| Charts.Accumulate | script.js:197-202 | the cumulative loop yields the running totals of the values at the labels |
| Charts.BuildClubProgress | script.js:187-202 | the sorted meeting totals followed by their running totals equal the specified club chart |
| Charts.EntriesAppendOne | script.js:117-121 | a row adds one entry, to its own member's list only |
| Charts.EntriesOfAbsentMember | script.js:119 | a member not met yet has no entries |
| Charts.GatherOne | script.js:118-120 | one step of the grouping loop keeps, for the rows seen so far, the members met in order and each one's entries |
| Charts.GroupEntries | script.js:116-121 | the grouping loop gives each member the list of its rows' entries, in input order |
| Charts.BuildProgressChart | script.js:113-134 | nothing for no rows; otherwise one line per member, its points sorted by date |
| Charts.GroupChartProperties | script.js:93-102 | a group chart has distinct first-seen labels, each label's total, summing to all points |
| Charts.LeaderboardProperties | script.js:93-102 | the leaderboard: each member present once, its total points, bars sum to all points |
| Charts.RoleBreakdownProperties | script.js:167-176 | the role pie: each role once, its total, slices sum to all points, roleless rows under "Unknown" |
| Charts.MeetingDatesProperties | script.js:154 | meeting dates: every row's date key, once each, strictly ascending |
| Charts.MeetingSummaryProperties | script.js:146-155 | the meeting summary: ascending dates, each date's total, bars sum to all points |
| Charts.RunningTotalsProperties | script.js:197-202 | running totals: first is the first value, each adds the next, last is the sum |
| Charts.ClubProgressProperties | script.js:188-202 | club progress: the summary's dates; each value adds that date's total; the last is all points |
| Charts.ClubProgressIncreasing | script.js:196-202 | with positive points the club line rises strictly |
| Charts.TimelineProperties | script.js:124 | a member's line: one point per row, ordered by date, same-date rows in input order |
| Charts.ProgressSeriesNames | script.js:123-126 | one line per member present, each once, in first-seen order |
| Charts.ProgressSeriesLengths | script.js:123-127 | each member's line has as many points as the member has rows |
| Charts.ProgressLabelsProperties | script.js:134 | the x-axis lists every distinct date value once, ascending, `undefined` last |
| Charts.ChartsConserve | script.js:83-89 | leaderboard, meeting summary and role pie each sum to the total points; so does the club line's last value |
| Charts.EmptyRowsEmptyCharts | script.js:114 | no rows: empty bar, pie and club charts, and the progress chart left alone |
| DashboardState.Dashboard.constructor | script.js:5-6 | both row lists start empty |
| DashboardState.Dashboard.Complete | script.js:12-16 | loading keeps the named rows, fills the dropdowns and applies the controls |
| DashboardState.Dashboard.InitFilters | script.js:20-44 | the dropdown options are the distinct members and roles, in first-seen order, with no empty member option |
| DashboardState.Dashboard.ApplyFilters | script.js:46-72 | shows the loaded rows the controls admit and rebuilds the charts from them |
| DashboardState.Dashboard.ResetFilters | script.js:74-81 | clears the controls, shows every loaded row and rebuilds the charts |
| DashboardState.Dashboard.RebuildCharts | script.js:83-89 | the five charts are computed from the shown rows, the sums agree |
| DashboardState.FilteredClubProgressIncreases | script.js:68 | after applying the controls the club line rises strictly |
| DashboardState.ResetShowsZeroPointRows | script.js:79 | a reset shows a zero-point row's date; no controls do |

## Left out

- Fetching and parsing the sheet is not modelled. The parsed rows are an input.
- The DOM is not modelled: dropdowns, inputs and the button listeners.
  Control values are a `Controls` input, and dropdown options are returned.
- The charting library calls and `destroy()` are not modelled. Each builder
  returns the labels and data it would pass.
- The random line colours (`Math.random`) are not modelled, nor are other
  styling options.
- `parseFloat` on the Points column is not modelled: points are integers.
  Floating-point sums, fractional points and `NaN` are therefore not covered.
- Date parsing is a parameter: `new Date(x)` is `instant(x)`, an integer.
  An invalid date compares false both ways in JavaScript, and the model does
  not capture that.
- `Object.keys` order is modelled as plain insertion order. JavaScript lists
  integer-like keys first, in numeric order. Keys that clash with
  `Object.prototype` (such as "constructor") are also not modelled.
- String comparison is by character code, as the sequence elements compare.
  UTF-16 code-unit order for characters outside the Basic Multilingual
  Plane is not modelled.
- Charts.BuildProgressChart: when there are no rows, the source returns
  before drawing. The model returns `None`, meaning the previous progress
  chart stays on screen, but the model does not hold that previous chart.
