# Fitness dashboard: chart aggregation and dashboard helpers in Dafny

This project models the client-side logic of a fitness tracking web app and
proves properties about it. The model covers three parts of the front end.

- **The step analytics view** (`StepAnalytics.tsx`). Its `chartData` memo sorts
  a copy of the user's daily activity records by date. In daily mode it charts
  the last 30 records as they are. In weekly and monthly mode a `forEach` loop
  folds the records into accumulators: `find` looks up the accumulator of the
  record's week or month key, a hit is added to in place, and a miss pushes a
  new accumulator. Each accumulator is then charted as per-day averages rounded
  with `Math.round`. The `stats` memo reduces the chart to its current, mean,
  maximum and minimum steps, or `null` when there is nothing to chart.
- **The activity charts** (`ActivityCharts.tsx`). A `slice().sort().map()`
  chain turns every record into one chart point. With no records, a placeholder
  is shown instead.
- **The dashboard helpers** (`App.tsx`). These are goal progress of the latest
  record, the level and muscle-group colour classes, the five-entry history,
  and the state resets on logout and on closing a workout.

Modules:
- `Options`: the optional value a function returns in place of `null`.
- `Calendar`: dates as day numbers (day 0 is 1970-01-01, a Thursday), the
  weekday, the Sunday that starts a week, the proleptic Gregorian year and month
  of a day, and the `${year}-${month}` text key.
- `Activities`: the `DailyActivity` record and the stable sort by date.
- `StepAnalytics`: the chart data and the summary statistics.
  - The imperative fold `Accumulate` and its lookup `FindBucket` are methods
    with loop invariants.
  - Each is proved against a declarative definition. `Buckets` gives one
    accumulator per distinct key, in first-seen order, holding `Tally`, the
    totals of exactly that key's records.
  - The fold is generic over the key function: the source repeats the same loop
    for weeks and months, differing only in the key.
- `AnalyticsExamples`: inputs whose chart is computed outright, and the
  one-bucket and two-bucket facts they rest on.
- `ActivityCharts`: the sort-and-map pipeline and the placeholder.
- `Dashboard`: progress, colour lookups and history as functions. The
  component's `useState` variables form a class. Its methods change exactly
  the fields the source's setters change, counting the setters that
  `loadUserData` calls before its first `await`.

## Model

| member | source | states |
|---|---|---|
| Calendar.Weekday | front-end/components/StepAnalytics.tsx:42 | `getDay()`: a weekday index in 0..6, Sunday being 0 |
| Calendar.WeekStart | front-end/components/StepAnalytics.tsx:40-43 | the week key's day is a Sunday, on or before the date and less than 7 days before it |
| Calendar.SameWeekIff | front-end/components/StepAnalytics.tsx:40-43 | two dates get the same week start exactly when the second lies in the 7-day span starting at the first's week start |
| Calendar.SundayIsUnique | front-end/components/StepAnalytics.tsx:40-43 | a 7-day span from a Sunday holds no other Sunday, so the week start is unique |
| Calendar.WeekStartMonotone | front-end/components/StepAnalytics.tsx:40-43 | a later date never has an earlier week start |
| Calendar.YearMonthOf | front-end/components/StepAnalytics.tsx:80 | `getFullYear()` / `getMonth() + 1` of a day: the month is in 1..12 |
| Calendar.DayOfYearRange | front-end/components/StepAnalytics.tsx:80 | every day of a 400-year era lies in one of its 400 years, on a day of year in 0..365 |
| Calendar.BeforeIff | front-end/components/StepAnalytics.tsx:80 | calendar order of year-months is the order of their month counts |
| Calendar.MonthIndexStep | front-end/components/StepAnalytics.tsx:80 | the next day is in the same calendar month or a later one |
| Calendar.MonthIndexMonotone | front-end/components/StepAnalytics.tsx:80 | a later day never falls in an earlier calendar month |
| Calendar.DigitChar | front-end/components/StepAnalytics.tsx:80 | a decimal digit is a character '0'..'9' |
| Calendar.NatText | front-end/components/StepAnalytics.tsx:80 | the decimal text of a number, as a template literal writes it: non-empty, digits only, at least two digits from 10 on |
| Calendar.NatTextInjective | front-end/components/StepAnalytics.tsx:80 | different numbers have different decimal texts |
| Calendar.IntTextSign | front-end/components/StepAnalytics.tsx:80 | an integer's text starts with '-' exactly when the integer is negative |
| Calendar.IntTextInjective | front-end/components/StepAnalytics.tsx:80 | different integers have different texts |
| Calendar.LastDash | front-end/components/StepAnalytics.tsx:80 | in `x + "-" + t` with `t` dash-free, the last dash is at position `|x|` |
| Calendar.SplitAtLastDash | front-end/components/StepAnalytics.tsx:80 | two such texts are equal only if both parts are |
| Calendar.MonthKeySameIff | front-end/components/StepAnalytics.tsx:80 | two year-months have the same key exactly when they are equal |
| Calendar.SameMonthIff | front-end/components/StepAnalytics.tsx:80 | two days get the same `MonthKey` text exactly when they have the same year and month |
| Calendar.January2024Weeks | front-end/components/StepAnalytics.tsx:40-43 | 2024-01-01 and 2024-01-08 are Mondays whose weeks start on 2023-12-31 and 2024-01-07 |
| Calendar.January2024Month | front-end/components/StepAnalytics.tsx:80 | every day from 2024-01-01 to 2024-01-31 is in year 2024, month 1 |
| Calendar.January2024Key | front-end/components/StepAnalytics.tsx:80 | January 2024's key is "2024-1" |
| Calendar.TextLessAfterPrefix | front-end/components/StepAnalytics.tsx:80 | after a common prefix, string order is decided by the rest |
| Calendar.MonthKeysNotInTextOrder | front-end/components/StepAnalytics.tsx:80 | "2024-10" sorts before "2024-9" as text: the month keys' text order is not chronological |
| Activities.OnDay | front-end/components/StepAnalytics.tsx:18-20 | the records of one date: exactly the records dated that day, no more of them than in the input |
| Activities.Insert | front-end/components/StepAnalytics.tsx:18-20 | inserting adds exactly the one record, and every element is it or an old element |
| Activities.InsertKeepsSorted | front-end/components/StepAnalytics.tsx:18-20 | inserting into a date-ordered sequence keeps it date-ordered |
| Activities.SortByDate | front-end/components/StepAnalytics.tsx:18-20 | the sorted copy is in ascending date order and is a permutation of the records |
| Activities.OnDayCons | front-end/components/StepAnalytics.tsx:18-20 | the records of one date in `[y] + s` are `y` if it has that date, then those of `s` |
| Activities.InsertOnDay | front-end/components/StepAnalytics.tsx:18-20 | inserting a record puts it in front of the records sharing its date |
| Activities.SortedUnchanged | front-end/components/StepAnalytics.tsx:18-20 | records already in date order are left as they are |
| Activities.SortIsStable | front-end/components/StepAnalytics.tsx:18-20 | the sort is stable: records of the same date keep their relative order |
| StepAnalytics.MathRound | front-end/components/StepAnalytics.tsx:67 | `Math.round`: the result is within one half of the value, halves rounded up |
| StepAnalytics.RoundCents | front-end/components/StepAnalytics.tsx:31 | `Math.round(x * 100) / 100`: a whole number of hundredths within half a cent of the value |
| StepAnalytics.RoundWithin | front-end/components/StepAnalytics.tsx:67 | rounding a value between two integers stays between them |
| StepAnalytics.MeanWithin | front-end/components/StepAnalytics.tsx:67 | the rounded mean of a total of `n` values in `[lo, hi]` is in `[lo, hi]` |
| StepAnalytics.SameBucketIff | front-end/components/StepAnalytics.tsx:40-43 | the key `KeyOf` files a record under: in weekly mode the Sunday starting the record's week; records share a week bucket exactly in the same Sunday-started span, and a month bucket exactly in the same year and month |
| StepAnalytics.DailyPoints | front-end/components/StepAnalytics.tsx:22-33 | `min(30, n)` points whose date, steps, calories and standing hours are those of the last records, in order, and whose distance is the record's kilometres to within half a cent |
| StepAnalytics.KeysOf | front-end/components/StepAnalytics.tsx:39-43 | one key per record, the key of that record |
| StepAnalytics.FirstSeen | front-end/components/StepAnalytics.tsx:45-62 | the distinct keys: no repeats, and exactly the keys that occur |
| StepAnalytics.Tally | front-end/components/StepAnalytics.tsx:47-61 | the totals of the records with one key: that key, and a count between 0 and the number of records |
| StepAnalytics.BucketsShape | front-end/components/StepAnalytics.tsx:45-62 | no key has two accumulators; a key has one exactly when some record has that key; each holds the totals of exactly its key's records, with at least one day |
| StepAnalytics.BucketsNonEmpty | front-end/components/StepAnalytics.tsx:52-60 | every accumulator counts at least one day |
| StepAnalytics.TallyPresence | front-end/components/StepAnalytics.tsx:45-62 | a key with no records has empty totals, and a key with some records has a positive count |
| StepAnalytics.BucketsAppend | front-end/components/StepAnalytics.tsx:45-62 | one more record changes only its key's accumulator, or adds one at the end |
| StepAnalytics.AppendToExisting | front-end/components/StepAnalytics.tsx:47-52 | a record whose key is found is folded by `Add` into that accumulator (its values added, one more day), the others unchanged |
| StepAnalytics.AppendNew | front-end/components/StepAnalytics.tsx:53-61 | a record whose key is not found is pushed as a new one-day accumulator at the end |
| StepAnalytics.FindBucket | front-end/components/StepAnalytics.tsx:45 | `find`: the first accumulator with the key, or none exactly when no accumulator has it |
| StepAnalytics.Accumulate | front-end/components/StepAnalytics.tsx:39-63 | the find-or-push loop leaves exactly the buckets of the records |
| StepAnalytics.TotalUpdate | front-end/components/StepAnalytics.tsx:47-52 | replacing one accumulator changes a field's total by the difference |
| StepAnalytics.TotalAppend | front-end/components/StepAnalytics.tsx:53-61 | pushing an accumulator adds its field to the total |
| StepAnalytics.TotalsAfterAppend | front-end/components/StepAnalytics.tsx:47-61 | one more record adds one day and its steps to the totals |
| StepAnalytics.DaysConserved | front-end/components/StepAnalytics.tsx:52-60 | the accumulators' day counts add up to the number of records |
| StepAnalytics.StepsConserved | front-end/components/StepAnalytics.tsx:48-56 | the accumulators' steps add up to the `Sum` of the records' steps |
| StepAnalytics.FirstSeenIncreasing | front-end/components/StepAnalytics.tsx:45-62 | the first-seen order of non-decreasing day keys is strictly increasing |
| StepAnalytics.WeeklyBucketsChronological | front-end/components/StepAnalytics.tsx:39-63 | over date-sorted records the week accumulators start on strictly later Sundays |
| StepAnalytics.FirstSeenRanked | front-end/components/StepAnalytics.tsx:45-62 | first-seen order follows any non-decreasing rank shared exactly by equal keys |
| StepAnalytics.BucketsRanked | front-end/components/StepAnalytics.tsx:39-100 | every record of an earlier accumulator ranks below every record of a later one, for such a rank |
| StepAnalytics.MonthRankFits | front-end/components/StepAnalytics.tsx:78-80 | along date-sorted records the month count never decreases, and records share it exactly when they share a month key |
| StepAnalytics.MonthlyBucketsChronological | front-end/components/StepAnalytics.tsx:78-100 | over date-sorted records every record of an earlier month accumulator is in an earlier calendar month than every record of a later one |
| StepAnalytics.Average | front-end/components/StepAnalytics.tsx:65-72 | a point under the accumulator's key whose steps, calories and standing hours are each the nearest integer to the per-day mean, and whose distance is a whole number of hundredths within half a cent of the per-day mean |
| StepAnalytics.TallyStepsWithin | front-end/components/StepAnalytics.tsx:47-61 | bounds on a key's records' steps bound its total steps by the count |
| StepAnalytics.BucketAverageWithin | front-end/components/StepAnalytics.tsx:107 | a bucket's charted steps lie between any bounds of its records' steps |
| StepAnalytics.Averages | front-end/components/StepAnalytics.tsx:102-112 | one averaged point per accumulator, in order |
| StepAnalytics.ChartData | front-end/components/StepAnalytics.tsx:17-113 | the `chartData` computation, with the loop, yields the declared chart of the mode |
| StepAnalytics.ChartEmptyIff | front-end/components/StepAnalytics.tsx:17-113 | in every mode the chart is empty exactly when there are no records |
| StepAnalytics.DailyChart | front-end/components/StepAnalytics.tsx:22-33 | daily mode charts `min(30, n)` points, each the `DailyPoint` of the matching record among the last ones of the sorted copy |
| StepAnalytics.DailyPointsOfLast | front-end/components/StepAnalytics.tsx:23 | each daily point comes from the record at the same place in the last-30 window |
| StepAnalytics.BucketPoints | front-end/components/StepAnalytics.tsx:65-72 | weekly and monthly mode chart exactly the averages of the buckets, in bucket order |
| StepAnalytics.BucketChart | front-end/components/StepAnalytics.tsx:102-112 | bucket day counts add up to the number of records, and each point's steps are its bucket's rounded mean |
| StepAnalytics.WeeklyChartChronological | front-end/components/StepAnalytics.tsx:65-72 | the weekly chart's points are filed under strictly later Sundays |
| StepAnalytics.MonthlyChartChronological | front-end/components/StepAnalytics.tsx:102-112 | the monthly chart is in calendar order: records charted under an earlier point are in an earlier month than those under a later one |
| StepAnalytics.Max | front-end/components/StepAnalytics.tsx:121 | `Math.max(...)`: a value of the series that bounds it from above |
| StepAnalytics.Min | front-end/components/StepAnalytics.tsx:122 | `Math.min(...)`: a value of the series that bounds it from below |
| StepAnalytics.SumWithin | front-end/components/StepAnalytics.tsx:120 | a sum of `n` values in `[lo, hi]` lies in `[n*lo, n*hi]` |
| StepAnalytics.Summarize | front-end/components/StepAnalytics.tsx:116-126 | absent exactly for an empty series; otherwise the last value, extremes in and bounding the series, and a mean that is the nearest integer to the average and lies between the extremes |
| StepAnalytics.Project | front-end/components/StepAnalytics.tsx:119 | `map(d => d.steps)` and the other field projections: one value per element, each the field of the element at its place |
| StepAnalytics.Stats | front-end/components/StepAnalytics.tsx:116-126 | `null` exactly when the chart is empty; otherwise the last point's steps, extremes taken from and bounding the points, mean between them |
| StepAnalytics.NoStatsIff | front-end/components/StepAnalytics.tsx:116-117 | the view has no summary exactly when it has no records |
| StepAnalytics.SummarizeExample | front-end/components/StepAnalytics.tsx:116-126 | the series 1000, 2000, 3000, 4000 gives mean 2500, max 4000, min 1000, current 4000 |
| AnalyticsExamples.TwoBuckets | front-end/components/StepAnalytics.tsx:45-62 | two records with different keys make two one-record buckets in their order |
| AnalyticsExamples.SingleBucket | front-end/components/StepAnalytics.tsx:53-61 | a single record makes a single one-record bucket |
| AnalyticsExamples.JoinOnlyBucket | front-end/components/StepAnalytics.tsx:47-52 | a record with the key of the only bucket is added to it |
| AnalyticsExamples.ThreeInOneBucket | front-end/components/StepAnalytics.tsx:45-62 | three records with one key make one bucket holding all three |
| AnalyticsExamples.SingleRecordAverage | front-end/components/StepAnalytics.tsx:65-72 | a one-record bucket charts that record's own daily values under the bucket key |
| AnalyticsExamples.StepsOnlyAverage | front-end/components/StepAnalytics.tsx:65-72 | a steps-only bucket whose steps divide evenly charts exactly the mean |
| AnalyticsExamples.StepsOnlyPoint | front-end/components/StepAnalytics.tsx:65-72 | a steps-only record alone in its bucket charts its own steps |
| AnalyticsExamples.StepsOnlyMean | front-end/components/StepAnalytics.tsx:102-112 | three steps-only records in one bucket chart their mean |
| AnalyticsExamples.SortedChart | front-end/components/StepAnalytics.tsx:17-113 | records already in date order chart as the averages of their own buckets |
| AnalyticsExamples.TwoBucketChart | front-end/components/StepAnalytics.tsx:39-72 | two date-ordered records with different keys chart as two points in that order |
| AnalyticsExamples.AveragesOfTwo | front-end/components/StepAnalytics.tsx:65-72 | two accumulators chart as their two averages |
| AnalyticsExamples.TwoStepsOnlyPoints | front-end/components/StepAnalytics.tsx:39-72 | two steps-only records with different keys chart as two points with their own steps |
| AnalyticsExamples.OneBucketChart | front-end/components/StepAnalytics.tsx:78-112 | three date-ordered records with one key chart as one averaged point |
| AnalyticsExamples.TwoWeeksExample | front-end/components/StepAnalytics.tsx:36-72 | 1000 steps on 2024-01-01 and 2000 on 2024-01-08 chart weekly as two points under 2023-12-31 and 2024-01-07 |
| AnalyticsExamples.JanuaryKey | front-end/components/StepAnalytics.tsx:80 | every January 2024 day has month key "2024-1" |
| AnalyticsExamples.ThreeJanuaryDaysExample | front-end/components/StepAnalytics.tsx:75-112 | 1000, 2000 and 3000 steps on 2024-01-01..03 chart monthly as one "2024-1" point of 2000 steps |
| ActivityCharts.PointOf | front-end/components/ActivityCharts.tsx:14-20 | a point with the record's date, steps, calories and standing hours, and distance in km with no rounding |
| ActivityCharts.ChartData | front-end/components/ActivityCharts.tsx:11-20 | one point per record, no grouping or truncation, each the point of the record at its place in the sorted copy, in ascending date order |
| ActivityCharts.InPermutation | front-end/components/ActivityCharts.tsx:11-13 | every element of a sequence is also in any permutation of it |
| ActivityCharts.ChartCoversRecords | front-end/components/ActivityCharts.tsx:11-20 | every record has its point in the chart, and every point is some record's |
| ActivityCharts.Render | front-end/components/ActivityCharts.tsx:22-31 | the placeholder exactly when there are no records, otherwise the charts of `ChartData`: one point per record, in date order |
| Dashboard.CalculateProgress | front-end/src/App.tsx:107-109 | `min(current / goal * 100, 100)`: for any non-zero goal, of either sign, exactly the ratio when it is below 100 and 100 otherwise; for a positive goal, 100 exactly when the goal is reached; for a zero goal, 100, NaN or -Infinity by the sign of the value |
| Dashboard.RatioBelowHundred | front-end/src/App.tsx:107-109 | against a positive goal the percentage is below 100 exactly when the goal is not reached |
| Dashboard.TodayProgress | front-end/src/App.tsx:105-119 | all zero without records; otherwise each bar is the progress of `activities[0]` against the matching goal |
| Dashboard.TodayProgressFull | front-end/src/App.tsx:107-119 | with positive goals every bar is finite and at most 100, and full exactly when `activities[0]` reaches the goal |
| Dashboard.LevelColor | front-end/src/App.tsx:121-132 | green, yellow and red for the three levels, and gray exactly for every other text |
| Dashboard.LevelColorsDistinct | front-end/src/App.tsx:121-132 | the three levels get three different colours |
| Dashboard.MuscleGroupColorAsWritten | front-end/src/App.tsx:134-144 | the lookup as written: the table's colour for the six groups, an inherited member exactly for the twelve names `Object.prototype` provides in a browser |
| Dashboard.InheritedGroupNotAColor | front-end/src/App.tsx:143 | the group "toString" gets the inherited function and "__proto__" the prototype object, not a class text |
| Dashboard.MuscleGroupColor | front-end/src/App.tsx:134-144 | the table's colour for the six groups, gray exactly for every other name |
| Dashboard.MuscleGroupColorAgrees | front-end/src/App.tsx:134-144 | away from the inherited names, the code as written and the intended lookup agree |
| Dashboard.History | front-end/src/App.tsx:444 | `slice(0, 5)`: the first `min(5, n)` records, in their order |
| Dashboard.DashboardState.constructor | front-end/src/App.tsx:11-22 | the initial state: no user, no data, loading, panels closed; the saved user is whatever browser storage holds |
| Dashboard.DashboardState.StartLoading | front-end/src/App.tsx:36-39 | the synchronous start of `loadUserData`: loading on, error cleared, nothing else changed |
| Dashboard.DashboardState.RestoreSession | front-end/src/App.tsx:25-39 | a saved user becomes the logged-in user and its data starts loading (loading on, error cleared); with none saved, loading stops; nothing else changes |
| Dashboard.DashboardState.HandleLogin | front-end/src/App.tsx:36-60 | the user is logged in and saved for later sessions, and their data starts loading (loading on, error cleared); nothing else changes |
| Dashboard.DashboardState.HandleLogout | front-end/src/App.tsx:62-67 | no user, no activities, no workout plans, no saved user; every other field unchanged |
| Dashboard.DashboardState.CloseWorkoutDetail | front-end/src/App.tsx:84-87 | no selected workout and no exercises; every other field unchanged |

## Left out

- Date parsing and time zones are not modelled. A date is a day number, so `new Date(...)`, local time against the UTC `toISOString()` of the week key, and the possible one-day shift between them are outside the model.
- The week key is the day number of the week's Sunday, not its ISO date text. The text is a one-to-one image of the day, so grouping and order are the same.
- The chart labels (`toLocaleDateString('it-IT', …)`, `Sett. d/m`) are display text and are not modelled.
- The measured quantities of a record (steps, calories, standing hours, distance in metres) are whole numbers, the `int` fields of `Activity`; the source types them as `number`, so a fractional value such as 7.5 standing hours is not expressible in the model. Goals are whole numbers too.
- Numbers are exact: the model uses integers and reals, not IEEE doubles. Distance sums and `Math.round(x * 100) / 100` are exact reals, so floating-point rounding error is not captured.
- Unparseable dates are not modelled: every date is a valid day number. In the source such a date behaves differently per mode: daily mode charts it with an "Invalid Date" label, weekly mode throws a `RangeError` from `toISOString()` (StepAnalytics.tsx:43) so the whole memo fails, and monthly mode files it under the key "NaN-NaN".
- Month keys are compared for equality only; their text order is not chronological (MonthKeysNotInTextOrder), and the chronological order of the monthly chart comes from the sorted input, not from the keys.
- The input array is not reordered by construction: sequences are values, so the sorted copy cannot alias the caller's records.
- `localStorage` is the `savedUser` field of the dashboard state, given to the constructor; JSON encoding of the saved user is not modelled.
- Data loading beyond its synchronous start (`StartLoading`): the fetch of `loadUserData` and what it sets after its `await` (activities, plans, an error, loading off), opening a workout (`handleWorkoutClick`), `refreshData` and the `alert` of `handleStartWorkout` are network or browser I/O and are not modelled.
- recharts rendering, the chart-type and period selectors, `useMemo` caching and React re-rendering are not modelled.
- The backend (`backend/server.js`), `front-end/src/api.ts`, `Login.tsx`, `FitnessDashboard.tsx` and `WorkoutDetails.tsx` are not part of this model.

## Findings

| source | as written | input that shows it | evidently intended | confidence | as-written member | corrected member |
|---|---|---|---|---|---|---|
| front-end/src/App.tsx:134-144 | `colors[group] \|\| gray` also finds the members every object inherits from `Object.prototype` | the group "toString" (also "constructor", "valueOf", …) gets a function, and "__proto__" the prototype object, instead of a class text | gray for every group not in the six-entry table | medium, not executed | Dashboard.MuscleGroupColorAsWritten, Dashboard.InheritedGroupNotAColor | Dashboard.MuscleGroupColor |
