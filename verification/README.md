# Telemetry statistics: a Dafny model

This project models the page-view statistics endpoint of a small Next.js
application (`app/api/telemetry/route.ts`). The endpoint takes a `range`
selector (`hour`, `day`, `week`). It works out a time window ending now and
fetches the telemetry rows stored since the window start. It counts the rows
per stored `minuteTimestamp`, sorts the counts by time, and then walks the
window in fixed steps. The walk emits one `{timestamp, count}` point per step,
with 0 for keys that have no rows.

Modelling choices:

- Instants are integer milliseconds since the epoch. A key is kept as the
  instant it denotes. `toISOString` is injective on valid dates, so two keys
  are equal exactly when their instants are.
- Local time is UTC plus a fixed `offset` in milliseconds. `setSeconds(0, 0)`
  floors to the local minute and `setHours(0, 0, 0, 0)` to local midnight
  (`TimeKeys.Floor`). With an offset that is a whole number of minutes, the
  minute key is the UTC minute.
- The `range` parameter is missing, a single string, or an array of strings
  (`Window.QueryValue`). An array matches no `case` of the switch and no
  `===` comparison, so it behaves like any unrecognised string.
- The DynamoDB query is not modelled. The fetched rows are an input sequence
  of their stored `minuteTimestamp` keys.
- `aggregatedData` is a JavaScript `Map`, which keeps its keys in insertion
  order. It is modelled as `Aggregation.CountMap`: the key order plus the
  count table. So `statsData` can be stated to be a permutation of its
  entries.
- The sort is an insertion sort on keys (`Sorting.SortByTime`). The
  comparator only looks at the instants, and the keys of a `Map` are distinct.
  So every correct sort gives the same result.
- `fillMissingTimepoints` is modelled twice. `GapFill.Walk` is a recursive
  function and `GapFill.FillLoop` is the `while` loop with invariants.

Behaviour the model pins down, including quirks of the code. Three comments
in `route.ts` say what the code is meant to do, and the model follows the
code wherever it does something else:

- `// Default to hour` (`route.ts:51`) marks the `default` branch of the
  switch. It does give an unrecognised selector the one-hour window. But the
  step and the key still treat it differently from `hour` (first bullet below).
- `// Zero out hours for day precision` (`route.ts:139`) marks the `week`
  truncation. The key is indeed a local day. But the stored keys stay minutes,
  so a week bucket does not count the events of its day (second bullet below).
- `// Convert to sorted array` (`route.ts:90`) marks the conversion into
  `statsData`. The array is sorted (`Sorting.SortByTimeSorts`). But the fill
  only reads it through a lookup table, so its output does not depend on the
  order of its input (`GapFill.FillIgnoresOrder`).

The quirks themselves:

- A selector other than `hour`, `day` and `week` gets the one-hour window
  but the one-day step. `getTimeKey` also leaves its key untruncated. The
  answer is a single bucket keyed at the exact millisecond one hour before
  now (`Stats.UnrecognisedSingleBucket`).
- The fill only looks up keys that lie on its grid. A stored key off the grid
  is silently dropped (`GapFill.WalkIgnoresOffGrid`, `Stats.StatsTotal`).
  Under `week` the grid is local midnights, but stored keys are minutes. So
  every row not stored exactly at midnight is lost
  (`Stats.WeekDropsMinuteKeys`).
- The store filter is `minuteTimestamp >= startTime`, and the first bucket's
  key is the boundary at or before `startTime`. So that bucket is 0 unless the
  window starts exactly on a boundary (`Stats.FirstBucketBeforeFetch`). This
  assumes the store applies the key condition as written, comparing the ISO
  strings in time order. The query at `route.ts:58-66` has no partition-key
  equality, so a real store may reject it outright; that is not modelled.

## Model

| member | source | states |
|---|---|---|
| `Window.Selector` | app/api/telemetry/route.ts:34-52 | the selector is `hour` exactly when the parameter is missing or `"hour"`; it is `day` exactly for `"day"` and `week` exactly for `"week"`; every other value, arrays included, is unrecognised |
| `Window.Start` | app/api/telemetry/route.ts:37-52 | the window ends at now and starts before it, at most one week back; the exact start per parameter value is in `Window.StartByParameter` |
| `Window.StartByParameter` | app/api/telemetry/route.ts:37-52 | the window starts 3600000 ms before now for a missing parameter, `"hour"`, any other string and any array; 86400000 ms before now for `"day"`; 604800000 ms before now for `"week"` |
| `Window.Increment` | app/api/telemetry/route.ts:116 | the step is positive, and it is one minute exactly for `hour` and `day`; the exact step per parameter value is in `Window.IncrementByParameter` |
| `Window.IncrementByParameter` | app/api/telemetry/route.ts:116 | the walk steps 60000 ms for a missing parameter, `hour` and `day`, and 86400000 ms for `week`, any other string and any array; for an unrecognised selector the step is longer than the window |
| `TimeKeys.TimeKey` | app/api/telemetry/route.ts:133-142 | for `hour`/`day` the key is on the local minute grid and `t - 60000 < key <= t`; for `week` it is a local midnight and `t - 86400000 < key <= t`; otherwise it is `t` itself |
| `TimeKeys.TimeKeyIdempotent` | app/api/telemetry/route.ts:133-142 | keying a key returns it unchanged |
| `TimeKeys.TimeKeyIsLatestBoundary` | app/api/telemetry/route.ts:136-140 | every minute boundary (for `hour`/`day`) or local midnight (for `week`) at or before `t` is at or before the key, so the key is the latest one |
| `TimeKeys.TimeKeyMonotone` | app/api/telemetry/route.ts:133-142 | a later instant never gets an earlier key |
| `TimeKeys.TimeKeyStep` | app/api/telemetry/route.ts:116-142 | moving the instant by one step of the walk moves its key by exactly that step, for every selector |
| `TimeKeys.Floor` | app/api/telemetry/route.ts:137-139 | local `setSeconds(0, 0)` / `setHours(0, 0, 0, 0)`: the result lies on the local grid of the unit and in `(t - unit, t]`, which makes it unique by `TimeKeys.FloorUnique` |
| `TimeKeys.FloorUnique` | app/api/telemetry/route.ts:137-139 | the only grid point in `(t - unit, t]` is the truncation of `t` |
| `Aggregation.CountMap.Set` | app/api/telemetry/route.ts:83-86 | setting a key keeps the map well formed and stores the new count under the key; every other key keeps its count, the old order stays a prefix of the new one and at most one key is appended, so an existing key keeps its place and a new key goes last; what the aggregation builds with it is in `Aggregation.Aggregate` |
| `Aggregation.CountMap.Entries` | app/api/telemetry/route.ts:91-92 | one point per key, in insertion order, each carrying that key's count, with no key twice |
| `Aggregation.Aggregate` | app/api/telemetry/route.ts:78-88 | the map's keys are exactly the fetched keys, each counted as often as it occurs among the rows (so at least 1), and its key order lists each key once |
| `Aggregation.AggregateTotal` | app/api/telemetry/route.ts:78-88 | the counts of the aggregated entries add up to the number of fetched rows |
| `Aggregation.EntriesToMap` | app/api/telemetry/route.ts:91-92 | rebuilding a table from the map's entries gives back the map's counts |
| `Sorting.SortByTime` | app/api/telemetry/route.ts:91-93 | the sort keeps the number of points; that it returns a permutation in time order is in `Sorting.SortByTimeSorts` |
| `Sorting.SortByTimeSorts` | app/api/telemetry/route.ts:91-93 | the sort returns a permutation of its input in non-decreasing time order, strictly increasing when the keys are distinct |
| `Series.ToMap` | app/api/telemetry/route.ts:113 | the table's keys are exactly the keys of the points; the count it holds per key is in `Series.ToMapHolds` and `Series.ToMapPermutation` |
| `Series.Lookup` | app/api/telemetry/route.ts:122 | the looked-up count is nonzero exactly when the key is stored with a nonzero count, and then it is that count; missing keys and stored zeros both give 0 |
| `Series.ToMapHolds` | app/api/telemetry/route.ts:113 | with distinct keys, the lookup table built from a series holds each point's own count |
| `Series.ToMapPermutation` | app/api/telemetry/route.ts:113 | two orderings of the same distinct-key points build the same lookup table |
| `Series.TotalCountsOccurrences` | app/api/telemetry/route.ts:78-88 | points with distinct keys whose counts are occurrence counts add up to the number of rows whose key they cover |
| `GapFill.Walk` | app/api/telemetry/route.ts:115-127 | the walk emits `(end - start) / step + 1` points when `start <= end` and none otherwise; point `i` is keyed `getTimeKey(start + i * step)` and carries the table's count for that key, or 0 |
| `GapFill.FillMissingTimepoints` | app/api/telemetry/route.ts:106-130 | the fill over `data` emits the walk's number of points, point `i` keyed at step `i` with the count the table built from `data` holds for that key, or 0; that the order of `data` does not matter is in `GapFill.FillIgnoresOrder` |
| `GapFill.FillLoop` | app/api/telemetry/route.ts:106-130 | the `while` loop emits the same number of points, with the same keys and counts, as the walk |
| `GapFill.FillLoopAgrees` | app/api/telemetry/route.ts:106-130 | any series meeting the loop's contract equals the recursive fill, so the loop and the recursion agree |
| `GapFill.StepsUnfold` | app/api/telemetry/route.ts:118-126 | taking one step of the loop leaves exactly one step fewer |
| `GapFill.WalkLastKey` | app/api/telemetry/route.ts:116-126 | a window of exactly `n` steps gives `n + 1` points, the last keyed at the window's end |
| `GapFill.WalkKeysStep` | app/api/telemetry/route.ts:116-126 | consecutive output keys differ by exactly one step |
| `GapFill.WalkKeysArithmetic` | app/api/telemetry/route.ts:116-126 | output key `i` is the first key plus `i` steps |
| `GapFill.WalkStrictlyAscending` | app/api/telemetry/route.ts:118-126 | output keys strictly increase |
| `GapFill.WalkIgnoresOffGrid` | app/api/telemetry/route.ts:119-122 | adding, changing or removing a table key that no step lands on leaves the output unchanged |
| `GapFill.FillIgnoresOrder` | app/api/telemetry/route.ts:113 | the fill gives the same output for every ordering of distinct-key input points |
| `GapFill.WeekEmitsMidnightsOnly` | app/api/telemetry/route.ts:138-139 | under `week` no output key is off local midnight |
| `GapFill.WeekZeroWithoutMidnights` | app/api/telemetry/route.ts:119-122 | under `week`, a table with no key at local midnight yields only zero counts |
| `Stats.StatsSeries` | app/api/telemetry/route.ts:34-96 | the answer is never empty and opens with the bucket that holds the window start; its counts, keys and length are in `Stats.StatsCounts`, `Stats.StatsKeys` and `Stats.BucketCounts` |
| `Stats.StatsData` | app/api/telemetry/route.ts:91-93 | `statsData` has one point per distinct fetched key; its order, contents and total are in `Stats.StatsDataSorted` and `Stats.StatsTable` |
| `Stats.StatsDataSorted` | app/api/telemetry/route.ts:91-93 | `statsData` is a permutation of the aggregated entries, in strictly increasing time, and its counts add up to the number of rows |
| `Stats.StatsTable` | app/api/telemetry/route.ts:113 | the fill's `dataMap` built from `statsData` equals the aggregation map |
| `Stats.StatsSeriesIsWalk` | app/api/telemetry/route.ts:91-96 | the answer is the walk over the window, with the aggregation as its table |
| `Stats.StatsCounts` | app/api/telemetry/route.ts:78-122 | every bucket's count is the number of fetched rows whose stored key equals the bucket key, and 0 when there are none |
| `Stats.BucketCounts` | app/api/telemetry/route.ts:37-127 | the answer has 61 buckets for `hour`, 1441 for `day`, 8 for `week` and 1 for any other selector |
| `Stats.StatsKeys` | app/api/telemetry/route.ts:96-126 | bucket `i` is keyed at the `i`-th step from the window start; keys are one step apart and strictly increasing |
| `Stats.LastBucketIsNow` | app/api/telemetry/route.ts:116-139 | for `hour` and `day` the last bucket is the minute that holds now; for `week` it is the local day that holds now |
| `Stats.StatsTotal` | app/api/telemetry/route.ts:78-127 | the bucket counts add up to the number of fetched rows whose key is a bucket key; all other rows are dropped |
| `Stats.StatsTotalOnGrid` | app/api/telemetry/route.ts:78-127 | when every fetched key is a bucket key, the counts add up to the number of fetched rows |
| `Stats.UnrecognisedSingleBucket` | app/api/telemetry/route.ts:50-51 | an unrecognised selector yields one bucket, keyed exactly one hour before now, counting only rows stored at that millisecond |
| `Stats.WeekDropsMinuteKeys` | app/api/telemetry/route.ts:138-139 | under `week`, when no fetched key is a local midnight, all 8 buckets are 0 |
| `Stats.FirstBucketBeforeFetch` | app/api/telemetry/route.ts:62-64 | when every fetched key is at or after the window start and the start is not on a boundary, the first bucket is 0 |
| `Stats.OneVisitThisMinute` | app/api/telemetry/route.ts:96-127 | one row in the current minute under `hour` (or with no range given) gives 61 buckets: the last is 1 and the others are 0 |
| `Stats.TwoVisitsAMinuteApart` | app/api/telemetry/route.ts:96-127 | rows in the current and the previous minute under `hour` (or with no range given) give 1 in the last two buckets and 0 in the others |
| `Stats.NoRowsWeek` | app/api/telemetry/route.ts:96-127 | no fetched rows under `week` gives 8 buckets, all 0 |

## Left out

- DynamoDB client set-up, building the `QueryCommand` and sending it
  (`route.ts:7-16`, `58-75`) are external I/O. Several things follow from
  that and are not modelled: the page filter, the string comparison in the
  key condition, and pagination of large results. The fetched rows are an
  input. Only the key-condition bound is used, as the precondition of
  `Stats.FirstBucketBeforeFetch`.
- HTTP handling is framework glue and is not modelled: the 405 for non-GET
  requests, the 500 on any thrown error, and `res.json`.
- `toISOString` formatting is abstracted to the instant it prints. So is
  parsing the stored key in the sort comparator. A stored key that is not a
  valid date string (`NaN` in the comparator, `"undefined"` for a missing
  attribute) is not modelled. Nor are dates outside the valid JavaScript
  range, where `toISOString` throws.
- Time zones with daylight saving are not modelled. `setHours` and `setDate`
  in local time are taken at one fixed offset, so an hour is always 3600000 ms
  and a day 86400000 ms.
- Stored keys are assumed to use the same string format that `getTimeKey`
  produces. The code that writes the rows is not part of this model.
- The dashboard page, the transaction link encoder/decoder and the wallet
  SDK calls are UI or foreign code and are not modelled.
