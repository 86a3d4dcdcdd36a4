# NYC taxi trip pipeline — a Dafny model

`taxi_pipeline.py` is a single Spark script that reads a month of yellow-cab trip records
and derives a set of reports from them. This project models its transformation core as
pure Dafny functions over a sequence of trip records and proves the properties the
script relies on.

The model follows the script's stages:

- **Cleaning** (module `Cleaning`). The filter keeps a trip iff `passenger_count > 0`,
  `0 < trip_distance < 100` and `total_amount >= 2.50`. It also produces the
  before/after/removed counters and the removed percentage.
- **Enrichment** (module `Enrichment`). It adds the trip duration in minutes (not
  clamped, so it can be negative), the pickup hour and weekday, and the fare per mile.
- **Anomaly detection** (module `Anomaly`).
  - `percent_rank()` is computed over a window partitioned by hour of day and ordered
    by total amount.
  - The rank is SQL `RANK()`: one more than the number of strictly smaller amounts in
    the same hour, so tied amounts share a rank.
  - The percentile is `(rank - 1) / (n - 1)`, and 0 in a one-trip hour.
  - `is_anomaly` is 1 outside [0.05, 0.95], and `anomalies` keeps the flagged rows.
- **Segmentation** (module `Segmentation`). The three first-match-wins `when/otherwise`
  cascades are modelled as total functions into enumerations with the script's labels:
  trip type, time period and distance bucket.
- **Reports** (module `Reports`). These are the six `groupBy(...).agg(...)` reports,
  each optionally followed by `orderBy`. They are built on:
  - a generic grouping engine (module `Aggregation`): distinct keys in order of first
    appearance, per-key selection, and counts;
  - a stable insertion sort under any total preorder (module `Sorting`);
  - lexicographic string order and (hour, weekday) order (module `Ordering`);
  - `avg`, `max` and the sample variance under `stddev` (module `Statistics`).
- **Pipeline** (module `Pipeline`). It ties the stages together: every report's counts
  add up to the number of trips cleaning kept.

Representation choices:

- Amounts and distances are `real`, so thresholds such as 2.50 are exact.
- Pickup and dropoff are integer epoch seconds.
- The pickup hour (0-23) and weekday (1-7, 1 = Sunday, as Spark's `dayofweek` numbers
  them) are fields of the raw record.
- Quotients of counts (the removed percentage and `percent_rank`) go through
  `Ratios.Fraction`; the other divisions (averages, variance, duration, fare per mile)
  are plain real division.

Choices that follow the script where another reading is possible:

- **Ties in the percentile window.** `percent_rank()` gives tied amounts the same rank,
  so no tie-breaker is needed.
- **Thresholds.** The script hard-codes its thresholds, and the model keeps them as
  constants: `Cleaning.MinAmount`, `Cleaning.MaxDistance`, `Anomaly.LowCutoff`,
  `Anomaly.HighCutoff`, and the cascades' literals.
- **Empty input.** With no input row, `removed/before*100` raises ZeroDivisionError. The
  model makes that error path explicit as `None` (`Cleaning.PercentOf`). The script
  stops at taxi_pipeline.py:17 in that case, so no later stage runs; the model goes
  on and builds six empty reports, for which `Pipeline.ReportsCountCleanTrips` holds
  trivially.
- **Timestamps.** The model does not parse timestamps (see below).

## Model

| member | source | states |
|---|---|---|
| Cleaning.Clean | taxi_pipeline.py:7-12 | the kept rows are input rows that pass all four tests, and there are no more of them than input rows |
| Cleaning.IsClean | taxi_pipeline.py:8-11 | the four row tests: passenger_count > 0, 0 < trip_distance < 100, total_amount >= 2.50 |
| Cleaning.CleanExact | taxi_pipeline.py:7-12 | a trip is in the cleaned table iff it is in the input and passes all four tests |
| Cleaning.Rejected | taxi_pipeline.py:7-12 | the dropped rows are input rows that fail a test |
| Cleaning.CleanPartition | taxi_pipeline.py:7-14 | kept and dropped rows together are exactly the input rows, with multiplicity |
| Cleaning.CleanCount | taxi_pipeline.py:13-14 | after + removed == before |
| Cleaning.CleanIdempotent | taxi_pipeline.py:7-12 | cleaning a cleaned table changes nothing |
| Cleaning.AllCleanKept | taxi_pipeline.py:7-12 | a table of valid trips is kept whole and nothing is removed |
| Cleaning.CleanAppend | taxi_pipeline.py:7-12 | the filter works row by row: cleaning a concatenation concatenates the cleaned parts |
| Cleaning.RejectedAppend | taxi_pipeline.py:7-12 | the same for the dropped rows |
| Cleaning.CleaningStats | taxi_pipeline.py:6-17 | before, after and removed counters; after <= before; removed == before - after; percentage defined iff before > 0, in [0, 100], with pct * before == 100 * removed |
| Cleaning.PercentOf | taxi_pipeline.py:17 | `removed / before * 100` is undefined (the script's ZeroDivisionError) iff before == 0, and otherwise lies in [0, 100] and times before gives 100 * removed |
| Cleaning.OneBadRowInHundred | taxi_pipeline.py:6-17 | 100 rows with one zero-passenger trip give 100 / 99 / 1 / 1.0 % |
| Cleaning.OnlyOneRejected | taxi_pipeline.py:7-12 | a table with exactly one invalid row drops exactly that row |
| Enrichment.Enrich | taxi_pipeline.py:18-34 | duration * 60 == dropoff - pickup seconds, negative iff dropoff precedes pickup; hour and weekday come from the pickup; fare_per_mile * distance == amount, which is defined because cleaning guarantees distance > 0, and exceeds 2.50 / 100 |
| Enrichment.EnrichAll | taxi_pipeline.py:18-34 | the enriched table is the cleaned table mapped row for row |
| Enrichment.EnrichedTable | taxi_pipeline.py:18-34 | `df_enriched`: the enrichment of the cleaned table, row for row (its rows are characterized by EnrichedTableRows) |
| Enrichment.EnrichedTableRows | taxi_pipeline.py:7-34 | a row is in the enriched table iff it is the enrichment of some valid input trip |
| Ratios.Fraction | taxi_pipeline.py:57 | part / whole is in [0, 1], times whole gives part, is 0 iff part is 0 and is 1 iff part is the whole |
| Ratios.FractionMonotone | taxi_pipeline.py:57 | a larger part of the same whole is a larger fraction, strictly when strictly larger |
| Anomaly.HourPartition | taxi_pipeline.py:55 | the window partition of an hour holds input rows of that hour only |
| Anomaly.HourCount | taxi_pipeline.py:55-57 | the partition size n of `percent_rank`: the number of rows of the hour (equal to the partition's length by CountsArePartitionCounts) |
| Anomaly.CountsArePartitionCounts | taxi_pipeline.py:55 | the size of an hour and the number of amounts below a value are counted inside that hour's partition alone |
| Anomaly.BelowCount | taxi_pipeline.py:55-57 | the number of strictly smaller amounts in an hour is at most the hour's size |
| Anomaly.BelowCountExcludesSelf | taxi_pipeline.py:55-57 | a row's own amount is not below itself, so fewer rows than the hour's size precede it |
| Anomaly.Rank | taxi_pipeline.py:55-57 | RANK() lies between 1 and the hour's row count |
| Anomaly.PercentRank | taxi_pipeline.py:55-57 | percent_rank lies in [0, 1], is 0 in a one-row hour, and otherwise times (n - 1) equals rank - 1 |
| Anomaly.PercentileIsLocal | taxi_pipeline.py:55-57 | two rows with the same hour, amount and hour partition get the same percentile, whatever else the tables hold |
| Anomaly.SameCountsSamePercentRank | taxi_pipeline.py:55-57 | percent_rank depends only on the hour's size and the number of smaller amounts in it |
| Anomaly.PercentRankOrdersByAmount | taxi_pipeline.py:55-57 | within an hour, a smaller amount never gets a larger percentile; a strictly larger amount gets a strictly larger one; equal amounts tie |
| Anomaly.BelowCountMonotone | taxi_pipeline.py:55-57 | raising the threshold never lowers the count below it |
| Anomaly.BelowCountStrict | taxi_pipeline.py:55-57 | a row of the hour between the two thresholds makes the count strictly larger |
| Anomaly.BelowCountNone | taxi_pipeline.py:55-57 | no amount of the hour below the value gives count 0 |
| Anomaly.BelowCountAll | taxi_pipeline.py:55-57 | every amount of the hour below the value gives the hour's size |
| Anomaly.BelowCountAllButOne | taxi_pipeline.py:55-57 | all but one amount of the hour below the value gives the hour's size minus one |
| Anomaly.HourCountAll | taxi_pipeline.py:55 | a table of a single hour is that hour's whole partition |
| Anomaly.AnomalyFlag | taxi_pipeline.py:59 | the flag is 0 or 1, and 1 iff the percentile is below 0.05 or above 0.95 |
| Anomaly.WithPercentile | taxi_pipeline.py:56-60 | one annotated row per enriched row, in order, with its percent_rank in [0, 1] and the flag set iff it is outside [0.05, 0.95] |
| Anomaly.Anomalies | taxi_pipeline.py:62 | the result holds only flagged rows of the input |
| Anomaly.AnomaliesExact | taxi_pipeline.py:62 | a row is an anomaly iff it is an input row with flag 1 |
| Anomaly.AnomaliesAppend | taxi_pipeline.py:62 | the filter distributes over concatenation, so every flagged row is kept, with its multiplicity, in input order |
| Anomaly.AnomaliesCount | taxi_pipeline.py:62-63 | the size of `anomalies` is the number of positions whose flag is 1 |
| Anomaly.MinimumFareFlagged | taxi_pipeline.py:55-60 | a cheapest trip of its hour has percentile 0 and is always flagged |
| Anomaly.UniqueMaximumFlagged | taxi_pipeline.py:55-60 | a strictly most expensive trip of its hour has percentile 1 (0 if alone) and is always flagged |
| Anomaly.OutlierInFiveRows | taxi_pipeline.py:55-60 | an hour with amounts 10, 20, 30, 40, 1000 gives the 1000 row percentile 1.0 and flags it |
| Segmentation.TripTypeOf | taxi_pipeline.py:66-72 | the trip type is the first matching branch of the cascade: each label's region is its own test and the negation of every earlier one |
| Segmentation.TripTypeRegionsDisjoint | taxi_pipeline.py:68-71 | no (distance, amount) lies in two trip-type regions, so the cascade is a function |
| Segmentation.TripTypeCases | taxi_pipeline.py:68-71 | 0.5 mi for 8 is Short Local; 5 <= d < 15 is Long Distance whatever the fare; d < 1 with fare >= 10, or 1 <= d < 5 with fare >= 20, or d >= 15 fall through to Very Long |
| Segmentation.TripType.Label | taxi_pipeline.py:68-71 | the `trip_type` strings: Short Local, Medium Local, Long Distance, Very Long (kept distinct by LabelsInjective) |
| Segmentation.TimePeriodOf | taxi_pipeline.py:82-88 | every hour gets exactly the period whose interval holds it: [5,12) Morning, [12,17) Afternoon, [17,21) Evening, else Night |
| Segmentation.PeriodsDisjoint | taxi_pipeline.py:84-87 | no hour lies in two periods |
| Segmentation.TimePeriodCases | taxi_pipeline.py:84-87 | hour 6 is Morning; hours 21 and 23 are Night |
| Segmentation.TimePeriod.Label | taxi_pipeline.py:84-87 | the `time_period` strings: Morning, Afternoon, Evening, Night |
| Segmentation.DistanceBucketOf | taxi_pipeline.py:108-115 | the bucket is the first inclusive upper bound (1, 2, 5, 10) the distance does not exceed, else 10+ |
| Segmentation.BucketsDisjoint | taxi_pipeline.py:110-114 | no distance lies in two buckets |
| Segmentation.BucketMonotone | taxi_pipeline.py:110-114 | a longer trip never falls in a lower bucket |
| Segmentation.DistanceBucketCases | taxi_pipeline.py:110-114 | 1.0 mi is "0-1 mi" and 3.0 mi is "2-5 mi" |
| Segmentation.DistanceBucket.Label | taxi_pipeline.py:110-114 | the `distance_bucket` strings: 0-1 mi, 1-2 mi, 2-5 mi, 5-10 mi, 10+ mi |
| Segmentation.LabelsInjective | taxi_pipeline.py:66-115 | distinct categories carry distinct labels, so grouping by label is grouping by category |
| Segmentation.DistanceLabelOrder | taxi_pipeline.py:110-119 | the report's string order is "0-1 mi" < "1-2 mi" < "10+ mi" < "2-5 mi" < "5-10 mi" |
| Segmentation.TimePeriodLabelOrder | taxi_pipeline.py:84-94 | the report's string order is Afternoon < Evening < Morning < Night |
| Ordering.StrLe | taxi_pipeline.py:94 | the string order `orderBy` applies to labels: a prefix first, else the first differing character decides (its laws are the StrLe lemmas below) |
| Ordering.StrLt | taxi_pipeline.py:119 | strictly before in that order |
| Ordering.StrLeReflexive | taxi_pipeline.py:94 | lexicographic order is reflexive |
| Ordering.StrLeTotal | taxi_pipeline.py:94 | any two strings are comparable |
| Ordering.StrLeTransitive | taxi_pipeline.py:94 | lexicographic order is transitive |
| Ordering.StrLeAntisymmetric | taxi_pipeline.py:94 | strings ordered both ways are equal |
| Ordering.StrLeIsPreorder | taxi_pipeline.py:119 | lexicographic string order is a total preorder |
| Ordering.PairLe | taxi_pipeline.py:43 | `orderBy("hour_of_day", "day_of_week")`: by hour, then by weekday (a total preorder by PairLeIsPreorder) |
| Ordering.PairLt | taxi_pipeline.py:43 | strictly before in that order |
| Ordering.PairLeIsPreorder | taxi_pipeline.py:43 | (hour, weekday) order is a total preorder |
| Ordering.SortedDistinctPairs | taxi_pipeline.py:43 | sorted distinct (hour, weekday) keys strictly increase |
| Ordering.SortedDistinctStrings | taxi_pipeline.py:94 | sorted distinct labels strictly increase |
| Sorting.Insert | taxi_pipeline.py:43 | inserting adds exactly the new element |
| Sorting.SortBy | taxi_pipeline.py:43 | `orderBy` permutes its input |
| Sorting.InsertSorted | taxi_pipeline.py:43 | insertion keeps a sorted sequence sorted |
| Sorting.SortBySorted | taxi_pipeline.py:43 | under a total preorder the result is sorted |
| Sorting.InsertDistinct | taxi_pipeline.py:43 | inserting a new key keeps the keys distinct |
| Sorting.SortByDistinct | taxi_pipeline.py:43 | sorting distinct keys keeps them distinct |
| Aggregation.Select | taxi_pipeline.py:38 | a group holds input rows carrying its key, and no more rows than the input (its multiplicities and order are fixed by SelectMultiplicity and SelectAppend) |
| Aggregation.SelectHasMember | taxi_pipeline.py:38 | every row belongs to the group of its own key |
| Aggregation.SelectAppend | taxi_pipeline.py:38-42 | grouping works row by row: the group of a concatenation is the groups of the parts concatenated, so a group keeps its rows in input order |
| Aggregation.SelectMultiplicity | taxi_pipeline.py:38-42 | a group holds each row carrying its key exactly as many times as the input does, and no other row, so `count("*")` and `avg` see every row of the group once |
| Aggregation.GroupKeys | taxi_pipeline.py:99 | the group keys are distinct, every row's key is among them and no group is empty |
| Aggregation.GroupKeysStep | taxi_pipeline.py:99 | adding one row keeps those three facts |
| Aggregation.OccursOnce | taxi_pipeline.py:99 | a key of a distinct key list occurs once in it |
| Aggregation.OccursNever | taxi_pipeline.py:99 | a key outside the key list does not occur in it |
| Aggregation.KeyCountTotalAppend | taxi_pipeline.py:99-103 | appending a row adds to the total the number of times its key occurs in the key list, which is one for a distinct list that holds it and zero when the key is absent |
| Aggregation.GroupCountsPartition | taxi_pipeline.py:99-103 | over distinct keys covering the input, the group sizes add up to the input size |
| Aggregation.SortedGroupKeys | taxi_pipeline.py:38-43 | the ordered group keys are distinct, cover every row, have non-empty groups whose sizes add up to the input size, and are sorted under a total preorder |
| Aggregation.SortedUnderPreorder | taxi_pipeline.py:43 | a sort under a total preorder yields sorted output |
| Aggregation.LargerGroupIsPreorder | taxi_pipeline.py:77 | ordering keys by descending group size is a total preorder |
| Aggregation.LargerGroup | taxi_pipeline.py:77 | `orderBy(desc("trip_count"))`, here and again for `hourly_demand` at taxi_pipeline.py:128: a key sorts first when its group is at least as large (a total preorder by LargerGroupIsPreorder) |
| Aggregation.RowCountsTotal | taxi_pipeline.py:42 | rows whose counts are their groups' sizes sum to the groups' total |
| Aggregation.Column | taxi_pipeline.py:38-43 | one column of a report: as many entries as rows, each the row's value |
| Statistics.Mean | taxi_pipeline.py:40 | `avg` times the row count is the column's sum |
| Statistics.Sum | taxi_pipeline.py:39-41 | the column total that `avg` divides; SumAtMost and SumOfConstant bound and evaluate it |
| Statistics.Max | taxi_pipeline.py:93 | `max` bounds every value of the group and is one of them |
| Statistics.SumAtMost | taxi_pipeline.py:91-93 | a bound on each value bounds the sum by count times bound |
| Statistics.MeanAtMost | taxi_pipeline.py:91 | a bound on each value bounds the average |
| Statistics.MeanAtMostMax | taxi_pipeline.py:91-93 | avg_fare never exceeds max_fare |
| Statistics.SquaredDeviations | taxi_pipeline.py:92 | the sum of squared deviations is non-negative |
| Statistics.SampleVariance | taxi_pipeline.py:92 | the variance under `stddev` is undefined (Spark's null) iff the group has fewer than two rows, and non-negative otherwise |
| Statistics.SumOfConstant | taxi_pipeline.py:90-93 | a constant column sums to count times the constant and has no deviation |
| Statistics.ConstantGroup | taxi_pipeline.py:90-93 | a group of equal fares has that fare as mean and maximum and, with two rows or more, variance 0 |
| Reports.TripTypeKey | taxi_pipeline.py:66-72 | the `trip_type` column of a row: the label of the cascade's trip type for its distance and amount |
| Reports.TimePeriodKey | taxi_pipeline.py:82-88 | the `time_period` column of a row: the label of its pickup hour's period |
| Reports.DistanceBucketKey | taxi_pipeline.py:108-115 | the `distance_bucket` column of a row: the label of its distance's bucket |
| Reports.HourDaySummary | taxi_pipeline.py:38-43 | `df_summary`: the report is empty iff the enriched table is; its rows are characterized by HourDaySummaryKeys, HourDaySummaryValues and HourDaySummaryTotal |
| Reports.SummaryRowOf | taxi_pipeline.py:38-42 | the row of one (hour, weekday) group: its key, the means of distance, fare and duration, and its size |
| Reports.HourDaySummaryKeys | taxi_pipeline.py:38-43 | one `df_summary` row per (hour, weekday) present, strictly ascending by hour then weekday |
| Reports.HourDaySummaryValues | taxi_pipeline.py:38-42 | each row's trip_count is its group's size (> 0) and its three averages are the group's means |
| Reports.HourDaySummaryTotal | taxi_pipeline.py:38-43 | the trip counts add up to the number of trips |
| Reports.SegmentAnalysis | taxi_pipeline.py:73-77 | `segment_analysis`: empty iff the table is; rows characterized by the three SegmentAnalysis lemmas |
| Reports.SegmentRowOf | taxi_pipeline.py:73-76 | the row of one trip type: its label, size, mean fare and mean distance |
| Reports.SegmentAnalysisKeys | taxi_pipeline.py:73-77 | one `segment_analysis` row per trip type present, distinct, with non-increasing trip_count |
| Reports.SegmentAnalysisValues | taxi_pipeline.py:73-76 | each row's trip_count is its type's size (> 0) and its averages are the type's mean fare and distance |
| Reports.SegmentAnalysisTotal | taxi_pipeline.py:73-77 | the trip counts add up to the number of trips |
| Reports.TemporalSummary | taxi_pipeline.py:89-94 | `temporal_summary`: empty iff the table is; rows characterized by the three TemporalSummary lemmas |
| Reports.TemporalSummaryKeys | taxi_pipeline.py:89-94 | one `temporal_summary` row per time period present, strictly ascending by label |
| Reports.TemporalSummaryValues | taxi_pipeline.py:89-93 | each row's trips is its period's size (> 0); avg_fare, fare variance and max_fare are the period's mean, sample variance and maximum; avg <= max; the variance is undefined iff the period has one trip |
| Reports.TemporalSummaryTotal | taxi_pipeline.py:89-94 | the trip counts add up to the number of trips |
| Reports.PaymentAnalysis | taxi_pipeline.py:99-103 | `payment_analysis`: empty iff the table is; rows characterized by the three PaymentAnalysis lemmas |
| Reports.PaymentRowOf | taxi_pipeline.py:99-102 | the row of one payment type: its code, size, mean fare and mean distance |
| Reports.PaymentAnalysisKeys | taxi_pipeline.py:99-103 | one `payment_analysis` row per payment type present, all distinct |
| Reports.PaymentAnalysisValues | taxi_pipeline.py:99-103 | each row's transaction_count is its type's size (> 0) and its averages are the type's mean fare and distance |
| Reports.PaymentAnalysisTotal | taxi_pipeline.py:99-103 | the transaction counts add up to the number of trips |
| Reports.DistanceSummary | taxi_pipeline.py:116-119 | `distance_summary`: empty iff the table is; rows characterized by the three DistanceSummary lemmas |
| Reports.DistanceRowOf | taxi_pipeline.py:116-118 | the row of one distance bucket: its label, size and mean fare |
| Reports.DistanceSummaryKeys | taxi_pipeline.py:116-119 | one `distance_summary` row per bucket present, strictly ascending by label string |
| Reports.DistanceSummaryValues | taxi_pipeline.py:116-118 | each row's trip_count is its bucket's size (> 0) and avg_fare the bucket's mean fare |
| Reports.DistanceSummaryTotal | taxi_pipeline.py:116-119 | the trip counts add up to the number of trips |
| Reports.HourlyDemand | taxi_pipeline.py:125-128 | `hourly_demand`: empty iff the table is; rows characterized by the three HourlyDemand lemmas |
| Reports.HourlyRowOf | taxi_pipeline.py:125-127 | the row of one pickup hour: the hour, its size and mean fare |
| Reports.HourlyDemandKeys | taxi_pipeline.py:125-128 | one `hourly_demand` row per pickup hour present, distinct, with non-increasing trip_count |
| Reports.HourlyDemandValues | taxi_pipeline.py:125-127 | each row's trip_count is its hour's size (> 0) and avg_fare the hour's mean fare |
| Reports.HourlyDemandTotal | taxi_pipeline.py:125-128 | the trip counts add up to the number of trips |
| Reports.TemporalRowOf | taxi_pipeline.py:89-93 | a period's row has avg_fare <= max_fare |
| Pipeline.ReportsCountCleanTrips | taxi_pipeline.py:6-128 | every report's counts add up to the cleaning step's `after` counter |

## Left out

- Reading the Parquet file, `count`, `printSchema`, `show`, `print` and the banner text
  (taxi_pipeline.py:2-5, 15-17, 36-37, 45-54, 63-64, 79-80, 95-96, 104-105, 121-122,
  130-151). These are input and output. The "168" and "281K" in the final banner are
  literal text, not computed values.
- Timestamp parsing and calendar extraction (`to_timestamp`, `unix_timestamp`, `hour`,
  `dayofweek`, taxi_pipeline.py:19-30). These are time-zone-dependent library calls, so
  a trip carries epoch seconds, its pickup hour and its pickup weekday. An unparseable
  timestamp, which Spark turns into null, is therefore not modelled.
- `stddev` (taxi_pipeline.py:92) needs a square root, so the model states its square,
  the sample variance. It is undefined for a one-trip group, as Spark's null is.
- Floating-point rounding. Amounts, distances, averages and percentiles are exact
  reals, so results that depend on IEEE double rounding are not captured.
- SQL null semantics. Every field is present, so a null that would make the cleaning
  filter reject a row does not arise.
- Spark's lazy, distributed execution (partitions, shuffles, caching). It does not
  change the results modelled here.
- Reports.SegmentAnalysisKeys: the order among trip types with equal counts is not
  specified by the script. The model sorts stably, so the earliest-seen key comes
  first, and the contract promises only non-increasing counts.
- Reports.HourlyDemandKeys: the same holds for hours with equal trip counts.
- Reports.PaymentAnalysisKeys: the script does not sort this report, so its row order
  is unspecified. The model keeps keys in order of first appearance, and the contract
  promises only distinct keys.
- Anomaly.WithPercentile: the window returns rows in partition order; the model keeps
  input order, and the rows are the same.
- The display limits of `show(n)`, for example the ten busiest hours at
  taxi_pipeline.py:131, are output only.
