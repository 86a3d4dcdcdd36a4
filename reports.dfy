/**
 * The six grouped reports of the script, each `groupBy(key).agg(...)` followed, where
 * the script has one, by `orderBy`: hour-and-weekday summary (taxi_pipeline.py lines
 * 38-43), trip segments (73-77), time periods (89-94), payment types (99-103), distance
 * buckets (116-119) and hourly demand (125-128).
 */
module Reports {
  import opened Options
  import opened Ordering
  import opened Aggregation
  import opened Statistics
  import opened Enrichment
  import opened Segmentation

  function Distance(e: Enriched): real { e.trip.tripDistance }
  function Duration(e: Enriched): real { e.tripDurationMin }

  /** The grouping columns of the six reports, computed from an enriched row (the cascades' columns are their labels). */
  function HourDayKey(e: Enriched): (int, int) { (e.hourOfDay as int, e.dayOfWeek as int) }
  function TripTypeKey(e: Enriched): string { TripTypeOf(Distance(e), Fare(e)).Label() }
  function TimePeriodKey(e: Enriched): string { TimePeriodOf(e.hourOfDay).Label() }
  function PaymentKey(e: Enriched): int { e.trip.paymentType }
  function DistanceBucketKey(e: Enriched): string { DistanceBucketOf(Distance(e)).Label() }
  function HourKey(e: Enriched): int { e.hourOfDay }

  // ---------------------------------------------------------------- df_summary

  /** A row of `df_summary`. */
  datatype SummaryRow = SummaryRow(
    hourOfDay: int, dayOfWeek: int, avgDistance: real, avgFare: real, avgDuration: real, tripCount: nat)

  function SummaryTripCount(r: SummaryRow): nat { r.tripCount }

  /** The grouping key a `SummaryRow` carries. */
  function SummaryRowKey(r: SummaryRow): (int, int) { (r.hourOfDay, r.dayOfWeek) }

  function SummaryRowOf(es: seq<Enriched>, k: (int, int)): SummaryRow
    requires |Select(es, HourDayKey, k)| > 0
  {
    var g := Select(es, HourDayKey, k);
    SummaryRow(k.0, k.1, Mean(g, Distance), Mean(g, Fare), Mean(g, Duration), |g|)
  }

  /** `df_summary`: the rows of the (hour, weekday) keys in ascending order. */
  function HourDaySummary(es: seq<Enriched>): (rows: seq<SummaryRow>)
    ensures |rows| == 0 <==> |es| == 0
  {
    var ks := SortedGroupKeys(es, HourDayKey, PairLe);
    seq(|ks|, i requires 0 <= i < |ks| => SummaryRowOf(es, ks[i]))
  }

  /** One row per (hour, weekday) present, ordered by hour and then weekday. */
  lemma HourDaySummaryKeys(es: seq<Enriched>)
    ensures var rows := HourDaySummary(es);
            && (forall i, j | 0 <= i < j < |rows| ::
                  PairLt((rows[i].hourOfDay, rows[i].dayOfWeek), (rows[j].hourOfDay, rows[j].dayOfWeek)))
            && (forall e | e in es :: HourDayKey(e) in Column(rows, SummaryRowKey))
  {
    var ks := SortedGroupKeys(es, HourDayKey, PairLe);
    PairLeIsPreorder();
    SortedDistinctPairs(ks);
    assert Column(HourDaySummary(es), SummaryRowKey) == ks;
  }

  /** Each row holds the count and averages of its own group of trips. */
  lemma HourDaySummaryValues(es: seq<Enriched>)
    ensures var rows := HourDaySummary(es);
            forall i | 0 <= i < |rows| ::
              var g := Select(es, HourDayKey, (rows[i].hourOfDay, rows[i].dayOfWeek));
              && rows[i].tripCount == |g| > 0
              && rows[i].avgDistance == Mean(g, Distance)
              && rows[i].avgFare == Mean(g, Fare)
              && rows[i].avgDuration == Mean(g, Duration)
  {
  }

  /** The group counts of `df_summary` add up to the number of trips. */
  lemma HourDaySummaryTotal(es: seq<Enriched>)
    ensures SumOf(HourDaySummary(es), SummaryTripCount) == |es|
  {
    var ks := SortedGroupKeys(es, HourDayKey, PairLe);
    assert Column(HourDaySummary(es), SummaryRowKey) == ks;
    RowCountsTotal(HourDaySummary(es), SummaryTripCount, es, HourDayKey, ks);
  }

  // ---------------------------------------------------------- segment_analysis

  /** A row of `segment_analysis`. */
  datatype SegmentRow = SegmentRow(tripType: string, tripCount: nat, avgFare: real, avgDistance: real)

  function SegmentTripCount(r: SegmentRow): nat { r.tripCount }

  /** The grouping key a `SegmentRow` carries. */
  function SegmentRowKey(r: SegmentRow): string { r.tripType }

  function SegmentRowOf(es: seq<Enriched>, k: string): SegmentRow
    requires |Select(es, TripTypeKey, k)| > 0
  {
    var g := Select(es, TripTypeKey, k);
    SegmentRow(k, |g|, Mean(g, Fare), Mean(g, Distance))
  }

  /** `segment_analysis`: the rows of the trip-type keys, largest group first. */
  function SegmentAnalysis(es: seq<Enriched>): (rows: seq<SegmentRow>)
    ensures |rows| == 0 <==> |es| == 0
  {
    var ks := SortedGroupKeys(es, TripTypeKey, LargerGroup(es, TripTypeKey));
    seq(|ks|, i requires 0 <= i < |ks| => SegmentRowOf(es, ks[i]))
  }

  /** One row per trip type present, the busiest first. */
  lemma SegmentAnalysisKeys(es: seq<Enriched>)
    ensures var rows := SegmentAnalysis(es);
            && (forall i, j | 0 <= i < j < |rows| ::
                  rows[i].tripCount >= rows[j].tripCount && rows[i].tripType != rows[j].tripType)
            && (forall e | e in es :: TripTypeKey(e) in Column(rows, SegmentRowKey))
  {
    var ks := SortedGroupKeys(es, TripTypeKey, LargerGroup(es, TripTypeKey));
    LargerGroupIsPreorder(es, TripTypeKey);
    assert Column(SegmentAnalysis(es), SegmentRowKey) == ks;
  }

  /** Each row holds the count and averages of its own group of trips. */
  lemma SegmentAnalysisValues(es: seq<Enriched>)
    ensures var rows := SegmentAnalysis(es);
            forall i | 0 <= i < |rows| ::
              var g := Select(es, TripTypeKey, rows[i].tripType);
              && rows[i].tripCount == |g| > 0
              && rows[i].avgFare == Mean(g, Fare)
              && rows[i].avgDistance == Mean(g, Distance)
  {
  }

  /** The group counts of `segment_analysis` add up to the number of trips. */
  lemma SegmentAnalysisTotal(es: seq<Enriched>)
    ensures SumOf(SegmentAnalysis(es), SegmentTripCount) == |es|
  {
    var ks := SortedGroupKeys(es, TripTypeKey, LargerGroup(es, TripTypeKey));
    assert Column(SegmentAnalysis(es), SegmentRowKey) == ks;
    RowCountsTotal(SegmentAnalysis(es), SegmentTripCount, es, TripTypeKey, ks);
  }

  // ---------------------------------------------------------- temporal_summary

  /** A row of `temporal_summary`; `fareVariance` is the square of `fare_std_dev`. */
  datatype TemporalRow = TemporalRow(timePeriod: string, trips: nat, avgFare: real, fareVariance: Option<real>, maxFare: real)

  function TemporalTrips(r: TemporalRow): nat { r.trips }

  /** The grouping key a `TemporalRow` carries. */
  function TemporalRowKey(r: TemporalRow): string { r.timePeriod }

  function TemporalRowOf(es: seq<Enriched>, k: string): (r: TemporalRow)
    requires |Select(es, TimePeriodKey, k)| > 0
    ensures r.avgFare <= r.maxFare
  {
    var g := Select(es, TimePeriodKey, k);
    MeanAtMostMax(g, Fare);
    TemporalRow(k, |g|, Mean(g, Fare), SampleVariance(g, Fare), Max(g, Fare))
  }

  /** `temporal_summary`: the rows of the time-period keys in label order. */
  function TemporalSummary(es: seq<Enriched>): (rows: seq<TemporalRow>)
    ensures |rows| == 0 <==> |es| == 0
  {
    var ks := SortedGroupKeys(es, TimePeriodKey, StrLe);
    seq(|ks|, i requires 0 <= i < |ks| => TemporalRowOf(es, ks[i]))
  }

  /** One row per time period present, in strictly increasing label order. */
  lemma TemporalSummaryKeys(es: seq<Enriched>)
    ensures var rows := TemporalSummary(es);
            && (forall i, j | 0 <= i < j < |rows| :: StrLt(rows[i].timePeriod, rows[j].timePeriod))
            && (forall e | e in es :: TimePeriodKey(e) in Column(rows, TemporalRowKey))
  {
    var ks := SortedGroupKeys(es, TimePeriodKey, StrLe);
    StrLeIsPreorder();
    SortedDistinctStrings(ks);
    assert Column(TemporalSummary(es), TemporalRowKey) == ks;
  }

  /**
   * Each row holds its period's trip count, average fare, fare variance (undefined for a
   * one-trip period) and maximum fare, which is at least the average.
   */
  lemma TemporalSummaryValues(es: seq<Enriched>)
    ensures var rows := TemporalSummary(es);
            forall i | 0 <= i < |rows| ::
              var g := Select(es, TimePeriodKey, rows[i].timePeriod);
              && rows[i].trips == |g| > 0
              && rows[i].avgFare == Mean(g, Fare)
              && rows[i].fareVariance == SampleVariance(g, Fare)
              && rows[i].maxFare == Max(g, Fare)
              && rows[i].avgFare <= rows[i].maxFare
              && (rows[i].fareVariance.None? <==> rows[i].trips == 1)
  {
  }

  /** The period counts of `temporal_summary` add up to the number of trips. */
  lemma TemporalSummaryTotal(es: seq<Enriched>)
    ensures SumOf(TemporalSummary(es), TemporalTrips) == |es|
  {
    var ks := SortedGroupKeys(es, TimePeriodKey, StrLe);
    assert Column(TemporalSummary(es), TemporalRowKey) == ks;
    RowCountsTotal(TemporalSummary(es), TemporalTrips, es, TimePeriodKey, ks);
  }

  // ---------------------------------------------------------- payment_analysis

  /** A row of `payment_analysis`. */
  datatype PaymentRow = PaymentRow(paymentType: int, transactionCount: nat, avgFare: real, avgDistance: real)

  function PaymentCount(r: PaymentRow): nat { r.transactionCount }

  /** The grouping key a `PaymentRow` carries. */
  function PaymentRowKey(r: PaymentRow): int { r.paymentType }

  function PaymentRowOf(es: seq<Enriched>, k: int): PaymentRow
    requires |Select(es, PaymentKey, k)| > 0
  {
    var g := Select(es, PaymentKey, k);
    PaymentRow(k, |g|, Mean(g, Fare), Mean(g, Distance))
  }

  /**
   * `payment_analysis`: the rows of the payment types. The script sorts nothing here, so
   * the rows come in order of each type's first trip.
   */
  function PaymentAnalysis(es: seq<Enriched>): (rows: seq<PaymentRow>)
    ensures |rows| == 0 <==> |es| == 0
  {
    var ks := GroupKeys(es, PaymentKey);
    seq(|ks|, i requires 0 <= i < |ks| => PaymentRowOf(es, ks[i]))
  }

  /** One row per payment type present. */
  lemma PaymentAnalysisKeys(es: seq<Enriched>)
    ensures var rows := PaymentAnalysis(es);
            && (forall i, j | 0 <= i < j < |rows| :: rows[i].paymentType != rows[j].paymentType)
            && (forall e | e in es :: PaymentKey(e) in Column(rows, PaymentRowKey))
  {
    var ks := GroupKeys(es, PaymentKey);
    assert Column(PaymentAnalysis(es), PaymentRowKey) == ks;
  }

  /** Each row holds the count and averages of its own group of trips. */
  lemma PaymentAnalysisValues(es: seq<Enriched>)
    ensures var rows := PaymentAnalysis(es);
            forall i | 0 <= i < |rows| ::
              var g := Select(es, PaymentKey, rows[i].paymentType);
              && rows[i].transactionCount == |g| > 0
              && rows[i].avgFare == Mean(g, Fare)
              && rows[i].avgDistance == Mean(g, Distance)
  {
  }

  /** The transaction counts of `payment_analysis` add up to the number of trips. */
  lemma PaymentAnalysisTotal(es: seq<Enriched>)
    ensures SumOf(PaymentAnalysis(es), PaymentCount) == |es|
  {
    var ks := GroupKeys(es, PaymentKey);
    GroupCountsPartition(es, PaymentKey, ks);
    assert Column(PaymentAnalysis(es), PaymentRowKey) == ks;
    RowCountsTotal(PaymentAnalysis(es), PaymentCount, es, PaymentKey, ks);
  }

  // ---------------------------------------------------------- distance_summary

  /** A row of `distance_summary`. */
  datatype DistanceRow = DistanceRow(distanceBucket: string, tripCount: nat, avgFare: real)

  function DistanceTripCount(r: DistanceRow): nat { r.tripCount }

  /** The grouping key a `DistanceRow` carries. */
  function DistanceRowKey(r: DistanceRow): string { r.distanceBucket }

  function DistanceRowOf(es: seq<Enriched>, k: string): DistanceRow
    requires |Select(es, DistanceBucketKey, k)| > 0
  {
    var g := Select(es, DistanceBucketKey, k);
    DistanceRow(k, |g|, Mean(g, Fare))
  }

  /** `distance_summary`: the rows of the distance-bucket keys in label order. */
  function DistanceSummary(es: seq<Enriched>): (rows: seq<DistanceRow>)
    ensures |rows| == 0 <==> |es| == 0
  {
    var ks := SortedGroupKeys(es, DistanceBucketKey, StrLe);
    seq(|ks|, i requires 0 <= i < |ks| => DistanceRowOf(es, ks[i]))
  }

  /** One row per distance bucket present, in strictly increasing label order ("10+ mi" before "2-5 mi"). */
  lemma DistanceSummaryKeys(es: seq<Enriched>)
    ensures var rows := DistanceSummary(es);
            && (forall i, j | 0 <= i < j < |rows| :: StrLt(rows[i].distanceBucket, rows[j].distanceBucket))
            && (forall e | e in es :: DistanceBucketKey(e) in Column(rows, DistanceRowKey))
  {
    var ks := SortedGroupKeys(es, DistanceBucketKey, StrLe);
    StrLeIsPreorder();
    SortedDistinctStrings(ks);
    assert Column(DistanceSummary(es), DistanceRowKey) == ks;
  }

  /** Each row holds the count and averages of its own group of trips. */
  lemma DistanceSummaryValues(es: seq<Enriched>)
    ensures var rows := DistanceSummary(es);
            forall i | 0 <= i < |rows| ::
              var g := Select(es, DistanceBucketKey, rows[i].distanceBucket);
              && rows[i].tripCount == |g| > 0
              && rows[i].avgFare == Mean(g, Fare)
  {
  }

  /** The bucket counts of `distance_summary` add up to the number of trips. */
  lemma DistanceSummaryTotal(es: seq<Enriched>)
    ensures SumOf(DistanceSummary(es), DistanceTripCount) == |es|
  {
    var ks := SortedGroupKeys(es, DistanceBucketKey, StrLe);
    assert Column(DistanceSummary(es), DistanceRowKey) == ks;
    RowCountsTotal(DistanceSummary(es), DistanceTripCount, es, DistanceBucketKey, ks);
  }

  // ------------------------------------------------------------- hourly_demand

  /** A row of `hourly_demand`. */
  datatype HourlyRow = HourlyRow(hourOfDay: int, tripCount: nat, avgFare: real)

  function HourlyTripCount(r: HourlyRow): nat { r.tripCount }

  /** The grouping key a `HourlyRow` carries. */
  function HourlyRowKey(r: HourlyRow): int { r.hourOfDay }

  function HourlyRowOf(es: seq<Enriched>, k: int): HourlyRow
    requires |Select(es, HourKey, k)| > 0
  {
    var g := Select(es, HourKey, k);
    HourlyRow(k, |g|, Mean(g, Fare))
  }

  /** `hourly_demand`: the rows of the pickup hours, busiest first. */
  function HourlyDemand(es: seq<Enriched>): (rows: seq<HourlyRow>)
    ensures |rows| == 0 <==> |es| == 0
  {
    var ks := SortedGroupKeys(es, HourKey, LargerGroup(es, HourKey));
    seq(|ks|, i requires 0 <= i < |ks| => HourlyRowOf(es, ks[i]))
  }

  /** One row per pickup hour present, the busiest first. */
  lemma HourlyDemandKeys(es: seq<Enriched>)
    ensures var rows := HourlyDemand(es);
            && (forall i, j | 0 <= i < j < |rows| ::
                  rows[i].tripCount >= rows[j].tripCount && rows[i].hourOfDay != rows[j].hourOfDay)
            && (forall e | e in es :: HourKey(e) in Column(rows, HourlyRowKey))
  {
    var ks := SortedGroupKeys(es, HourKey, LargerGroup(es, HourKey));
    LargerGroupIsPreorder(es, HourKey);
    assert Column(HourlyDemand(es), HourlyRowKey) == ks;
  }

  /** Each row holds the count and averages of its own group of trips. */
  lemma HourlyDemandValues(es: seq<Enriched>)
    ensures var rows := HourlyDemand(es);
            forall i | 0 <= i < |rows| ::
              var g := Select(es, HourKey, rows[i].hourOfDay);
              && rows[i].tripCount == |g| > 0
              && rows[i].avgFare == Mean(g, Fare)
  {
  }

  /** The hourly counts of `hourly_demand` add up to the number of trips. */
  lemma HourlyDemandTotal(es: seq<Enriched>)
    ensures SumOf(HourlyDemand(es), HourlyTripCount) == |es|
  {
    var ks := SortedGroupKeys(es, HourKey, LargerGroup(es, HourKey));
    assert Column(HourlyDemand(es), HourlyRowKey) == ks;
    RowCountsTotal(HourlyDemand(es), HourlyTripCount, es, HourKey, ks);
  }
}
