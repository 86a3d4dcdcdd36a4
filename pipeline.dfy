/**
 * The script end to end (taxi_pipeline.py lines 6-128): the six reports are all computed
 * from the enriched table, which holds exactly the trips the cleaning step kept.
 */
module Pipeline {
  import opened Trips
  import opened Cleaning
  import opened Enrichment
  import opened Aggregation
  import opened Reports

  /**
   * Each report's counts add up to the cleaning step's `after` counter: between cleaning
   * and the reports no trip is lost or counted twice.
   */
  lemma ReportsCountCleanTrips(raw: seq<Trip>)
    ensures var es, n := EnrichedTable(raw), CleaningStats(raw).after;
            && SumOf(HourDaySummary(es), SummaryTripCount) == n
            && SumOf(SegmentAnalysis(es), SegmentTripCount) == n
            && SumOf(TemporalSummary(es), TemporalTrips) == n
            && SumOf(PaymentAnalysis(es), PaymentCount) == n
            && SumOf(DistanceSummary(es), DistanceTripCount) == n
            && SumOf(HourlyDemand(es), HourlyTripCount) == n
  {
    var es := EnrichedTable(raw);
    HourDaySummaryTotal(es);
    SegmentAnalysisTotal(es);
    TemporalSummaryTotal(es);
    PaymentAnalysisTotal(es);
    DistanceSummaryTotal(es);
    HourlyDemandTotal(es);
  }
}
