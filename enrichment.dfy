/**
 * The enrichment step: per-row derived columns added to the cleaned trips
 * (taxi_pipeline.py lines 18-34).
 */
module Enrichment {
  import opened Trips
  import opened Cleaning

  /**
   * A cleaned trip with its derived columns. `tripDurationMin` is not clamped:
   * it is negative when the dropoff precedes the pickup.
   */
  datatype Enriched = Enriched(
    trip: Trip,
    tripDurationMin: real,
    hourOfDay: Hour,
    dayOfWeek: Weekday,
    farePerMile: real)

  /** The `total_amount` column, which the window orders by and the reports average. */
  function Fare(e: Enriched): real { e.trip.totalAmount }

  /** The derived columns of one cleaned trip. */
  function Enrich(t: Trip): (e: Enriched)
    requires IsClean(t)
    ensures e.trip == t
    ensures e.tripDurationMin * 60.0 == (t.dropoffSecs - t.pickupSecs) as real
    ensures e.tripDurationMin < 0.0 <==> t.dropoffSecs < t.pickupSecs
    ensures e.hourOfDay == t.pickupHour && e.dayOfWeek == t.pickupWeekday
    ensures e.farePerMile * t.tripDistance == t.totalAmount
    ensures e.farePerMile > MinAmount / MaxDistance
  {
    var perMile := t.totalAmount / t.tripDistance;
    assert perMile * t.tripDistance == t.totalAmount;
    assert perMile > MinAmount / MaxDistance by {
      assert t.totalAmount >= 2.50 && 0.0 < t.tripDistance < 100.0;
      assert perMile * 100.0 > perMile * t.tripDistance;
      assert perMile * 100.0 > 2.50;
    }
    Enriched(t, (t.dropoffSecs - t.pickupSecs) as real / 60.0, t.pickupHour, t.pickupWeekday, perMile)
  }

  /** The enrichment applied row by row to a cleaned table. */
  function EnrichAll(cs: seq<Trip>): (es: seq<Enriched>)
    requires forall t | t in cs :: IsClean(t)
    ensures |es| == |cs|
    ensures forall i | 0 <= i < |cs| :: es[i] == Enrich(cs[i])
  {
    if cs == [] then []
    else EnrichAll(cs[..|cs| - 1]) + [Enrich(cs[|cs| - 1])]
  }

  /** The enriched table: the raw trips cleaned, then enriched. */
  function EnrichedTable(raw: seq<Trip>): seq<Enriched>
  {
    EnrichAll(Clean(raw))
  }

  /**
   * Every enriched row comes from a clean input row, so its distance is positive
   * and `fare_per_mile` never divides by zero; every clean input row yields one.
   */
  lemma {:induction false} EnrichedTableRows(raw: seq<Trip>, e: Enriched)
    ensures e in EnrichedTable(raw) <==> exists t | t in raw && IsClean(t) :: e == Enrich(t)
  {
    var cs := Clean(raw);
    var es := EnrichedTable(raw);
    if e in es {
      var i :| 0 <= i < |es| && es[i] == e;
      CleanExact(raw, cs[i]);
    }
    if t :| t in raw && IsClean(t) && e == Enrich(t) {
      CleanExact(raw, t);
      var i :| 0 <= i < |cs| && cs[i] == t;
      assert es[i] == e;
    }
  }
}
