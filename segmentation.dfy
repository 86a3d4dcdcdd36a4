/**
 * The three `when ... otherwise` cascades that label trips: trip type
 * (taxi_pipeline.py lines 66-72), time period (lines 82-88) and distance bucket
 * (lines 108-115). Each cascade tests its conditions in order and the first that
 * holds decides; the `otherwise` label catches the rest.
 */
module Segmentation {
  import opened Trips
  import opened Ordering

  datatype TripType = ShortLocal | MediumLocal | LongDistance | VeryLong
  {
    /** The string the `trip_type` column holds. */
    function Label(): string
    {
      match this
      case ShortLocal => "Short Local"
      case MediumLocal => "Medium Local"
      case LongDistance => "Long Distance"
      case VeryLong => "Very Long"
    }
  }

  /**
   * The trip-type regions described independently of the cascade: three disjoint
   * boxes of (distance, amount), and Very Long for every point outside all three.
   */
  predicate InTripTypeRegion(t: TripType, distance: real, amount: real)
  {
    var short := distance < 1.0 && amount < 10.0;
    var medium := 1.0 <= distance < 5.0 && amount < 20.0;
    var long := 5.0 <= distance < 15.0;
    match t
    case ShortLocal => short
    case MediumLocal => medium
    case LongDistance => long
    case VeryLong => !short && !medium && !long
  }

  /** The `trip_type` cascade. */
  function TripTypeOf(distance: real, amount: real): (t: TripType)
    ensures InTripTypeRegion(t, distance, amount)
  {
    if distance < 1.0 && amount < 10.0 then ShortLocal
    else if distance >= 1.0 && distance < 5.0 && amount < 20.0 then MediumLocal
    else if distance >= 5.0 && distance < 15.0 then LongDistance
    else VeryLong
  }

  /** The regions do not overlap, so every trip lies in exactly one and the cascade picks it. */
  lemma TripTypeRegionsDisjoint(t: TripType, u: TripType, distance: real, amount: real)
    requires InTripTypeRegion(t, distance, amount) && InTripTypeRegion(u, distance, amount)
    ensures t == u
  {
  }

  /**
   * Boundary cases of the trip-type cascade: a 0.5-mile, $8 trip is Short Local; every
   * trip of 5 to 15 miles is Long Distance whatever its amount; a short trip that is
   * too expensive for its box falls through to Very Long rather than the next box.
   */
  lemma TripTypeCases(distance: real, amount: real)
    ensures TripTypeOf(0.5, 8.0) == ShortLocal
    ensures 5.0 <= distance < 15.0 ==> TripTypeOf(distance, amount) == LongDistance
    ensures distance < 1.0 && amount >= 10.0 ==> TripTypeOf(distance, amount) == VeryLong
    ensures 1.0 <= distance < 5.0 && amount >= 20.0 ==> TripTypeOf(distance, amount) == VeryLong
    ensures distance >= 15.0 ==> TripTypeOf(distance, amount) == VeryLong
  {
  }

  datatype TimePeriod = Morning | Afternoon | Evening | Night
  {
    /** The string the `time_period` column holds. */
    function Label(): string
    {
      match this
      case Morning => "Morning"
      case Afternoon => "Afternoon"
      case Evening => "Evening"
      case Night => "Night"
    }
  }

  /** The periods as ranges of hours: three half-open ranges and Night, which wraps past midnight. */
  predicate InPeriod(p: TimePeriod, h: Hour)
  {
    match p
    case Morning => 5 <= h < 12
    case Afternoon => 12 <= h < 17
    case Evening => 17 <= h < 21
    case Night => h < 5 || 21 <= h
  }

  /** The `time_period` cascade over the pickup hour. */
  function TimePeriodOf(h: Hour): (p: TimePeriod)
    ensures InPeriod(p, h)
  {
    if h >= 5 && h < 12 then Morning
    else if h >= 12 && h < 17 then Afternoon
    else if h >= 17 && h < 21 then Evening
    else Night
  }

  /** Every hour lies in exactly one period. */
  lemma PeriodsDisjoint(p: TimePeriod, q: TimePeriod, h: Hour)
    requires InPeriod(p, h) && InPeriod(q, h)
    ensures p == q
  {
  }

  /** Hour 6 is Morning; hours 21 and 23 are Night. */
  lemma TimePeriodCases()
    ensures TimePeriodOf(6) == Morning
    ensures TimePeriodOf(21) == Night && TimePeriodOf(23) == Night
  {
  }

  datatype DistanceBucket = UpTo1 | UpTo2 | UpTo5 | UpTo10 | Over10
  {
    /** The string the `distance_bucket` column holds. */
    function Label(): string
    {
      match this
      case UpTo1 => "0-1 mi"
      case UpTo2 => "1-2 mi"
      case UpTo5 => "2-5 mi"
      case UpTo10 => "5-10 mi"
      case Over10 => "10+ mi"
    }

    /** Position of the bucket along the distance axis. */
    function Index(): nat
    {
      match this
      case UpTo1 => 0
      case UpTo2 => 1
      case UpTo5 => 2
      case UpTo10 => 3
      case Over10 => 4
    }
  }

  /** The buckets as intervals closed on the right: (-inf, 1], (1, 2], (2, 5], (5, 10], (10, +inf). */
  predicate InBucket(b: DistanceBucket, d: real)
  {
    match b
    case UpTo1 => d <= 1.0
    case UpTo2 => 1.0 < d <= 2.0
    case UpTo5 => 2.0 < d <= 5.0
    case UpTo10 => 5.0 < d <= 10.0
    case Over10 => 10.0 < d
  }

  /** The `distance_bucket` cascade. */
  function DistanceBucketOf(d: real): (b: DistanceBucket)
    ensures InBucket(b, d)
  {
    if d <= 1.0 then UpTo1
    else if d <= 2.0 then UpTo2
    else if d <= 5.0 then UpTo5
    else if d <= 10.0 then UpTo10
    else Over10
  }

  /** Every distance lies in exactly one bucket. */
  lemma BucketsDisjoint(b: DistanceBucket, c: DistanceBucket, d: real)
    requires InBucket(b, d) && InBucket(c, d)
    ensures b == c
  {
  }

  /** A longer trip never lands in an earlier bucket. */
  lemma BucketMonotone(d: real, e: real)
    requires d <= e
    ensures DistanceBucketOf(d).Index() <= DistanceBucketOf(e).Index()
  {
  }

  /** The upper bounds are inclusive: 1.0 mile is "0-1 mi" and 3.0 miles is "2-5 mi". */
  lemma DistanceBucketCases()
    ensures DistanceBucketOf(1.0).Label() == "0-1 mi"
    ensures DistanceBucketOf(3.0).Label() == "2-5 mi"
  {
  }

  /** Distinct classes have distinct labels, so grouping by the label column groups by class. */
  lemma LabelsInjective(t: TripType, u: TripType, p: TimePeriod, q: TimePeriod, b: DistanceBucket, c: DistanceBucket)
    ensures t.Label() == u.Label() ==> t == u
    ensures p.Label() == q.Label() ==> p == q
    ensures b.Label() == c.Label() ==> b == c
  {
  }

  /**
   * Sorted by label, the distance report lists "0-1 mi", "1-2 mi", "10+ mi", "2-5 mi",
   * "5-10 mi": the 10+ bucket comes third, not last.
   */
  lemma DistanceLabelOrder()
    ensures StrLt(UpTo1.Label(), UpTo2.Label())
    ensures StrLt(UpTo2.Label(), Over10.Label())
    ensures StrLt(Over10.Label(), UpTo5.Label())
    ensures StrLt(UpTo5.Label(), UpTo10.Label())
  {
  }

  /** Sorted by label, the time-period report lists Afternoon, Evening, Morning, Night. */
  lemma TimePeriodLabelOrder()
    ensures StrLt(Afternoon.Label(), Evening.Label())
    ensures StrLt(Evening.Label(), Morning.Label())
    ensures StrLt(Morning.Label(), Night.Label())
  {
  }
}
