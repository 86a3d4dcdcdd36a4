/**
 * The cleaning step: a row filter over the raw trips, and the before/after/removed
 * counters reported beside it (taxi_pipeline.py lines 6-17).
 */
module Cleaning {
  import opened Trips
  import opened Options
  import opened Ratios

  /** Smallest total amount a kept trip may have, in dollars. */
  const MinAmount: real := 2.50
  /** Trip distances must lie strictly below this bound, in miles. */
  const MaxDistance: real := 100.0

  /** The conjunction of the four filter conditions. */
  predicate IsClean(t: Trip) {
    && t.passengerCount > 0
    && t.tripDistance > 0.0
    && t.tripDistance < MaxDistance
    && t.totalAmount >= MinAmount
  }

  /** The trips that pass the filter, in input order. */
  function Clean(ts: seq<Trip>): (r: seq<Trip>)
    ensures |r| <= |ts|
    ensures forall t | t in r :: t in ts && IsClean(t)
  {
    if ts == [] then []
    else
      var last := ts[|ts| - 1];
      if IsClean(last) then Clean(ts[..|ts| - 1]) + [last] else Clean(ts[..|ts| - 1])
  }

  /** The trips that the filter drops, in input order. */
  function Rejected(ts: seq<Trip>): (r: seq<Trip>)
    ensures forall t | t in r :: t in ts && !IsClean(t)
  {
    if ts == [] then []
    else
      var last := ts[|ts| - 1];
      if IsClean(last) then Rejected(ts[..|ts| - 1]) else Rejected(ts[..|ts| - 1]) + [last]
  }

  /** A trip is kept exactly when it is in the input and passes all four conditions. */
  lemma {:induction false} CleanExact(ts: seq<Trip>, t: Trip)
    ensures t in Clean(ts) <==> t in ts && IsClean(t)
  {
    if ts != [] {
      var init := ts[..|ts| - 1];
      assert ts == init + [ts[|ts| - 1]];
      CleanExact(init, t);
    }
  }

  /** The filter works row by row: it distributes over concatenation, so it keeps input order. */
  lemma {:induction false} CleanAppend(a: seq<Trip>, b: seq<Trip>)
    ensures Clean(a + b) == Clean(a) + Clean(b)
  {
    if b == [] {
      assert a + b == a;
    } else {
      var binit := b[..|b| - 1];
      assert (a + b)[..|a + b| - 1] == a + binit;
      CleanAppend(a, binit);
    }
  }

  /** The same for the dropped rows. */
  lemma {:induction false} RejectedAppend(a: seq<Trip>, b: seq<Trip>)
    ensures Rejected(a + b) == Rejected(a) + Rejected(b)
  {
    if b == [] {
      assert a + b == a;
    } else {
      var binit := b[..|b| - 1];
      assert (a + b)[..|a + b| - 1] == a + binit;
      RejectedAppend(a, binit);
    }
  }

  /** Every input row is either kept or dropped, never both and never neither. */
  lemma {:induction false} CleanPartition(ts: seq<Trip>)
    ensures multiset(Clean(ts)) + multiset(Rejected(ts)) == multiset(ts)
  {
    if ts != [] {
      var init := ts[..|ts| - 1];
      assert ts == init + [ts[|ts| - 1]];
      CleanPartition(init);
    }
  }

  /** Kept and dropped rows together account for every input row. */
  lemma CleanCount(ts: seq<Trip>)
    ensures |Clean(ts)| + |Rejected(ts)| == |ts|
  {
    CleanPartition(ts);
    assert |multiset(Clean(ts))| + |multiset(Rejected(ts))| == |multiset(ts)|;
  }

  /** Cleaning already-clean data changes nothing. */
  lemma {:induction false} CleanIdempotent(ts: seq<Trip>)
    ensures Clean(Clean(ts)) == Clean(ts)
  {
    if ts != [] {
      var init := ts[..|ts| - 1];
      var last := ts[|ts| - 1];
      CleanIdempotent(init);
      if IsClean(last) {
        CleanAppend(Clean(init), [last]);
        assert Clean([last]) == Clean([]) + [last];
      }
    }
  }

  /**
   * The counters of the cleaning step. The removed percentage is None when there
   * is no input row, where the script's division raises ZeroDivisionError.
   */
  datatype CleaningReport = CleaningReport(before: nat, after: nat, removed: nat, removedPercent: Option<real>)

  function CleaningStats(ts: seq<Trip>): (r: CleaningReport)
    ensures r.before == |ts| && r.after == |Clean(ts)|
    ensures r.after <= r.before && r.removed == r.before - r.after
    ensures r.removed == |Rejected(ts)|
    ensures r.removedPercent.Some? <==> |ts| > 0
    ensures r.removedPercent.Some? ==>
              && 0.0 <= r.removedPercent.value <= 100.0
              && r.removedPercent.value * |ts| as real == 100.0 * r.removed as real
  {
    CleanCount(ts);
    CleaningReport(|ts|, |Clean(ts)|, |Rejected(ts)|, PercentOf(|Rejected(ts)|, |ts|))
  }

  /** `part / whole * 100`, as the script writes it; None where the division would raise. */
  function PercentOf(part: nat, whole: nat): (p: Option<real>)
    requires part <= whole
    ensures p.Some? <==> whole > 0
    ensures p.Some? ==> 0.0 <= p.value <= 100.0 && p.value * whole as real == 100.0 * part as real
  {
    if whole == 0 then None else Some(Fraction(part, whole) * 100.0)
  }

  /** Rows made entirely of clean trips are all kept. */
  lemma {:induction false} AllCleanKept(ts: seq<Trip>)
    requires forall t | t in ts :: IsClean(t)
    ensures Clean(ts) == ts && Rejected(ts) == []
  {
    if ts != [] {
      var init := ts[..|ts| - 1];
      assert forall t | t in init :: t in ts;
      AllCleanKept(init);
      assert init + [ts[|ts| - 1]] == ts;
    }
  }

  /**
   * One hundred rows of which only one has no passenger: 99 are kept and the
   * report says one row, that is 1.00 %, was removed.
   */
  lemma OneBadRowInHundred(ts: seq<Trip>, k: nat)
    requires |ts| == 100 && k < 100
    requires ts[k].passengerCount == 0
    requires forall i | 0 <= i < 100 && i != k :: IsClean(ts[i])
    ensures CleaningStats(ts) == CleaningReport(100, 99, 1, Some(1.0))
  {
    var pre, post := ts[..k], ts[k + 1..];
    assert ts == pre + [ts[k]] + post;
    assert forall t | t in pre :: IsClean(t) by {
      forall t | t in pre ensures IsClean(t) {
        var i :| 0 <= i < |pre| && pre[i] == t;
        assert t == ts[i];
      }
    }
    assert forall t | t in post :: IsClean(t) by {
      forall t | t in post ensures IsClean(t) {
        var i :| 0 <= i < |post| && post[i] == t;
        assert t == ts[k + 1 + i];
      }
    }
    OnlyOneRejected(pre, ts[k], post);
  }

  /** A table with exactly one dirty row loses that row and nothing else. */
  lemma OnlyOneRejected(pre: seq<Trip>, t: Trip, post: seq<Trip>)
    requires forall u | u in pre :: IsClean(u)
    requires !IsClean(t)
    requires forall u | u in post :: IsClean(u)
    ensures Rejected(pre + [t] + post) == [t]
  {
    AllCleanKept(pre);
    AllCleanKept(post);
    RejectedAppend(pre + [t], post);
    RejectedAppend(pre, [t]);
    assert Rejected([t]) == Rejected([]) + [t];
  }
}
