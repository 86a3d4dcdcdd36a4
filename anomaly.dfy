/**
 * Fare anomaly detection: `percent_rank()` over a window partitioned by hour of day
 * and ordered by total amount, and the 0/1 anomaly flag derived from it
 * (taxi_pipeline.py lines 55-62).
 */
module Anomaly {
  import opened Trips
  import opened Enrichment
  import opened Ratios

  /** Percentile ranks strictly below this value are anomalous. */
  const LowCutoff: real := 0.05
  /** Percentile ranks strictly above this value are anomalous. */
  const HighCutoff: real := 0.95

  /** The window partition of hour `h`: its rows, in input order. */
  function HourPartition(es: seq<Enriched>, h: int): (p: seq<Enriched>)
    ensures forall e | e in p :: e in es && e.hourOfDay == h
  {
    if es == [] then []
    else
      var last := es[|es| - 1];
      HourPartition(es[..|es| - 1], h) + (if last.hourOfDay == h then [last] else [])
  }

  /** The size of the partition of hour `h`. */
  function HourCount(es: seq<Enriched>, h: int): nat
  {
    if es == [] then 0
    else HourCount(es[..|es| - 1], h) + (if es[|es| - 1].hourOfDay == h then 1 else 0)
  }

  /** How many rows of hour `h` have an amount strictly below `a`. */
  function BelowCount(es: seq<Enriched>, h: int, a: real): (n: nat)
    ensures n <= HourCount(es, h)
  {
    if es == [] then 0
    else
      var last := es[|es| - 1];
      BelowCount(es[..|es| - 1], h, a) + (if last.hourOfDay == h && Fare(last) < a then 1 else 0)
  }

  /** A row is never strictly below itself, so it leaves room in its own partition. */
  lemma {:induction false} BelowCountExcludesSelf(es: seq<Enriched>, i: nat)
    requires i < |es|
    ensures BelowCount(es, es[i].hourOfDay, Fare(es[i])) < HourCount(es, es[i].hourOfDay)
  {
    var init := es[..|es| - 1];
    if i < |es| - 1 {
      assert init[i] == es[i];
      BelowCountExcludesSelf(init, i);
    }
  }

  /**
   * SQL `RANK()` of row `i` within its hour: one more than the number of rows of the
   * same hour with a strictly smaller amount, so tied amounts share a rank.
   */
  function Rank(es: seq<Enriched>, i: nat): (r: nat)
    requires i < |es|
    ensures 1 <= r <= HourCount(es, es[i].hourOfDay)
  {
    BelowCountExcludesSelf(es, i);
    1 + BelowCount(es, es[i].hourOfDay, Fare(es[i]))
  }

  /**
   * `percent_rank()`: (rank - 1) / (n - 1) for a partition of n rows, and 0 when the
   * partition holds the one row.
   */
  function PercentRank(es: seq<Enriched>, i: nat): (p: real)
    requires i < |es|
    ensures 0.0 <= p <= 1.0
    ensures HourCount(es, es[i].hourOfDay) == 1 ==> p == 0.0
    ensures HourCount(es, es[i].hourOfDay) > 1 ==>
              p * (HourCount(es, es[i].hourOfDay) - 1) as real == (Rank(es, i) - 1) as real
  {
    var n := HourCount(es, es[i].hourOfDay);
    if n == 1 then 0.0 else Fraction(Rank(es, i) - 1, n - 1)
  }

  /** The `is_anomaly` column: 1 outside [0.05, 0.95], else 0. */
  function AnomalyFlag(p: real): (f: int)
    ensures f == 0 || f == 1
    ensures f == 1 <==> p < LowCutoff || p > HighCutoff
  {
    if p < LowCutoff || p > HighCutoff then 1 else 0
  }

  /** A row of `df_with_percentile`. */
  datatype Annotated = Annotated(rec: Enriched, farePercentile: real, isAnomaly: int)

  /** The enriched table with the two window columns added, row for row. */
  function WithPercentile(es: seq<Enriched>): (ws: seq<Annotated>)
    ensures |ws| == |es|
    ensures forall i | 0 <= i < |es| ::
              && ws[i].rec == es[i]
              && ws[i].farePercentile == PercentRank(es, i)
              && 0.0 <= ws[i].farePercentile <= 1.0
              && (ws[i].isAnomaly == 1 <==> ws[i].farePercentile < LowCutoff || ws[i].farePercentile > HighCutoff)
              && (ws[i].isAnomaly == 0 || ws[i].isAnomaly == 1)
  {
    seq(|es|, i requires 0 <= i < |es| => Annotated(es[i], PercentRank(es, i), AnomalyFlag(PercentRank(es, i))))
  }

  /** `anomalies`: the annotated rows whose flag is 1, in order. */
  function Anomalies(ws: seq<Annotated>): (r: seq<Annotated>)
    ensures |r| <= |ws|
    ensures forall w | w in r :: w in ws && w.isAnomaly == 1
  {
    if ws == [] then []
    else
      var last := ws[|ws| - 1];
      Anomalies(ws[..|ws| - 1]) + (if last.isAnomaly == 1 then [last] else [])
  }

  /** `anomalies` holds every flagged row and nothing else. */
  lemma {:induction false} AnomaliesExact(ws: seq<Annotated>, w: Annotated)
    ensures w in Anomalies(ws) <==> w in ws && w.isAnomaly == 1
  {
    if ws != [] {
      var init := ws[..|ws| - 1];
      assert ws == init + [ws[|ws| - 1]];
      AnomaliesExact(init, w);
    }
  }

  /** The filter works row by row: it distributes over concatenation, so it keeps input order. */
  lemma {:induction false} AnomaliesAppend(a: seq<Annotated>, b: seq<Annotated>)
    ensures Anomalies(a + b) == Anomalies(a) + Anomalies(b)
  {
    if b == [] {
      assert a + b == a;
    } else {
      var binit := b[..|b| - 1];
      assert (a + b)[..|a + b| - 1] == a + binit;
      AnomaliesAppend(a, binit);
    }
  }

  /** The positions of the flagged rows. */
  function FlaggedPositions(ws: seq<Annotated>): set<int>
  {
    set i | 0 <= i < |ws| && ws[i].isAnomaly == 1
  }

  /** The count of `anomalies` is the number of flagged rows, duplicates included. */
  lemma {:induction false} AnomaliesCount(ws: seq<Annotated>)
    ensures |Anomalies(ws)| == |FlaggedPositions(ws)|
  {
    if ws != [] {
      var init := ws[..|ws| - 1];
      AnomaliesCount(init);
      FlaggedPositionsStep(ws);
    }
  }

  /** The last row adds its own position to the flagged positions of the rows before it, if flagged. */
  lemma FlaggedPositionsStep(ws: seq<Annotated>)
    requires ws != []
    ensures var last := |ws| - 1;
            && last !in FlaggedPositions(ws[..last])
            && FlaggedPositions(ws) ==
               FlaggedPositions(ws[..last]) + (if ws[last].isAnomaly == 1 then {last} else {})
  {
    var last := |ws| - 1;
    var init := ws[..last];
    forall i | 0 <= i < last ensures ws[i] == init[i] { }
  }

  /** The partition size and the count below a value are both counts over the partition. */
  lemma {:induction false} CountsArePartitionCounts(es: seq<Enriched>, h: int, a: real)
    ensures HourCount(es, h) == |HourPartition(es, h)|
    ensures BelowCount(es, h, a) == BelowCount(HourPartition(es, h), h, a)
  {
    if es != [] {
      var init := es[..|es| - 1];
      var last := es[|es| - 1];
      CountsArePartitionCounts(init, h, a);
      var p := HourPartition(init, h);
      if last.hourOfDay == h {
        assert (p + [last])[..|p + [last]| - 1] == p;
      } else {
        assert p + [] == p;
      }
    }
  }

  /**
   * The percentile of a row depends only on the rows of its own hour: two tables with
   * the same partition for that hour give a row with that amount the same percentile.
   */
  lemma PercentileIsLocal(es: seq<Enriched>, i: nat, fs: seq<Enriched>, j: nat)
    requires i < |es| && j < |fs|
    requires es[i].hourOfDay == fs[j].hourOfDay && Fare(es[i]) == Fare(fs[j])
    requires HourPartition(es, es[i].hourOfDay) == HourPartition(fs, fs[j].hourOfDay)
    ensures PercentRank(es, i) == PercentRank(fs, j)
  {
    var h, a := es[i].hourOfDay, Fare(es[i]);
    var p := HourPartition(es, h);
    assert HourCount(es, h) == |p| && BelowCount(es, h, a) == BelowCount(p, h, a) by {
      CountsArePartitionCounts(es, h, a);
    }
    assert HourCount(fs, h) == |p| && BelowCount(fs, h, a) == BelowCount(p, h, a) by {
      CountsArePartitionCounts(fs, h, a);
    }
    SameCountsSamePercentRank(es, i, fs, j);
  }

  /** Two rows whose hours have the same size and the same count below them share a percentile. */
  lemma SameCountsSamePercentRank(es: seq<Enriched>, i: nat, fs: seq<Enriched>, j: nat)
    requires i < |es| && j < |fs|
    requires HourCount(es, es[i].hourOfDay) == HourCount(fs, fs[j].hourOfDay)
    requires BelowCount(es, es[i].hourOfDay, Fare(es[i])) == BelowCount(fs, fs[j].hourOfDay, Fare(fs[j]))
    ensures PercentRank(es, i) == PercentRank(fs, j)
  {
  }

  /** Raising the threshold never lowers the count below it. */
  lemma {:induction false} BelowCountMonotone(es: seq<Enriched>, h: int, a: real, b: real)
    requires a <= b
    ensures BelowCount(es, h, a) <= BelowCount(es, h, b)
  {
    if es != [] {
      BelowCountMonotone(es[..|es| - 1], h, a, b);
    }
  }

  /** If row `k` of hour `h` lies in [a, b), the count below b exceeds the count below a. */
  lemma {:induction false} BelowCountStrict(es: seq<Enriched>, h: int, a: real, b: real, k: nat)
    requires k < |es| && es[k].hourOfDay == h && a <= Fare(es[k]) < b
    ensures BelowCount(es, h, a) < BelowCount(es, h, b)
  {
    var init := es[..|es| - 1];
    if k == |es| - 1 {
      BelowCountMonotone(init, h, a, b);
    } else {
      assert init[k] == es[k];
      BelowCountStrict(init, h, a, b, k);
    }
  }

  /**
   * The window orders by amount: within one hour, a smaller amount never gets a larger
   * percentile, and a strictly smaller amount gets a strictly smaller one.
   */
  lemma PercentRankOrdersByAmount(es: seq<Enriched>, i: nat, j: nat)
    requires i < |es| && j < |es| && es[i].hourOfDay == es[j].hourOfDay
    requires Fare(es[i]) <= Fare(es[j])
    ensures PercentRank(es, i) <= PercentRank(es, j)
    ensures Fare(es[i]) < Fare(es[j]) ==> PercentRank(es, i) < PercentRank(es, j)
  {
    var h := es[i].hourOfDay;
    var n := HourCount(es, h);
    BelowCountMonotone(es, h, Fare(es[i]), Fare(es[j]));
    if Fare(es[i]) < Fare(es[j]) {
      BelowCountStrict(es, h, Fare(es[i]), Fare(es[j]), i);
      BelowCountExcludesSelf(es, j);
    }
    if n > 1 {
      FractionMonotone(Rank(es, i) - 1, Rank(es, j) - 1, n - 1);
    }
  }

  /** No row of hour `h` is below `a`: the count is zero. */
  lemma {:induction false} BelowCountNone(es: seq<Enriched>, h: int, a: real)
    requires forall e | e in es && e.hourOfDay == h :: Fare(e) >= a
    ensures BelowCount(es, h, a) == 0
  {
    if es != [] {
      var init := es[..|es| - 1];
      assert forall e | e in init :: e in es;
      BelowCountNone(init, h, a);
    }
  }

  /** Every row of hour `h` is below `a`: the count is the partition size. */
  lemma {:induction false} BelowCountAll(es: seq<Enriched>, h: int, a: real)
    requires forall e | e in es && e.hourOfDay == h :: Fare(e) < a
    ensures BelowCount(es, h, a) == HourCount(es, h)
  {
    if es != [] {
      var init := es[..|es| - 1];
      assert forall e | e in init :: e in es;
      BelowCountAll(init, h, a);
    }
  }

  /** The cheapest row(s) of every hour get percentile 0 and so are always flagged. */
  lemma MinimumFareFlagged(es: seq<Enriched>, i: nat)
    requires i < |es|
    requires forall j | 0 <= j < |es| && es[j].hourOfDay == es[i].hourOfDay :: Fare(es[j]) >= Fare(es[i])
    ensures PercentRank(es, i) == 0.0
    ensures WithPercentile(es)[i].isAnomaly == 1
  {
    BelowCountNone(es, es[i].hourOfDay, Fare(es[i]));
  }

  /** Only row `k` of hour `h` is at or above `a`: the count below `a` is the partition size less one. */
  lemma {:induction false} BelowCountAllButOne(es: seq<Enriched>, h: int, a: real, k: nat)
    requires k < |es| && es[k].hourOfDay == h && Fare(es[k]) >= a
    requires forall j | 0 <= j < |es| && j != k && es[j].hourOfDay == h :: Fare(es[j]) < a
    ensures BelowCount(es, h, a) == HourCount(es, h) - 1
  {
    var init := es[..|es| - 1];
    if k == |es| - 1 {
      forall e | e in init && e.hourOfDay == h ensures Fare(e) < a {
        var j :| 0 <= j < |init| && init[j] == e;
        assert es[j] == e;
      }
      BelowCountAll(init, h, a);
    } else {
      assert init[k] == es[k];
      BelowCountAllButOne(init, h, a, k);
    }
  }

  /**
   * A row whose amount is strictly the largest of its hour gets percentile 1 (0 when it
   * is alone) and is flagged either way.
   */
  lemma UniqueMaximumFlagged(es: seq<Enriched>, i: nat)
    requires i < |es|
    requires forall j | 0 <= j < |es| && j != i && es[j].hourOfDay == es[i].hourOfDay :: Fare(es[j]) < Fare(es[i])
    ensures PercentRank(es, i) == if HourCount(es, es[i].hourOfDay) == 1 then 0.0 else 1.0
    ensures WithPercentile(es)[i].isAnomaly == 1
  {
    BelowCountAllButOne(es, es[i].hourOfDay, Fare(es[i]), i);
  }

  /** A table that lies wholly in hour `h` is one partition. */
  lemma {:induction false} HourCountAll(es: seq<Enriched>, h: int)
    requires forall e | e in es :: e.hourOfDay == h
    ensures HourCount(es, h) == |es|
  {
    if es != [] {
      var init := es[..|es| - 1];
      assert forall e | e in init :: e in es;
      HourCountAll(init, h);
    }
  }

  /** A row of a given hour and amount; the other columns play no part in the window. */
  function RowAt(h: Hour, amount: real): Enriched
  {
    Enriched(Trip(0, 0, h, 1, 1, 1.0, amount, 1), 0.0, h, 1, amount)
  }

  /** An hour with amounts 10, 20, 30, 40 and 1000: the 1000 row gets 1.0 and is flagged. */
  lemma OutlierInFiveRows(h: Hour)
    ensures var es := [RowAt(h, 10.0), RowAt(h, 20.0), RowAt(h, 30.0), RowAt(h, 40.0), RowAt(h, 1000.0)];
            PercentRank(es, 4) == 1.0 && WithPercentile(es)[4].isAnomaly == 1
  {
    var es := [RowAt(h, 10.0), RowAt(h, 20.0), RowAt(h, 30.0), RowAt(h, 40.0), RowAt(h, 1000.0)];
    HourCountAll(es, h);
    UniqueMaximumFlagged(es, 4);
  }
}
