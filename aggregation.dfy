/**
 * The `groupBy(...).agg(count("*"), ...)` engine shared by the reports: the distinct
 * keys of a table, the rows of each key, and the row counts, which partition the table.
 */
module Aggregation {
  import opened Sorting

  /** The rows whose key is `k`, in input order: the members of group `k`. */
  function Select<K(==), T>(s: seq<T>, key: T -> K, k: K): (r: seq<T>)
    ensures |r| <= |s|
    ensures forall x | x in r :: x in s && key(x) == k
  {
    if s == [] then []
    else
      var last := s[|s| - 1];
      Select(s[..|s| - 1], key, k) + (if key(last) == k then [last] else [])
  }

  /** Grouping works row by row: the group of a concatenation concatenates the groups of the parts. */
  lemma {:induction false} SelectAppend<K, T>(a: seq<T>, b: seq<T>, key: T -> K, k: K)
    ensures Select(a + b, key, k) == Select(a, key, k) + Select(b, key, k)
  {
    if b == [] {
      assert a + b == a;
    } else {
      var binit := b[..|b| - 1];
      assert (a + b)[..|a + b| - 1] == a + binit;
      SelectAppend(a, binit, key, k);
    }
  }

  /** A group holds each row of its key exactly as often as the table does, and no other row. */
  lemma {:induction false} SelectMultiplicity<K, T>(s: seq<T>, key: T -> K, k: K, x: T)
    ensures multiset(Select(s, key, k))[x] == if key(x) == k then multiset(s)[x] else 0
  {
    if s != [] {
      var init, last := s[..|s| - 1], s[|s| - 1];
      assert s == init + [last];
      SelectMultiplicity(init, key, k, x);
    }
  }

  /** A row is a member of the group of its own key. */
  lemma {:induction false} SelectHasMember<K, T>(s: seq<T>, key: T -> K, x: T)
    requires x in s
    ensures x in Select(s, key, key(x))
  {
    var init := s[..|s| - 1];
    if x != s[|s| - 1] {
      assert s == init + [s[|s| - 1]];
      SelectHasMember(init, key, x);
    }
  }

  /** The distinct keys of the table, in order of first appearance. */
  function GroupKeys<K(==), T>(s: seq<T>, key: T -> K): (ks: seq<K>)
    ensures Distinct(ks)
    ensures forall x | x in s :: key(x) in ks
    ensures forall k | k in ks :: |Select(s, key, k)| > 0
  {
    if s == [] then []
    else
      var ks := GroupKeys(s[..|s| - 1], key);
      GroupKeysStep(s, key, ks);
      var k := key(s[|s| - 1]);
      if k in ks then ks else ks + [k]
  }

  /** Adding one row to a table keeps the key list's properties if its key is appended when new. */
  lemma GroupKeysStep<K, T>(s: seq<T>, key: T -> K, ks: seq<K>)
    requires |s| > 0
    requires Distinct(ks)
    requires forall x | x in s[..|s| - 1] :: key(x) in ks
    requires forall k | k in ks :: |Select(s[..|s| - 1], key, k)| > 0
    ensures var k := key(s[|s| - 1]);
            var r := if k in ks then ks else ks + [k];
            && Distinct(r)
            && (forall x | x in s :: key(x) in r)
            && (forall k | k in r :: |Select(s, key, k)| > 0)
  {
    var init, last := s[..|s| - 1], s[|s| - 1];
    assert s == init + [last];
    var r := if key(last) in ks then ks else ks + [key(last)];
    forall k | k in r ensures |Select(s, key, k)| > 0 {
      assert |Select(s, key, k)| >= |Select(init, key, k)|;
    }
    forall i, j | 0 <= i < j < |r| ensures r[i] != r[j] {
      if j < |ks| {
        assert r[i] == ks[i] && r[j] == ks[j];
      } else {
        assert r[i] in ks;
      }
    }
  }

  /** The sum over the keys `ks` of the size of each key's group. */
  function KeyCountTotal<K(==), T>(s: seq<T>, key: T -> K, ks: seq<K>): nat
  {
    if ks == [] then 0 else |Select(s, key, ks[0])| + KeyCountTotal(s, key, ks[1..])
  }

  /** How many times `k` occurs in `ks`. */
  function Occurrences<K(==)>(ks: seq<K>, k: K): nat
  {
    if ks == [] then 0 else (if ks[0] == k then 1 else 0) + Occurrences(ks[1..], k)
  }

  lemma {:induction false} OccursOnce<K>(ks: seq<K>, k: K)
    requires Distinct(ks) && k in ks
    ensures Occurrences(ks, k) == 1
  {
    if ks[0] == k {
      OccursNever(ks[1..], k);
    } else {
      OccursOnce(ks[1..], k);
    }
  }

  lemma {:induction false} OccursNever<K>(ks: seq<K>, k: K)
    requires k !in ks
    ensures Occurrences(ks, k) == 0
  {
    if ks != [] {
      OccursNever(ks[1..], k);
    }
  }

  /** Appending row `x` adds one to the total for each occurrence of its key. */
  lemma {:induction false} KeyCountTotalAppend<K, T>(s: seq<T>, key: T -> K, ks: seq<K>, x: T)
    ensures KeyCountTotal(s + [x], key, ks) == KeyCountTotal(s, key, ks) + Occurrences(ks, key(x))
  {
    assert (s + [x])[..|s + [x]| - 1] == s;
    if ks != [] {
      KeyCountTotalAppend(s, key, ks[1..], x);
    }
  }

  /**
   * The group counts over any list of distinct keys that covers every row add up to the
   * number of rows: each row is counted in exactly one group.
   */
  lemma {:induction false} GroupCountsPartition<K, T>(s: seq<T>, key: T -> K, ks: seq<K>)
    requires Distinct(ks)
    requires forall x | x in s :: key(x) in ks
    ensures KeyCountTotal(s, key, ks) == |s|
  {
    if s == [] {
      EmptyTotal(key, ks);
    } else {
      var init := s[..|s| - 1];
      var last := s[|s| - 1];
      assert s == init + [last];
      GroupCountsPartition(init, key, ks);
      KeyCountTotalAppend(init, key, ks, last);
      OccursOnce(ks, key(last));
    }
  }

  lemma {:induction false} EmptyTotal<K, T>(key: T -> K, ks: seq<K>)
    ensures KeyCountTotal([], key, ks) == 0
  {
    if ks != [] {
      EmptyTotal(key, ks[1..]);
    }
  }

  /**
   * The keys of a grouped report, ordered by `le`: each key present once, every row's key
   * present, no empty group, the group sizes summing to the row count, and the keys
   * sorted when `le` is a total preorder.
   */
  function SortedGroupKeys<K(==,!new), T>(s: seq<T>, key: T -> K, le: (K, K) -> bool): (ks: seq<K>)
    ensures Distinct(ks)
    ensures forall x | x in s :: key(x) in ks
    ensures forall k | k in ks :: |Select(s, key, k)| > 0
    ensures KeyCountTotal(s, key, ks) == |s|
    ensures TotalPreorder(le) ==> Sorted(ks, le)
  {
    var unsorted := GroupKeys(s, key);
    var ks := SortBy(unsorted, le);
    SortByDistinct(unsorted, le);
    assert forall k | k in ks :: k in unsorted by {
      forall k | k in ks ensures k in unsorted {
        assert k in multiset(ks);
      }
    }
    assert forall k | k in unsorted :: k in ks by {
      forall k | k in unsorted ensures k in ks {
        assert k in multiset(unsorted);
      }
    }
    GroupCountsPartition(s, key, ks);
    SortedUnderPreorder(unsorted, le);
    ks
  }

  lemma SortedUnderPreorder<K(!new)>(s: seq<K>, le: (K, K) -> bool)
    ensures TotalPreorder(le) ==> Sorted(SortBy(s, le), le)
  {
    if TotalPreorder(le) {
      SortBySorted(s, le);
    }
  }

  /** The keys in order of group size, largest first (`orderBy(desc("count"))`). */
  function LargerGroup<K(==), T>(s: seq<T>, key: T -> K): (K, K) -> bool
  {
    (a: K, b: K) => |Select(s, key, a)| >= |Select(s, key, b)|
  }

  lemma LargerGroupIsPreorder<K(!new), T>(s: seq<T>, key: T -> K)
    ensures TotalPreorder(LargerGroup(s, key))
  {
  }

  /** One column of a table: the value of `f` on each row, in row order. */
  function Column<R, K>(rows: seq<R>, f: R -> K): (ks: seq<K>)
    ensures |ks| == |rows| && forall i | 0 <= i < |rows| :: ks[i] == f(rows[i])
  {
    seq(|rows|, i requires 0 <= i < |rows| => f(rows[i]))
  }

  /** The sum of a count column over report rows. */
  function SumOf<R>(rows: seq<R>, count: R -> nat): nat
  {
    if rows == [] then 0 else count(rows[0]) + SumOf(rows[1..], count)
  }

  /** Rows built one per key, each carrying its group's size, have counts summing to the key total. */
  lemma {:induction false} RowCountsTotal<R, K, T>(rows: seq<R>, count: R -> nat, s: seq<T>, key: T -> K, ks: seq<K>)
    requires |rows| == |ks|
    requires forall i | 0 <= i < |ks| :: count(rows[i]) == |Select(s, key, ks[i])|
    ensures SumOf(rows, count) == KeyCountTotal(s, key, ks)
  {
    if ks != [] {
      RowCountsTotal(rows[1..], count, s, key, ks[1..]);
    }
  }
}
