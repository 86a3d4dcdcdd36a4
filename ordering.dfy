/**
 * The orders the reports sort by: strings lexicographically, character by character
 * (for the ASCII labels of the reports the same as Spark's byte order), and pairs of
 * integers column by column.
 */
module Ordering {
  import opened Sorting

  /** `a` sorts no later than `b`: a prefix sorts first, otherwise the first differing character decides. */
  predicate StrLe(a: string, b: string)
  {
    |a| == 0 || (|b| > 0 && (a[0] < b[0] || (a[0] == b[0] && StrLe(a[1..], b[1..]))))
  }

  /** `a` sorts strictly before `b`. */
  predicate StrLt(a: string, b: string)
  {
    StrLe(a, b) && a != b
  }

  lemma {:induction false} StrLeReflexive(a: string)
    ensures StrLe(a, a)
  {
    if |a| > 0 {
      StrLeReflexive(a[1..]);
    }
  }

  lemma {:induction false} StrLeTotal(a: string, b: string)
    ensures StrLe(a, b) || StrLe(b, a)
  {
    if |a| > 0 && |b| > 0 && a[0] == b[0] {
      StrLeTotal(a[1..], b[1..]);
    }
  }

  lemma {:induction false} StrLeTransitive(a: string, b: string, c: string)
    requires StrLe(a, b) && StrLe(b, c)
    ensures StrLe(a, c)
  {
    if |a| > 0 && a[0] == b[0] && b[0] == c[0] {
      StrLeTransitive(a[1..], b[1..], c[1..]);
    }
  }

  lemma {:induction false} StrLeAntisymmetric(a: string, b: string)
    requires StrLe(a, b) && StrLe(b, a)
    ensures a == b
  {
    if |a| > 0 {
      StrLeAntisymmetric(a[1..], b[1..]);
      assert a == [a[0]] + a[1..] && b == [b[0]] + b[1..];
    }
  }

  /** Column-by-column order on (first, second) pairs, as `orderBy(c1, c2)` sorts. */
  predicate PairLe(a: (int, int), b: (int, int))
  {
    a.0 < b.0 || (a.0 == b.0 && a.1 <= b.1)
  }

  /** `a` sorts strictly before `b` in that order. */
  predicate PairLt(a: (int, int), b: (int, int))
  {
    a.0 < b.0 || (a.0 == b.0 && a.1 < b.1)
  }

  lemma StrLeIsPreorder()
    ensures TotalPreorder(StrLe)
  {
    forall a, b ensures StrLe(a, b) || StrLe(b, a) {
      StrLeTotal(a, b);
    }
    forall a, b, c | StrLe(a, b) && StrLe(b, c) ensures StrLe(a, c) {
      StrLeTransitive(a, b, c);
    }
  }

  lemma PairLeIsPreorder()
    ensures TotalPreorder(PairLe)
  {
  }

  /** Sorted distinct pairs are strictly increasing. */
  lemma SortedDistinctPairs(ks: seq<(int, int)>)
    requires Sorted(ks, PairLe) && Distinct(ks)
    ensures forall i, j | 0 <= i < j < |ks| :: PairLt(ks[i], ks[j])
  {
    forall i, j | 0 <= i < j < |ks| ensures PairLt(ks[i], ks[j]) {
      assert PairLe(ks[i], ks[j]) && ks[i] != ks[j];
    }
  }

  /** Sorted distinct strings are strictly increasing. */
  lemma SortedDistinctStrings(ks: seq<string>)
    requires Sorted(ks, StrLe) && Distinct(ks)
    ensures forall i, j | 0 <= i < j < |ks| :: StrLt(ks[i], ks[j])
  {
    forall i, j | 0 <= i < j < |ks| ensures StrLt(ks[i], ks[j]) {
      assert StrLe(ks[i], ks[j]) && ks[i] != ks[j];
    }
  }
}
