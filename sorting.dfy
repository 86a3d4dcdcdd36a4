/**
 * The sort behind `orderBy`: a stable insertion sort under a caller-given order.
 * Rows that the order ties keep their relative input order.
 */
module Sorting {

  /** `le` is a total preorder: any two elements compare, and comparisons chain. */
  ghost predicate TotalPreorder<X(!new)>(le: (X, X) -> bool)
  {
    && (forall a, b :: le(a, b) || le(b, a))
    && (forall a, b, c :: le(a, b) && le(b, c) ==> le(a, c))
  }

  predicate Sorted<X>(s: seq<X>, le: (X, X) -> bool)
  {
    forall i, j | 0 <= i < j < |s| :: le(s[i], s[j])
  }

  predicate Distinct<X(==)>(s: seq<X>)
  {
    forall i, j | 0 <= i < j < |s| :: s[i] != s[j]
  }

  /** Places `x` before the first element it does not follow. */
  function Insert<X(==)>(x: X, s: seq<X>, le: (X, X) -> bool): (r: seq<X>)
    ensures multiset(r) == multiset(s) + multiset{x}
  {
    if s == [] then [x]
    else if le(x, s[0]) then [x] + s
    else
      assert s == [s[0]] + s[1..];
      [s[0]] + Insert(x, s[1..], le)
  }

  function SortBy<X(==)>(s: seq<X>, le: (X, X) -> bool): (r: seq<X>)
    ensures multiset(r) == multiset(s)
  {
    if s == [] then []
    else
      assert s == [s[0]] + s[1..];
      Insert(s[0], SortBy(s[1..], le), le)
  }

  lemma {:induction false} InsertSorted<X(!new)>(x: X, s: seq<X>, le: (X, X) -> bool)
    requires TotalPreorder(le) && Sorted(s, le)
    ensures Sorted(Insert(x, s, le), le)
  {
    if s != [] && !le(x, s[0]) {
      var rest := Insert(x, s[1..], le);
      InsertSorted(x, s[1..], le);
      assert le(s[0], x);
      forall y | y in rest ensures le(s[0], y) {
        assert y in multiset(rest);
      }
      var r := [s[0]] + rest;
      forall i, j | 0 <= i < j < |r| ensures le(r[i], r[j]) {
        if i == 0 {
          assert r[j] in rest;
        } else {
          assert r[i] == rest[i - 1] && r[j] == rest[j - 1];
        }
      }
    }
  }

  /** Under a total preorder the result is sorted; with the ensures of SortBy, it is a sorted permutation. */
  lemma {:induction false} SortBySorted<X(!new)>(s: seq<X>, le: (X, X) -> bool)
    requires TotalPreorder(le)
    ensures Sorted(SortBy(s, le), le)
  {
    if s != [] {
      SortBySorted(s[1..], le);
      InsertSorted(s[0], SortBy(s[1..], le), le);
    }
  }

  lemma {:induction false} InsertDistinct<X>(x: X, s: seq<X>, le: (X, X) -> bool)
    requires Distinct(s) && x !in s
    ensures Distinct(Insert(x, s, le))
  {
    if s != [] && !le(x, s[0]) {
      var rest := Insert(x, s[1..], le);
      InsertDistinct(x, s[1..], le);
      assert s[0] !in rest by {
        assert s[0] !in s[1..];
        assert s[0] !in multiset(rest);
      }
      var r := [s[0]] + rest;
      forall i, j | 0 <= i < j < |r| ensures r[i] != r[j] {
        if i > 0 {
          assert r[i] == rest[i - 1] && r[j] == rest[j - 1];
        }
      }
    }
  }

  /** Sorting keeps the elements distinct. */
  lemma {:induction false} SortByDistinct<X>(s: seq<X>, le: (X, X) -> bool)
    requires Distinct(s)
    ensures Distinct(SortBy(s, le))
  {
    if s != [] {
      SortByDistinct(s[1..], le);
      assert s[0] !in s[1..];
      assert s[0] !in multiset(SortBy(s[1..], le));
      InsertDistinct(s[0], SortBy(s[1..], le), le);
    }
  }
}
