/**
 * The aggregate functions the reports apply to each group: `avg`, `max` and the sample
 * variance under `stddev` (taxi_pipeline.py lines 39-42, 74-76, 90-93, 100-102,
 * 117-118, 126-127).
 */
module Statistics {
  import opened Options

  /** The sum of column `f` over the rows. */
  function Sum<T>(s: seq<T>, f: T -> real): real
  {
    if s == [] then 0.0 else Sum(s[..|s| - 1], f) + f(s[|s| - 1])
  }

  /** `avg`: the sum divided by the row count. */
  function Mean<T>(s: seq<T>, f: T -> real): (m: real)
    requires |s| > 0
    ensures m * |s| as real == Sum(s, f)
  {
    Sum(s, f) / |s| as real
  }

  /** `max`: a value of the column that no row exceeds. */
  function Max<T>(s: seq<T>, f: T -> real): (m: real)
    requires |s| > 0
    ensures forall x | x in s :: f(x) <= m
    ensures exists x | x in s :: f(x) == m
  {
    var last := s[|s| - 1];
    if |s| == 1 then f(last)
    else
      var init := s[..|s| - 1];
      assert s == init + [last];
      var m := Max(init, f);
      if f(last) > m then f(last) else m
  }

  /** A bound on every value bounds the sum by count times bound. */
  lemma {:induction false} SumAtMost<T>(s: seq<T>, f: T -> real, b: real)
    requires forall x | x in s :: f(x) <= b
    ensures Sum(s, f) <= |s| as real * b
  {
    if s != [] {
      var init := s[..|s| - 1];
      assert forall x | x in init :: x in s;
      SumAtMost(init, f, b);
      assert |s| as real * b == |init| as real * b + b;
    }
  }

  /** The average of a group never exceeds its maximum. */
  lemma MeanAtMostMax<T>(s: seq<T>, f: T -> real)
    requires |s| > 0
    ensures Mean(s, f) <= Max(s, f)
  {
    MeanAtMost(s, f, Max(s, f));
  }

  /** A bound on every value of a non-empty group bounds its average. */
  lemma MeanAtMost<T>(s: seq<T>, f: T -> real, b: real)
    requires |s| > 0
    requires forall x | x in s :: f(x) <= b
    ensures Mean(s, f) <= b
  {
    SumAtMost(s, f, b);
    QuotientAtMost(Sum(s, f), |s| as real, b);
  }

  lemma QuotientAtMost(total: real, n: real, b: real)
    requires n > 0.0 && total <= n * b
    ensures total / n <= b
  {
    var q := total / n;
    assert q * n == total;
    if q > b {
      assert false;
    }
  }

  /** The sum of squared deviations of column `f` from `c`. */
  function SquaredDeviations<T>(s: seq<T>, f: T -> real, c: real): (r: real)
    ensures r >= 0.0
  {
    if s == [] then 0.0
    else
      var d := f(s[|s| - 1]) - c;
      SquaredDeviations(s[..|s| - 1], f, c) + d * d
  }

  /**
   * The sample variance (n - 1 in the denominator), whose square root `stddev` reports.
   * Undefined, like Spark's null, for a group of fewer than two rows.
   */
  function SampleVariance<T>(s: seq<T>, f: T -> real): (v: Option<real>)
    ensures v.None? <==> |s| < 2
    ensures v.Some? ==> v.value >= 0.0
  {
    if |s| < 2 then None
    else Some(SquaredDeviations(s, f, Mean(s, f)) / (|s| - 1) as real)
  }

  /** A column that is constant over the group sums to count times the constant. */
  lemma {:induction false} SumOfConstant<T>(s: seq<T>, f: T -> real, c: real)
    requires forall x | x in s :: f(x) == c
    ensures Sum(s, f) == |s| as real * c
    ensures SquaredDeviations(s, f, c) == 0.0
  {
    if s != [] {
      var init := s[..|s| - 1];
      assert forall x | x in init :: x in s;
      SumOfConstant(init, f, c);
      assert |s| as real * c == |init| as real * c + c;
    }
  }

  /** A group whose values are all equal has mean that value and, with two rows or more, variance 0. */
  lemma ConstantGroup<T>(s: seq<T>, f: T -> real, c: real)
    requires |s| > 0
    requires forall x | x in s :: f(x) == c
    ensures Mean(s, f) == c && Max(s, f) == c
    ensures |s| >= 2 ==> SampleVariance(s, f) == Some(0.0)
  {
    assert Sum(s, f) == |s| as real * c && SquaredDeviations(s, f, c) == 0.0 by {
      SumOfConstant(s, f, c);
    }
    QuotientOfMultiple(Sum(s, f), |s| as real, c);
  }

  lemma QuotientOfMultiple(total: real, n: real, c: real)
    requires n > 0.0 && total == n * c
    ensures total / n == c
  {
  }
}
