/** Exact quotients of counts, as the pipeline's percentages and percentile ranks use them. */
module Ratios {

  /** `part / whole` for a part of a positive whole: a value in [0, 1]. */
  function Fraction(part: nat, whole: nat): (q: real)
    requires part <= whole && whole > 0
    ensures 0.0 <= q <= 1.0
    ensures q * whole as real == part as real
    ensures q == 0.0 <==> part == 0
    ensures q == 1.0 <==> part == whole
  {
    var q := part as real / whole as real;
    assert q * whole as real == part as real;
    assert q <= 1.0 by {
      assert (1.0 - q) * whole as real == (whole - part) as real;
    }
    q
  }

  /** A larger part of the same whole is a larger fraction. */
  lemma FractionMonotone(a: nat, b: nat, whole: nat)
    requires a <= b <= whole && whole > 0
    ensures Fraction(a, whole) <= Fraction(b, whole)
    ensures a < b ==> Fraction(a, whole) < Fraction(b, whole)
  {
    var qa, qb := Fraction(a, whole), Fraction(b, whole);
    var d := qb - qa;
    assert d * whole as real == (b - a) as real;
    if d < 0.0 {
      assert false;
    }
    if a < b && d == 0.0 {
      assert false;
    }
  }
}
