/**
 * Numbers as the Python code sees them.  A pandas cell of a numeric column
 * is a finite value or NaN; every comparison with NaN is false.  Python
 * floats are modelled as exact reals.
 */
module Numerics {

  datatype Float = Num(v: real) | NaN

  function Abs(x: real): (r: real)
    ensures r >= 0.0 && (r == x || r == -x)
  {
    if x < 0.0 then -x else x
  }

  /** `x < t` on a pandas cell. */
  predicate Lt(x: Float, t: real) { x.Num? && x.v < t }

  /** `x > t` on a pandas cell. */
  predicate Gt(x: Float, t: real) { x.Num? && x.v > t }

  /** `x.abs() > t` on a pandas cell. */
  predicate AbsGt(x: Float, t: real) { x.Num? && Abs(x.v) > t }

  function Sum(s: seq<real>): real
    decreases |s|
  {
    if s == [] then 0.0 else s[0] + Sum(s[1..])
  }

  function Mean(s: seq<real>): real
    requires |s| > 0
  {
    Sum(s) / |s| as real
  }

  lemma {:induction false} SumBounds(s: seq<real>, lo: real, hi: real)
    requires forall i :: 0 <= i < |s| ==> lo <= s[i] <= hi
    ensures |s| as real * lo <= Sum(s) <= |s| as real * hi
    decreases |s|
  {
    if s != [] {
      SumBounds(s[1..], lo, hi);
    }
  }

  /** A mean lies between any lower and upper bound of its terms. */
  lemma MeanBounds(s: seq<real>, lo: real, hi: real)
    requires |s| > 0
    requires forall i :: 0 <= i < |s| ==> lo <= s[i] <= hi
    ensures lo <= Mean(s) <= hi
  {
    SumBounds(s, lo, hi);
    var n := |s| as real;
    assert Sum(s) / n >= (n * lo) / n;
    assert Sum(s) / n <= (n * hi) / n;
  }

  /** `round(x, 2)`: the multiple of 0.01 nearest to x, halves rounded up. */
  function Round2(x: real): real {
    ((x * 100.0 + 0.5).Floor as real) / 100.0
  }

  /** `round(x, 3)`: the multiple of 0.001 nearest to x, halves rounded up. */
  function Round3(x: real): real {
    ((x * 1000.0 + 0.5).Floor as real) / 1000.0
  }

  lemma DivUnit(a: real, b: real)
    requires 0.0 <= a <= b && b > 0.0
    ensures 0.0 <= a / b <= 1.0
  {
    assert a / b * b == a;
  }

  /** Rounding to two places keeps a value of [0,1] inside [0,1]. */
  lemma RoundUnit(x: real)
    requires 0.0 <= x <= 1.0
    ensures 0.0 <= Round2(x) <= 1.0
  {
    var f := (x * 100.0 + 0.5).Floor;
    assert 0 <= f <= 100;
  }
}
