/**
  The three numeric primitives the angle mapper is built from, on exact reals:
  Python's `int()` on a float (truncation toward zero), NumPy's `np.interp` with a
  two-point table, and NumPy's `np.clip`.
 */
module Numeric {

  /** Python `int(x)` for a float `x`: drops the fractional part, rounding toward zero. */
  function Trunc(x: real): (r: int)
    ensures 0.0 <= x ==> 0 <= r && r as real <= x < r as real + 1.0
    ensures x < 0.0 ==> r <= 0 && r as real - 1.0 < x <= r as real
  {
    if x >= 0.0 then x.Floor else -((-x).Floor)
  }

  /** On a non-negative argument truncation is the floor. */
  lemma TruncOfNonNegative(x: real)
    requires 0.0 <= x
    ensures Trunc(x) == x.Floor
  {
  }

  /** An integer-valued real is left unchanged by truncation. */
  lemma TruncOfInt(n: int)
    ensures Trunc(n as real) == n
  {
  }

  /** Truncation toward zero is monotone. */
  lemma TruncMonotone(x: real, y: real)
    requires x <= y
    ensures Trunc(x) <= Trunc(y)
  {
    if 0.0 <= x {
      assert Trunc(x) as real <= x <= y < Trunc(y) as real + 1.0;
    } else if y < 0.0 {
      assert Trunc(x) as real - 1.0 < x <= y <= Trunc(y) as real;
    } else {
      assert Trunc(x) <= 0 <= Trunc(y);
    }
  }

  /** Truncating each of two reals moves their difference by less than 2. */
  lemma TruncDifferenceBound(a: real, b: real)
    ensures -2.0 < (Trunc(a) - Trunc(b)) as real - (a - b) < 2.0
  {
  }

  /**
    Truncating two reals and subtracting differs by at most 1 from truncating their
    difference.
   */
  lemma TruncOfDifferenceBound(a: real, b: real)
    ensures -1 <= (Trunc(a) - Trunc(b)) - Trunc(a - b) <= 1
  {
  }

  /**
    `np.interp(x, [xp0, xp1], [fp0, fp1])`: below the table it gives `fp0`, above it
    `fp1`, and inside it the straight line through `(xp0, fp0)` and `(xp1, fp1)`,
    written as NumPy evaluates it (`slope * (x - xp0) + fp0`).
   */
  function Interp(x: real, xp0: real, xp1: real, fp0: real, fp1: real): (r: real)
    requires xp0 < xp1
    ensures x <= xp0 ==> r == fp0
    ensures xp1 <= x ==> r == fp1
  {
    if x < xp0 then fp0
    else if x >= xp1 then fp1
    else
      var slope := (fp1 - fp0) / (xp1 - xp0);
      slope * (x - xp0) + fp0
  }

  lemma QuotientNonNegative(a: real, b: real)
    requires 0.0 <= a && 0.0 < b
    ensures 0.0 <= a / b
  {
  }

  /** Multiplying by a non-negative factor keeps the order. */
  lemma ScaleMonotone(a: real, b: real, k: real)
    requires a <= b && 0.0 <= k
    ensures k * a <= k * b && a * k <= b * k
  {
    assert k * b - k * a == k * (b - a);
    assert 0.0 <= k * (b - a);
  }

  lemma LineMonotone(k: real, c: real, f: real, x: real, y: real)
    requires 0.0 <= k && x <= y
    ensures k * (x - c) + f <= k * (y - c) + f
  {
    ScaleMonotone(x - c, y - c, k);
  }

  lemma InterpInside(x: real, xp0: real, xp1: real, fp0: real, fp1: real)
    requires xp0 <= x < xp1
    ensures Interp(x, xp0, xp1, fp0, fp1) == ((fp1 - fp0) / (xp1 - xp0)) * (x - xp0) + fp0
  {
  }

  /**
    Inside the table interpolation is the straight line through both table points:
    its rise from `fp0` is in proportion to the distance from `xp0`.
   */
  lemma InterpIsLinearInside(x: real, xp0: real, xp1: real, fp0: real, fp1: real)
    requires xp0 < xp1 && xp0 <= x <= xp1
    ensures (Interp(x, xp0, xp1, fp0, fp1) - fp0) * (xp1 - xp0) == (fp1 - fp0) * (x - xp0)
  {
    if x < xp1 {
      var slope := (fp1 - fp0) / (xp1 - xp0);
      assert slope * (xp1 - xp0) == fp1 - fp0;
      assert (slope * (x - xp0)) * (xp1 - xp0) == (slope * (xp1 - xp0)) * (x - xp0);
    }
  }

  /** With a non-decreasing table the result never leaves `[fp0, fp1]`. */
  lemma InterpBounds(x: real, xp0: real, xp1: real, fp0: real, fp1: real)
    requires xp0 < xp1 && fp0 <= fp1
    ensures fp0 <= Interp(x, xp0, xp1, fp0, fp1) <= fp1
  {
    if xp0 < x < xp1 {
      var slope := (fp1 - fp0) / (xp1 - xp0);
      QuotientNonNegative(fp1 - fp0, xp1 - xp0);
      ScaleMonotone(x - xp0, xp1 - xp0, slope);
      assert slope * (xp1 - xp0) == fp1 - fp0;
    }
  }

  /** With a non-decreasing table interpolation is monotone in its argument. */
  lemma InterpMonotone(x: real, y: real, xp0: real, xp1: real, fp0: real, fp1: real)
    requires xp0 < xp1 && fp0 <= fp1 && x <= y
    ensures Interp(x, xp0, xp1, fp0, fp1) <= Interp(y, xp0, xp1, fp0, fp1)
  {
    if xp0 < x && y < xp1 {
      var slope := (fp1 - fp0) / (xp1 - xp0);
      QuotientNonNegative(fp1 - fp0, xp1 - xp0);
      LineMonotone(slope, xp0, fp0, x, y);
      InterpInside(x, xp0, xp1, fp0, fp1);
      InterpInside(y, xp0, xp1, fp0, fp1);
    } else {
      InterpBounds(x, xp0, xp1, fp0, fp1);
      InterpBounds(y, xp0, xp1, fp0, fp1);
    }
  }

  /** `np.clip(v, lo, hi)`: `v` forced into `[lo, hi]`. */
  function Clip(v: int, lo: int, hi: int): (r: int)
    requires lo <= hi
    ensures lo <= r <= hi
    ensures lo <= v <= hi ==> r == v
    ensures v < lo ==> r == lo
    ensures hi < v ==> r == hi
  {
    if v < lo then lo else if v > hi then hi else v
  }

  /** Clipping is monotone in the clipped value. */
  lemma ClipMonotone(u: int, v: int, lo: int, hi: int)
    requires lo <= hi && u <= v
    ensures Clip(u, lo, hi) <= Clip(v, lo, hi)
  {
  }
}
