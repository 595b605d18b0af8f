/**
 Fixed-point values on a decimal grid. A grid is given by its scale, the power of ten
 that makes its values integers: scale 100.0 is the grid of two decimal places.
 */
module Decimals {

  function Pow10(n: nat): (r: nat)
    ensures r >= 1
  {
    if n == 0 then 1 else 10 * Pow10(n - 1)
  }

  predicate IsInt(x: real) {
    x == x.Floor as real
  }

  /** `x` is a multiple of `1 / s`. */
  predicate Grid(x: real, s: real) {
    IsInt(x * s)
  }

  /** Truncation toward zero onto the grid of scale `s`. */
  function Trunc(x: real, s: real): real
    requires s > 0.0
  {
    if x >= 0.0 then (x * s).Floor as real / s else -((-x * s).Floor as real / s)
  }

  lemma IntMul(x: real, y: real, z: real)
    requires IsInt(x) && IsInt(y) && z == x * y
    ensures IsInt(z)
  {
    var a, b := x.Floor, y.Floor;
    assert z == (a * b) as real;
  }

  lemma IntBelow(x: real, y: real)
    requires IsInt(x) && x <= y
    ensures x <= y.Floor as real
  {
  }

  lemma DivMul(x: real, y: real)
    requires y > 0.0
    ensures x / y * y == x
  {
  }

  lemma MulMono(x: real, y: real, z: real)
    requires x <= y && z >= 0.0
    ensures x * z <= y * z
  {
  }

  lemma StrictScale(x: real, y: real, z: real)
    requires x < y && z > 0.0
    ensures x * z < y * z
  {
  }

  lemma NonNegativeProduct(x: real, y: real)
    requires x >= 0.0 && y >= 0.0
    ensures x * y >= 0.0
  {
  }

  /** Comparisons may be made after scaling. */
  lemma Unscale(x: real, y: real, z: real)
    requires x * z <= y * z && z > 0.0
    ensures x <= y
  {
  }

  lemma UnscaleStrict(x: real, y: real, z: real)
    requires x * z < y * z && z > 0.0
    ensures x < y
  {
  }

  /** A truncated value is on the grid, at most the value, and less than one step below it. */
  lemma TruncBounds(x: real, s: real)
    requires x >= 0.0 && s >= 1.0
    ensures Trunc(x, s) * s == (x * s).Floor as real
    ensures Grid(Trunc(x, s), s)
    ensures 0.0 <= Trunc(x, s) <= x < Trunc(x, s) + 1.0 / s
  {
    var y := x * s;
    var n := y.Floor as real;
    var t, u := n / s, 1.0 / s;
    DivMul(n, s);
    DivMul(1.0, s);
    MulMono(0.0, x, s);
    Unscale(0.0, t, s);
    Unscale(t, x, s);
    assert (t + u) * s == n + 1.0;
    UnscaleStrict(x, t + u, s);
  }

  /** It is the largest grid value that is at most the value. */
  lemma TruncGreatest(x: real, y: real, s: real)
    requires x >= 0.0 && s >= 1.0 && Grid(y, s) && y <= x
    ensures y <= Trunc(x, s)
  {
    TruncBounds(x, s);
    MulMono(y, x, s);
    IntBelow(y * s, x * s);
    Unscale(y, Trunc(x, s), s);
  }

  /** A value on a grid is on every finer one. */
  lemma GridWiden(x: real, s: real, k: real)
    requires Grid(x, s) && IsInt(k)
    ensures Grid(x, s * k)
  {
    IntMul(x * s, k, x * (s * k));
  }

  lemma GridWidenTo(x: real, s: real, k: real, t: real)
    requires Grid(x, s) && IsInt(k) && t == s * k
    ensures Grid(x, t)
  {
    GridWiden(x, s, k);
  }

  /** Truncation does nothing to a value that already fits. */
  lemma TruncFixed(x: real, s: real)
    requires x >= 0.0 && s >= 1.0 && Grid(x, s)
    ensures Trunc(x, s) == x
  {
    TruncBounds(x, s);
    TruncGreatest(x, x, s);
  }

  lemma GridMul(x: real, y: real, s: real, r: real, t: real)
    requires Grid(x, s) && Grid(y, r) && t == s * r
    ensures Grid(x * y, t)
  {
    Interchange(x, s, y, r, t);
    IntMul(x * s, y * r, x * y * t);
  }

  lemma Interchange(a: real, b: real, c: real, d: real, t: real)
    requires t == b * d
    ensures a * b * (c * d) == a * c * t
  {
  }

  lemma GridSum(x: real, y: real, s: real)
    requires Grid(x, s) && Grid(y, s)
    ensures Grid(x - y, s) && Grid(x + y, s)
  {
    Distribute(x, y, s);
    IntSum(x * s, y * s, (x - y) * s, (x + y) * s);
  }

  lemma Distribute(x: real, y: real, s: real)
    ensures (x - y) * s == x * s - y * s && (x + y) * s == x * s + y * s
  {
  }

  lemma IntSum(x: real, y: real, d: real, t: real)
    requires IsInt(x) && IsInt(y) && d == x - y && t == x + y
    ensures IsInt(d) && IsInt(t)
  {
    var a, b := x.Floor, y.Floor;
    assert d == (a - b) as real && t == (a + b) as real;
  }

  /** Truncating in two steps, the finer first, is truncating once. */
  lemma TruncTwice(x: real, s: real, k: real)
    requires x >= 0.0 && s >= 1.0 && k >= 1.0 && s * k >= 1.0 && IsInt(k)
    ensures Trunc(Trunc(x, s * k), s) == Trunc(x, s)
  {
    TruncBounds(x, s * k);
    TruncBounds(x, s);
    var t := Trunc(x, s * k);
    TruncBounds(t, s);
    GridWiden(Trunc(x, s), s, k);
    TruncGreatest(x, Trunc(x, s), s * k);
    TruncGreatest(t, Trunc(x, s), s);
    TruncGreatest(x, Trunc(t, s), s);
  }
}
