/**
 Order arithmetic: tick sizes, the rounding table, rounding of amounts and conversion to
 base units (clob/order_math.go, clob/order_validation.go).

 A decimal is an exact value with the number of places its representation carries, at
 most 19. Products and quotients are truncated at 19 places.
 */
module OrderMath {
  import opened Common
  import opened Decimals

  datatype Dec = Dec(value: real, prec: nat)

  function Scale(p: nat): (s: real)
    ensures s >= 1.0
  {
    Pow10(p) as real
  }

  const MAX_PLACES: nat := 19
  const E6: real := 1000000.0
  const E19: real := 10000000000000000000.0

  ghost predicate Valid(d: Dec) {
    d.prec <= MAX_PLACES && Grid(d.value, Scale(d.prec))
  }

  function RoundDown(d: Dec, p: nat): Dec {
    if d.prec <= p then d else Dec(Trunc(d.value, Scale(p)), p)
  }

  function HalfUp(v: real, s: real): real
    requires s > 0.0
  {
    (v * s + 0.5).Floor as real / s
  }

  /** Half away from zero. */
  function RoundNormal(d: Dec, p: nat): Dec {
    if d.prec <= p then d
    else if d.value >= 0.0 then Dec(HalfUp(d.value, Scale(p)), p)
    else Dec(-HalfUp(-d.value, Scale(p)), p)
  }

  /** Away from zero. */
  function RoundUp(d: Dec, p: nat): Dec {
    if d.prec <= p then d
    else if Grid(d.value, Scale(p)) then Dec(d.value, p)
    else if d.value >= 0.0 then Dec(Trunc(d.value, Scale(p)) + 1.0 / Scale(p), p)
    else Dec(Trunc(d.value, Scale(p)) - 1.0 / Scale(p), p)
  }

  /** A result that needs `prec` places, truncated at the most that a decimal has. */
  function Fitted(v: real, prec: nat): Dec {
    if prec <= MAX_PLACES then Dec(v, prec) else Dec(Trunc(v, E19), MAX_PLACES)
  }

  function Product(a: Dec, b: Dec): real {
    a.value * b.value
  }

  function Mul(a: Dec, b: Dec): Dec {
    Fitted(Product(a, b), a.prec + b.prec)
  }

  function Div(a: Dec, b: Dec): Dec
    requires b.value != 0.0
  {
    Dec(Trunc(a.value / b.value, E19), MAX_PLACES)
  }

  /** `toTokenDecimals` followed by `decimalInteger`. */
  function BaseUnits(d: Dec): int {
    if d.value >= 0.0 then (d.value * E6).Floor else -(-d.value * E6).Floor
  }

  /* Tick sizes */

  datatype TickSize =
    | Tenth | Hundredth | HalfCent | QuarterCent | Thousandth | TenThousandth
    | OtherTick(parsed: Option<Dec>)

  datatype RoundConfig = RoundConfig(price: nat, size: nat, amount: nat)

  function RoundingConfig(tick: TickSize): Option<RoundConfig> {
    match tick
    case Tenth => Some(RoundConfig(1, 2, 3))
    case Hundredth => Some(RoundConfig(2, 2, 4))
    case HalfCent => Some(RoundConfig(3, 2, 5))
    case QuarterCent => Some(RoundConfig(4, 2, 6))
    case Thousandth => Some(RoundConfig(3, 2, 5))
    case TenThousandth => Some(RoundConfig(4, 2, 6))
    case OtherTick(_) => None
  }

  function ParseTickSize(tick: TickSize): Option<Dec> {
    match tick
    case Tenth => Some(Dec(0.1, 1))
    case Hundredth => Some(Dec(0.01, 2))
    case HalfCent => Some(Dec(0.005, 3))
    case QuarterCent => Some(Dec(0.0025, 4))
    case Thousandth => Some(Dec(0.001, 3))
    case TenThousandth => Some(Dec(0.0001, 4))
    case OtherTick(parsed) => parsed
  }

  predicate ValidPrice(price: Dec, tick: TickSize) {
    var minimum := ParseTickSize(tick);
    minimum.Some? && minimum.value.value <= price.value <= 1.0 - minimum.value.value
  }

  predicate ValidPrecision(price: Dec, tick: TickSize) {
    ParseTickSize(tick).Some? && price.prec <= ParseTickSize(tick).value.prec
  }

  predicate Aligned(price: Dec, tick: TickSize) {
    var minimum := ParseTickSize(tick);
    minimum.Some? && minimum.value.value != 0.0 && IsInt(price.value / minimum.value.value)
  }

  function RoundToAmount(d: Dec, cfg: RoundConfig): Dec {
    if d.prec <= cfg.amount then d
    else
      var v := RoundUp(d, cfg.amount + 4);
      if v.prec > cfg.amount then RoundDown(v, cfg.amount) else v
  }

  /** The rounding table: price and size places add up to the amount places, which fit base units,
      and the tick itself has exactly the price places. */
  lemma SupportedTick(tick: TickSize)
    requires RoundingConfig(tick).Some?
    ensures
      var cfg := RoundingConfig(tick).value;
      && cfg.size == 2 && cfg.price + cfg.size == cfg.amount && 1 <= cfg.price <= 4
      && ParseTickSize(tick).Some?
      && ParseTickSize(tick).value.prec == cfg.price
      && ParseTickSize(tick).value.value > 0.0
      && Grid(ParseTickSize(tick).value.value, Scale(cfg.price))
  {
    assert Pow10(1) == 10 && Pow10(2) == 100 && Pow10(3) == 1000 && Pow10(4) == 10000;
    match tick
    case Tenth => assert 0.1 * Scale(1) == 1.0;
    case Hundredth => assert 0.01 * Scale(2) == 1.0;
    case HalfCent => assert 0.005 * Scale(3) == 5.0;
    case QuarterCent => assert 0.0025 * Scale(4) == 25.0;
    case Thousandth => assert 0.001 * Scale(3) == 1.0;
    case TenThousandth => assert 0.0001 * Scale(4) == 1.0;
  }

  /** A value of at most six places is a whole number of base units. */
  lemma WholeUnits(d: Dec)
    requires Grid(d.value, Scale(d.prec)) && d.prec <= 6 && d.value >= 0.0
    ensures BaseUnits(d) as real == d.value * E6
  {
    hide Scale, BaseUnits;
    ScaleAdds(d.prec, 6 - d.prec);
    SixPlaces();
    WholeScale(6 - d.prec);
    GridWidenTo(d.value, Scale(d.prec), Scale(6 - d.prec), E6);
    WholeBase(d);
  }

  lemma WholeBase(d: Dec)
    requires d.value >= 0.0 && Grid(d.value, E6)
    ensures BaseUnits(d) as real == d.value * E6
  {
  }

  lemma SixPlaces()
    ensures Scale(6) == E6
  {
    assert Pow10(3) == 1000;
  }

  /** A product of grid values carries the sum of their places, with nothing lost. */
  lemma ExactProduct(a: Dec, b: Dec)
    requires Grid(a.value, Scale(a.prec)) && Grid(b.value, Scale(b.prec)) && a.prec + b.prec <= 6
    ensures Mul(a, b) == Dec(a.value * b.value, a.prec + b.prec)
    ensures Grid(a.value * b.value, Scale(a.prec + b.prec))
  {
    hide IsInt, Scale, Trunc;
    ScaleAdds(a.prec, b.prec);
    GridMul(a.value, b.value, Scale(a.prec), Scale(b.prec), Scale(a.prec + b.prec));
  }

  lemma {:induction false} Pow10Adds(a: nat, b: nat)
    ensures Pow10(a + b) == Pow10(a) * Pow10(b)
  {
    if a != 0 {
      Pow10Adds(a - 1, b);
      assert Pow10(a + b) == 10 * (Pow10(a - 1) * Pow10(b)) == 10 * Pow10(a - 1) * Pow10(b);
    }
  }

  lemma ScaleAdds(a: nat, b: nat)
    ensures Scale(a + b) == Scale(a) * Scale(b)
  {
    Pow10Adds(a, b);
  }

  lemma NineteenPlaces()
    ensures Scale(19) == E19
  {
    Pow10Adds(10, 9);
    assert Pow10(10) == 10000000000 && Pow10(9) == 1000000000;
  }

  lemma WholeScale(p: nat)
    ensures IsInt(Scale(p))
  {
  }

  /** Whatever precision a representation reports, rounding down truncates the value. */
  lemma RoundDownValue(d: Dec, p: nat)
    requires Grid(d.value, Scale(d.prec)) && d.value >= 0.0
    ensures RoundDown(d, p).value == Trunc(d.value, Scale(p))
    ensures Grid(RoundDown(d, p).value, Scale(p)) && Grid(RoundDown(d, p).value, Scale(RoundDown(d, p).prec))
    ensures 0.0 <= RoundDown(d, p).value <= d.value
  {
    if d.prec <= p {
      ScaleAdds(d.prec, p - d.prec);
      FinerFixed(d.value, Scale(d.prec), Scale(p - d.prec), Scale(p));
    } else {
      TruncBounds(d.value, Scale(p));
    }
  }

  /** Rounding to the nearest gives the grid value at most half a step away, and a tie goes up. */
  lemma RoundNormalValue(d: Dec, p: nat)
    requires Grid(d.value, Scale(d.prec)) && d.value >= 0.0
    ensures
      var r, s := RoundNormal(d, p).value, Scale(p);
      Grid(r, s) && r * s - 0.5 <= d.value * s < r * s + 0.5
  {
    hide Scale, HalfUp;
    if d.prec <= p {
      ScaleAdds(d.prec, p - d.prec);
      WholeScale(p - d.prec);
      GridWidenTo(d.value, Scale(d.prec), Scale(p - d.prec), Scale(p));
    } else {
      HalfUpIsNearest(d.value, Scale(p));
    }
  }

  lemma HalfUpIsNearest(v: real, s: real)
    requires s >= 1.0
    ensures
      var r := HalfUp(v, s);
      Grid(r, s) && r * s - 0.5 <= v * s < r * s + 0.5
  {
    var n := (v * s + 0.5).Floor;
    WholeSteps(n, s, HalfUp(v, s));
  }

  lemma WholeSteps(n: int, s: real, r: real)
    requires s >= 1.0 && r == n as real / s
    ensures r * s == n as real && Grid(r, s)
  {
    DivMul(n as real, s);
    WholeIs(n, r * s);
  }

  lemma WholeIs(n: int, y: real)
    requires y == n as real
    ensures IsInt(y)
  {
  }

  lemma FinerFixed(x: real, s: real, k: real, t: real)
    requires x >= 0.0 && t >= 1.0 && Grid(x, s) && IsInt(k) && t == s * k
    ensures Grid(x, t) && Trunc(x, t) == x
  {
    GridWiden(x, s, k);
    TruncFixed(x, t);
  }

  lemma GridStep(x: real, s: real)
    requires Grid(x, s) && s >= 1.0
    ensures Grid(x + 1.0 / s, s) && Grid(x - 1.0 / s, s)
  {
    DivMul(1.0, s);
    assert Grid(1.0 / s, s);
    GridSum(x, 1.0 / s, s);
  }

  /** The only grid value in [t, t + 1/s) is t. */
  lemma TruncIs(x: real, t: real, s: real)
    requires s >= 1.0 && 0.0 <= t <= x < t + 1.0 / s && Grid(t, s)
    ensures Trunc(x, s) == t
  {
    hide Trunc, Grid;
    TruncBounds(x, s);
    TruncGreatest(x, t, s);
    BelowNext(Trunc(x, s), t, s);
  }

  lemma BelowNext(x: real, y: real, s: real)
    requires Grid(x, s) && Grid(y, s) && s >= 1.0 && x < y + 1.0 / s
    ensures x <= y
  {
    StepScaled(x, y, s);
    var a, b := (x * s).Floor, (y * s).Floor;
    assert a < b + 1;
    Unscale(x, y, s);
  }

  lemma StepScaled(x: real, y: real, s: real)
    requires s >= 1.0 && x < y + 1.0 / s
    ensures x * s < y * s + 1.0
  {
    var u := 1.0 / s;
    DivMul(1.0, s);
    StrictScale(x, y + u, s);
    DistributeRight(y, u, s);
  }

  lemma DistributeRight(y: real, u: real, s: real)
    ensures (y + u) * s == y * s + u * s
  {
  }

  /** One step of the grid `s`, split into `k` steps of the finer grid. */
  lemma FineSteps(t: real, s: real, f: real, k: real)
    requires s >= 1.0 && k >= 1.0 && IsInt(k) && f == s * k && Grid(t, s)
    ensures f >= 1.0 && 1.0 / f <= 1.0 / s
    ensures Grid(t, f) && Grid(t + 1.0 / s, s) && Grid(t + 1.0 / s, f) && Grid(t + 1.0 / s - 1.0 / f, f)
  {
    hide Grid;
    ScaleAtLeast(s, k);
    DivMul(1.0, s);
    DivMul(1.0, f);
    GridStep(t, s);
    GridWiden(t, s, k);
    GridWiden(t + 1.0 / s, s, k);
    GridStep(t + 1.0 / s, f);
    FinerStep(s, f);
  }

  lemma ScaleAtLeast(s: real, k: real)
    requires s >= 1.0 && k >= 1.0
    ensures s * k >= s
  {
  }

  lemma FinerStep(s: real, f: real)
    requires 1.0 <= s <= f
    ensures 1.0 / f <= 1.0 / s
  {
    DivMul(1.0, f);
    DivMul(1.0, s);
    var u := 1.0 / f;
    Unscale(0.0, u, f);
    MulMono(s, f, u);
    Unscale(u, 1.0 / s, s);
  }

  /** Rounding up on the finer grid, then down: the value goes up a whole step only from within the
      last fine step before it. */
  lemma UpThenDown(x: real, t: real, s: real, f: real, k: real, up: real)
    requires x >= 0.0 && s >= 1.0 && k >= 1.0 && IsInt(k) && f == s * k && f >= 1.0 && t == Trunc(x, s)
    requires up == (if Grid(x, f) then x else Trunc(x, f) + 1.0 / f)
    ensures Trunc(up, s) == if x <= t + 1.0 / s - 1.0 / f then t else t + 1.0 / s
  {
    hide Trunc, Grid;
    TruncBounds(x, s);
    TruncBounds(x, f);
    FineSteps(t, s, f, k);
    var last := t + 1.0 / s - 1.0 / f;
    DivMul(1.0, f);
    Unscale(0.0, 1.0 / f, f);
    if x <= last {
      if !Grid(x, f) {
        GridStep(last, f);
        assert x != last;
        BelowNext(Trunc(x, f), last - 1.0 / f, f);
      }
      TruncIs(up, t, s);
    } else {
      if Grid(x, f) {
        BelowNext(x, last, f);
      } else {
        TruncIs(x, last, f);
      }
      TruncIs(up, t + 1.0 / s, s);
    }
  }

  /** What the two-pass rounding of an amount comes to, whatever precision the value reports: the
      amount truncated to the allowed places, except that a value within 10^-(places + 4) of the next
      step is taken up to it. */
  lemma RoundToAmountValue(d: Dec, cfg: RoundConfig)
    requires d.value >= 0.0 && Grid(d.value, Scale(d.prec))
    ensures
      var t := Trunc(d.value, Scale(cfg.amount));
      var next := t + 1.0 / Scale(cfg.amount);
      RoundToAmount(d, cfg).value == if d.value <= next - 1.0 / Scale(cfg.amount + 4) then t else next
  {
    hide Trunc, Grid, Scale;
    var s, f := Scale(cfg.amount), Scale(cfg.amount + 4);
    ScaleAdds(cfg.amount, 4);
    FourPlaces();
    var up := RoundUp(d, cfg.amount + 4);
    RoundUpValue(d, cfg.amount + 4);
    UpThenDown(d.value, Trunc(d.value, s), s, f, 10000.0, up.value);
    if d.prec <= cfg.amount {
      RoundDownValue(d, cfg.amount);
      RoundDownValue(d, cfg.amount + 4);
    }
  }

  lemma FourPlaces()
    ensures Scale(4) == 10000.0 && IsInt(10000.0)
  {
  }

  lemma RoundUpValue(d: Dec, p: nat)
    requires d.value >= 0.0 && Grid(d.value, Scale(d.prec))
    ensures RoundUp(d, p).value == (if Grid(d.value, Scale(p)) then d.value else Trunc(d.value, Scale(p)) + 1.0 / Scale(p))
  {
    if d.prec <= p {
      RoundDownValue(d, p);
    }
  }
}
