/**
 Shrinking a buy so that the amount and its fees fit a budget
 (clob/order_math.go, clob/order_fees.go).
 */
module MaxSpend {
  import opened Common
  import opened Decimals
  import opened OrderMath

  /* Exact arithmetic */

  function Power(x: real, n: nat): real {
    if n == 0 then 1.0 else x * Power(x, n - 1)
  }

  lemma {:induction false} PowerNonNegative(x: real, n: nat)
    requires x >= 0.0
    ensures Power(x, n) >= 0.0
  {
    if n != 0 {
      PowerNonNegative(x, n - 1);
      MulMono(0.0, x, Power(x, n - 1));
    }
  }

  function Spread(price: real): real {
    price * (1.0 - price)
  }

  /** The platform fee per share: rate * (price * (1 - price))^exponent. */
  function PlatformRate(price: real, rate: real, exponent: nat): real {
    rate * Power(Spread(price), exponent)
  }

  /** What spending `x` costs: the amount, the platform fee on its shares, the builder fee. */
  function Cost(x: real, price: real, platform: real, builder: real): real
    requires price > 0.0
  {
    x + x / price * platform + x * builder
  }

  function Divisor(price: real, platform: real, builder: real): real
    requires price > 0.0
  {
    1.0 + platform / price + builder
  }

  lemma CostIsLinear(x: real, price: real, platform: real, builder: real)
    requires price > 0.0
    ensures Cost(x, price, platform, builder) == x * Divisor(price, platform, builder)
  {
    var u := 1.0 / price;
    assert x / price == x * u && platform / price == platform * u;
  }

  lemma DivisorAtLeastOne(price: real, platform: real, builder: real)
    requires price > 0.0 && platform >= 0.0 && builder >= 0.0
    ensures Divisor(price, platform, builder) >= 1.0
  {
    DivMul(platform, price);
    Unscale(0.0, platform / price, price);
  }

  function ExactAmount(amount: real, balance: real, price: real, platform: real, builder: real): real
    requires price > 0.0 && Divisor(price, platform, builder) > 0.0
  {
    Trunc(if balance <= Cost(amount, price, platform, builder) then balance / Divisor(price, platform, builder) else amount, E6)
  }

  /** Truncating a quotient gives the largest six-decimal factor that fits. */
  lemma LargestFit(balance: real, d: real, amount: real)
    requires balance >= 0.0 && d >= 1.0
    ensures
      var t := Trunc(balance / d, E6);
      && balance / d >= 0.0 && Grid(t, E6) && 0.0 <= t && t * d <= balance
      && (balance <= amount * d ==> t <= amount)
      && (forall m :: m >= 0.0 && Grid(m, E6) ==> (m * d <= balance <==> m <= t))
  {
    var raw := balance / d;
    DivMul(balance, d);
    Unscale(0.0, raw, d);
    TruncBounds(raw, E6);
    var t := Trunc(raw, E6);
    MulMono(t, raw, d);
    if balance <= amount * d {
      Unscale(raw, amount, d);
    }
    forall m | m >= 0.0 && Grid(m, E6)
      ensures m * d <= balance <==> m <= t
    {
      FitsIff(m, raw, t, d, balance);
    }
  }

  lemma FitsIff(m: real, raw: real, t: real, d: real, balance: real)
    requires d >= 1.0 && raw >= 0.0 && t == Trunc(raw, E6) && Grid(m, E6) && raw * d == balance
    ensures m * d <= balance <==> m <= t
  {
    TruncBounds(raw, E6);
    if m <= t {
      MulMono(m, raw, d);
    } else if m * d <= balance {
      Unscale(m, raw, d);
      TruncGreatest(raw, m, E6);
    }
  }

  /** In exact arithmetic the adjusted amount never exceeds the requested amount and, with its fees,
      never exceeds the budget. */
  lemma ExactMaxSpend(amount: real, balance: real, price: real, platform: real, builder: real)
    requires amount >= 0.0 && balance >= 0.0 && price > 0.0 && platform >= 0.0 && builder >= 0.0
    ensures Divisor(price, platform, builder) > 0.0
    ensures
      var adjusted := ExactAmount(amount, balance, price, platform, builder);
      Grid(adjusted, E6) && 0.0 <= adjusted <= amount && Cost(adjusted, price, platform, builder) <= balance
  {
    hide Cost, Divisor, Trunc, Grid;
    var d := Divisor(price, platform, builder);
    DivisorAtLeastOne(price, platform, builder);
    CostIsLinear(amount, price, platform, builder);
    CostIsLinear(ExactAmount(amount, balance, price, platform, builder), price, platform, builder);
    BudgetFit(amount, balance, Cost(amount, price, platform, builder), d);
  }

  lemma BudgetFit(amount: real, balance: real, total: real, d: real)
    requires amount >= 0.0 && balance >= 0.0 && d >= 1.0 && total == amount * d
    ensures
      var adjusted := Trunc(if balance <= total then balance / d else amount, E6);
      Grid(adjusted, E6) && 0.0 <= adjusted <= amount && adjusted * d <= balance
  {
    if balance <= total {
      LargestFit(balance, d, amount);
    } else {
      TruncBounds(amount, E6);
      MulMono(Trunc(amount, E6), amount, d);
    }
  }

  /** When exact arithmetic shrinks the amount, a six-decimal amount fits the budget with its fees
      exactly when it is at most the adjusted one. */
  lemma ExactShrinkIsLargest(amount: real, balance: real, price: real, platform: real, builder: real, m: real)
    requires amount >= 0.0 && balance >= 0.0 && price > 0.0 && platform >= 0.0 && builder >= 0.0
    requires balance <= Cost(amount, price, platform, builder) && m >= 0.0 && Grid(m, E6)
    ensures Divisor(price, platform, builder) > 0.0
    ensures Cost(m, price, platform, builder) <= balance <==> m <= ExactAmount(amount, balance, price, platform, builder)
  {
    DivisorAtLeastOne(price, platform, builder);
    CostIsLinear(m, price, platform, builder);
    LargestFit(balance, Divisor(price, platform, builder), amount);
  }

  /* The code's arithmetic: every product and quotient truncated at 19 places */

  const ONE := Dec(1.0, 0)

  function Add(a: Dec, b: Dec): Dec {
    Dec(a.value + b.value, if a.prec <= b.prec then b.prec else a.prec)
  }

  function Sub(a: Dec, b: Dec): Dec {
    Dec(a.value - b.value, if a.prec <= b.prec then b.prec else a.prec)
  }

  function PowInt(d: Dec, n: nat): Dec {
    Fitted(Power(d.value, n), d.prec * n)
  }

  datatype AdjustError = DivisionByZero | BalanceTooSmall

  function FeeRate(price: Dec, rate: Dec, exponent: nat): Dec {
    Mul(rate, PowInt(Mul(price, Sub(ONE, price)), exponent))
  }

  function TotalCost(amount: Dec, price: Dec, feeRate: Dec, builder: Dec): Dec
    requires price.value != 0.0
  {
    Add(Add(amount, Mul(Div(amount, price), feeRate)), Mul(amount, builder))
  }

  function AdjustMarketBuyAmount(amount: Dec, balance: Dec, price: Dec, rate: Dec, exponent: nat, builder: Dec)
    : Result<Dec, AdjustError>
  {
    var feeRate := FeeRate(price, rate, exponent);
    if price.value == 0.0 then Err(DivisionByZero)
    else if balance.value <= TotalCost(amount, price, feeRate, builder).value then
      var divisor := Add(Add(ONE, Div(feeRate, price)), builder);
      if divisor.value == 0.0 then Err(DivisionByZero) else NonZero(RoundDown(Div(balance, divisor), 6))
    else NonZero(RoundDown(amount, 6))
  }

  function NonZero(adjusted: Dec): Result<Dec, AdjustError> {
    if adjusted.value == 0.0 then Err(BalanceTooSmall) else Ok(adjusted)
  }

  const EPS: real := 1.0 / E19

  /** Truncation at 19 places loses less than one unit in the last place. */
  lemma ProductLoss(a: Dec, b: Dec)
    requires a.value >= 0.0 && b.value >= 0.0
    ensures 0.0 <= Mul(a, b).value <= a.value * b.value < Mul(a, b).value + EPS
  {
    MulMono(0.0, a.value, b.value);
    TruncBounds(a.value * b.value, E19);
  }

  lemma QuotientLoss(a: Dec, b: Dec)
    requires a.value >= 0.0 && b.value > 0.0
    ensures 0.0 <= Div(a, b).value <= a.value / b.value < Div(a, b).value + EPS
  {
    DivMul(a.value, b.value);
    Unscale(0.0, a.value / b.value, b.value);
    TruncBounds(a.value / b.value, E19);
  }

  lemma PowLoss(base: Dec, n: nat)
    requires base.value >= 0.0
    ensures 0.0 <= PowInt(base, n).value <= Power(base.value, n) <= PowInt(base, n).value + EPS
  {
    PowerNonNegative(base.value, n);
    TruncBounds(Power(base.value, n), E19);
  }

  lemma ScaleWithin(r: real, low: real, high: real, e: real)
    requires r >= 0.0 && high <= low + e
    ensures r * high <= r * low + e * r
  {
    MulMono(high, low + e, r);
    Spelled(r, low, e);
  }

  lemma Spelled(r: real, low: real, e: real)
    ensures r * (low + e) == r * low + e * r
  {
  }

  lemma ScaledLoss(r: real, low: real, high: real, m: real, e: real)
    requires r >= 0.0 && low <= high <= low + e && m <= r * low <= m + e
    ensures m <= r * high <= m + e * (1.0 + r)
  {
    MulMono(low, high, r);
    ScaleWithin(r, low, high, e);
    OneMore(e, r);
    Chained(r * low, r * high, e * r, m, e, e * (1.0 + r));
  }

  lemma Chained(low: real, high: real, step: real, m: real, e: real, total: real)
    requires m <= low <= high <= low + step && low <= m + e && total == e + step
    ensures m <= high <= m + total
  {
  }

  lemma OneMore(e: real, r: real)
    ensures e * (1.0 + r) == e + e * r
  {
  }

  /** The computed fee rate is below the exact one by at most (1 + rate) units in the last place. */
  lemma FeeRateLoss(price: Dec, rate: Dec, exponent: nat)
    requires 0.0 < price.value <= 1.0 && price.prec <= 9 && rate.value >= 0.0
    ensures
      var exact := PlatformRate(price.value, rate.value, exponent);
      0.0 <= FeeRate(price, rate, exponent).value <= exact <= FeeRate(price, rate, exponent).value + EPS * (1.0 + rate.value)
  {
    hide Mul, PowInt, Power, Spread;
    var base := Mul(price, Sub(ONE, price));
    SpreadExact(price);
    PowLoss(base, exponent);
    var pow := PowInt(base, exponent);
    ProductLoss(rate, pow);
    ScaledLoss(rate.value, pow.value, Power(base.value, exponent), Mul(rate, pow).value, EPS);
  }

  lemma SpreadExact(price: Dec)
    requires 0.0 < price.value <= 1.0 && price.prec <= 9
    ensures Mul(price, Sub(ONE, price)).value == Spread(price.value) >= 0.0
  {
    NonNegativeProduct(price.value, 1.0 - price.value);
  }

  /** Shrinking: what the truncated divisor lets through, in units of the last place. */
  lemma ShrinkExcess(x: real, balance: real, price: real, exact: real, fee: real, t: real, builder: real, rate: real)
    requires x >= 0.0 && price > 0.0
    requires exact <= fee + EPS * (1.0 + rate) && fee / price <= t + EPS
    requires x * (1.0 + t + builder) <= balance
    ensures x * Divisor(price, exact, builder) <= balance + EPS * (x * ((1.0 + rate) / price + 1.0))
  {
    var u := 1.0 / price;
    DivMul(1.0, price);
    Unscale(0.0, u, price);
    var k := (1.0 + rate) * u + 1.0;
    MulMono(exact, fee + EPS * (1.0 + rate), u);
    assert exact / price == exact * u && fee / price == fee * u && (1.0 + rate) / price == (1.0 + rate) * u;
    assert (fee + EPS * (1.0 + rate)) * u == fee * u + EPS * ((1.0 + rate) * u);
    var d := 1.0 + t + builder;
    assert Divisor(price, exact, builder) <= d + EPS * k;
    MulMono(Divisor(price, exact, builder), d + EPS * k, x);
    assert (d + EPS * k) * x == x * d + EPS * (x * k);
  }

  /** Keeping the amount: what the truncated total hides, in units of the last place. */
  lemma KeepExcess(x: real, balance: real, price: real, exact: real, fee: real,
                   q: real, pf: real, bf: real, builder: real, rate: real)
    requires x >= 0.0 && price > 0.0 && fee >= 0.0 && rate >= 0.0
    requires exact <= fee + EPS * (1.0 + rate)
    requires x / price <= q + EPS && q * fee <= pf + EPS && x * builder <= bf + EPS
    requires x + pf + bf <= balance
    ensures Cost(x, price, exact, builder) <= balance + EPS * (x / price * (1.0 + rate) + fee + 2.0)
  {
    var y := x / price;
    DivMul(x, price);
    Unscale(0.0, y, price);
    MulMono(exact, fee + EPS * (1.0 + rate), y);
    MulMono(y, q + EPS, fee);
    assert (fee + EPS * (1.0 + rate)) * y == y * fee + EPS * (y * (1.0 + rate));
    assert (q + EPS) * fee == q * fee + EPS * fee;
  }

  /** What the code demands of its inputs: fees are not negative, the price is a checked order price. */
  ghost predicate Sensible(amount: Dec, balance: Dec, price: Dec, rate: Dec, builder: Dec) {
    && Valid(amount) && Valid(balance) && Valid(price) && price.prec <= 9
    && amount.value > 0.0 && balance.value > 0.0 && 0.0 < price.value <= 1.0
    && rate.value >= 0.0 && builder.value >= 0.0
  }

  predicate Shrinks(amount: Dec, balance: Dec, price: Dec, rate: Dec, exponent: nat, builder: Dec)
    requires price.value != 0.0
  {
    balance.value <= TotalCost(amount, price, FeeRate(price, rate, exponent), builder).value
  }

  /** The truncated total never overstates the exact cost at the computed fee rate. */
  lemma TotalBounds(amount: Dec, price: Dec, fee: Dec, builder: Dec)
    requires amount.value >= 0.0 && price.value > 0.0 && fee.value >= 0.0 && builder.value >= 0.0
    ensures TotalCost(amount, price, fee, builder).value <= amount.value * Divisor(price.value, fee.value, builder.value)
  {
    hide Mul, Div, Divisor;
    QuotientLoss(amount, price);
    var q := Div(amount, price);
    ProductLoss(q, fee);
    ProductLoss(amount, builder);
    MulMono(q.value, amount.value / price.value, fee.value);
    CostIsLinear(amount.value, price.value, fee.value, builder.value);
    PartsBelow(amount.value, Mul(q, fee).value, q.value * fee.value, amount.value / price.value * fee.value,
               Mul(amount, builder).value, amount.value * builder.value);
  }

  lemma PartsBelow(a: real, p: real, q: real, r: real, b: real, c: real)
    requires p <= q <= r && b <= c
    ensures a + p + b <= a + r + c
  {
  }

  /** The divisor the code divides by: at least one, and below the exact divisor by little. */
  lemma DivisorBounds(price: Dec, fee: Dec, builder: Dec)
    requires price.value > 0.0 && fee.value >= 0.0 && builder.value >= 0.0
    ensures
      var d := Add(Add(ONE, Div(fee, price)), builder).value;
      && d == 1.0 + Div(fee, price).value + builder.value && d >= 1.0
      && d <= Divisor(price.value, fee.value, builder.value) <= d + EPS
  {
    QuotientLoss(fee, price);
  }

  /** The adjusted amount of a shrunk buy is the six-decimal truncation of balance / divisor. */
  lemma ShrunkValue(balance: Dec, divisor: Dec)
    requires balance.value > 0.0 && divisor.value >= 1.0
    ensures RoundDown(Div(balance, divisor), 6).value == Trunc(balance.value / divisor.value, E6)
  {
    QuotientLoss(balance, divisor);
    SixPlaces();
    assert E6 * 10000000000000.0 == E19;
    TruncTwice(balance.value / divisor.value, E6, 10000000000000.0);
  }

  lemma Overshoot(balance: real, amount: real, wide: real, d: real)
    requires amount >= 0.0 && d >= 1.0 && wide <= d + EPS && balance <= amount * wide
    ensures balance <= (amount + EPS * amount) * d
  {
    MulMono(wide, d + EPS, amount);
    assert amount * (d + EPS) == amount * d + EPS * amount;
    MulMono(1.0, d, EPS * amount);
    assert (amount + EPS * amount) * d == amount * d + EPS * amount * d;
  }

  lemma SensibleParts(amount: Dec, balance: Dec, price: Dec, rate: Dec, builder: Dec)
    requires Sensible(amount, balance, price, rate, builder)
    ensures amount.value > 0.0 && balance.value > 0.0 && 0.0 < price.value <= 1.0 && price.prec <= 9
    ensures rate.value >= 0.0 && builder.value >= 0.0
  {
  }

  /** What a shrunk buy is: the six-decimal truncation of the budget over the computed divisor. */
  lemma ShrunkFits(amount: Dec, balance: Dec, price: Dec, rate: Dec, exponent: nat, builder: Dec)
    requires Sensible(amount, balance, price, rate, builder)
    requires Shrinks(amount, balance, price, rate, exponent, builder)
    requires AdjustMarketBuyAmount(amount, balance, price, rate, exponent, builder).Ok?
    ensures
      var x := AdjustMarketBuyAmount(amount, balance, price, rate, exponent, builder).value.value;
      && x > 0.0 && Grid(x, E6) && x <= amount.value + EPS * amount.value
      && x * (1.0 + Div(FeeRate(price, rate, exponent), price).value + builder.value) <= balance.value
  {
    hide Mul, Div, Trunc, Divisor, Cost, PlatformRate, FeeRate, TotalCost, Scale, Pow10, RoundDown, Add;
    var fee := FeeRate(price, rate, exponent);
    FeeRateLoss(price, rate, exponent);
    DivisorBounds(price, fee, builder);
    var divisor := Add(Add(ONE, Div(fee, price)), builder);
    ShrunkValue(balance, divisor);
    TotalBounds(amount, price, fee, builder);
    Overshoot(balance.value, amount.value, Divisor(price.value, fee.value, builder.value), divisor.value);
    LargestFit(balance.value, divisor.value, amount.value + EPS * amount.value);
  }

  /** A shrunk buy under 19-place arithmetic. With its exact fees it exceeds the budget by at most
      adjusted * ((1 + rate) / price + 1) units of 10^-19, and the requested amount by at most one
      unit of 10^-19 for each dollar. */
  lemma ShrunkMaxSpend(amount: Dec, balance: Dec, price: Dec, rate: Dec, exponent: nat, builder: Dec)
    requires Sensible(amount, balance, price, rate, builder)
    requires Shrinks(amount, balance, price, rate, exponent, builder)
    requires AdjustMarketBuyAmount(amount, balance, price, rate, exponent, builder).Ok?
    ensures
      var x := AdjustMarketBuyAmount(amount, balance, price, rate, exponent, builder).value.value;
      var exact := PlatformRate(price.value, rate.value, exponent);
      && x > 0.0 && Grid(x, E6)
      && x * Divisor(price.value, exact, builder.value)
           <= balance.value + EPS * (x * ((1.0 + rate.value) / price.value + 1.0))
      && x <= amount.value + EPS * amount.value
  {
    hide Mul, Div, Trunc, Grid, Divisor, Cost, PlatformRate, FeeRate, TotalCost, Scale, Pow10, RoundDown, Add,
         AdjustMarketBuyAmount, Shrinks, Sensible;
    ShrunkFits(amount, balance, price, rate, exponent, builder);
    SensibleParts(amount, balance, price, rate, builder);
    var fee := FeeRate(price, rate, exponent);
    FeeRateLoss(price, rate, exponent);
    QuotientLoss(fee, price);
    var x := AdjustMarketBuyAmount(amount, balance, price, rate, exponent, builder).value.value;
    ShrinkExcess(x, balance.value, price.value, PlatformRate(price.value, rate.value, exponent), fee.value,
                 Div(fee, price).value, builder.value, rate.value);
  }

  /** So below ten trillion dollars a requested six-decimal amount is never exceeded at all. */
  lemma ShrunkWithinRequest(amount: Dec, balance: Dec, price: Dec, rate: Dec, exponent: nat, builder: Dec)
    requires Sensible(amount, balance, price, rate, builder)
    requires Shrinks(amount, balance, price, rate, exponent, builder)
    requires AdjustMarketBuyAmount(amount, balance, price, rate, exponent, builder).Ok?
    requires Grid(amount.value, E6) && amount.value < 10000000000000.0
    ensures AdjustMarketBuyAmount(amount, balance, price, rate, exponent, builder).value.value <= amount.value
  {
    hide AdjustMarketBuyAmount, Shrinks, Grid, Divisor, PlatformRate;
    ShrunkMaxSpend(amount, balance, price, rate, exponent, builder);
    BelowNext(AdjustMarketBuyAmount(amount, balance, price, rate, exponent, builder).value.value, amount.value, E6);
  }

  /** It is never below what exact arithmetic would give, which is the largest amount that fits. */
  lemma ShrunkAtLeastExact(amount: Dec, balance: Dec, price: Dec, rate: Dec, exponent: nat, builder: Dec)
    requires Sensible(amount, balance, price, rate, builder)
    requires Shrinks(amount, balance, price, rate, exponent, builder)
    requires AdjustMarketBuyAmount(amount, balance, price, rate, exponent, builder).Ok?
    ensures
      var exact := PlatformRate(price.value, rate.value, exponent);
      && Divisor(price.value, exact, builder.value) > 0.0
      && ExactAmount(amount.value, balance.value, price.value, exact, builder.value)
           <= AdjustMarketBuyAmount(amount, balance, price, rate, exponent, builder).value.value
  {
    hide Mul, Div, Trunc, Grid, Divisor, Cost, PlatformRate, FeeRate, TotalCost, Scale, Pow10, RoundDown, Add;
    var fee, exact := FeeRate(price, rate, exponent), PlatformRate(price.value, rate.value, exponent);
    FeeRateLoss(price, rate, exponent);
    DivisorBounds(price, fee, builder);
    var divisor := Add(Add(ONE, Div(fee, price)), builder);
    ShrunkValue(balance, divisor);
    TotalBounds(amount, price, fee, builder);
    var wide := Divisor(price.value, exact, builder.value);
    DivisorGrows(price.value, fee.value, exact, builder.value);
    MulMono(Divisor(price.value, fee.value, builder.value), wide, amount.value);
    CostIsLinear(amount.value, price.value, exact, builder.value);
    SmallerDivisorFitsMore(balance.value, divisor.value, wide);
  }

  lemma DivisorGrows(price: real, low: real, high: real, builder: real)
    requires price > 0.0 && low <= high
    ensures Divisor(price, low, builder) <= Divisor(price, high, builder)
  {
    DivMul(low, price);
    DivMul(high, price);
    Unscale(low / price, high / price, price);
  }

  lemma SmallerDivisorFitsMore(balance: real, d: real, wide: real)
    requires balance >= 0.0 && 1.0 <= d <= wide
    ensures Trunc(balance / wide, E6) <= Trunc(balance / d, E6)
  {
    LargestFit(balance, wide, 0.0);
    LargestFit(balance, d, 0.0);
    MulMono(d, wide, Trunc(balance / wide, E6));
  }

  /** A buy that is kept at its requested amount. With its exact fees it exceeds the budget by at
      most amount / price * (1 + rate) + fee + 2 units of 10^-19. */
  lemma KeptMaxSpend(amount: Dec, balance: Dec, price: Dec, rate: Dec, exponent: nat, builder: Dec)
    requires Sensible(amount, balance, price, rate, builder)
    requires !Shrinks(amount, balance, price, rate, exponent, builder)
    requires AdjustMarketBuyAmount(amount, balance, price, rate, exponent, builder).Ok?
    ensures
      var x := AdjustMarketBuyAmount(amount, balance, price, rate, exponent, builder).value.value;
      var exact := PlatformRate(price.value, rate.value, exponent);
      && x > 0.0 && Grid(x, E6) && x == Trunc(amount.value, E6) && x <= amount.value
      && Cost(amount.value, price.value, exact, builder.value)
           <= balance.value
              + EPS * (amount.value / price.value * (1.0 + rate.value) + FeeRate(price, rate, exponent).value + 2.0)
  {
    hide Mul, Div, Trunc, Grid, Cost, PlatformRate, FeeRate, Scale, Pow10, RoundDown;
    SixPlaces();
    var fee := FeeRate(price, rate, exponent);
    RoundDownValue(amount, 6);
    TruncBounds(amount.value, E6);
    FeeRateLoss(price, rate, exponent);
    QuotientLoss(amount, price);
    var q := Div(amount, price);
    ProductLoss(q, fee);
    ProductLoss(amount, builder);
    KeepExcess(amount.value, balance.value, price.value, PlatformRate(price.value, rate.value, exponent), fee.value,
               q.value, Mul(q, fee).value, Mul(amount, builder).value, builder.value, rate.value);
  }

  /** Either way the code returns a positive amount of whole base units. */
  lemma AdjustedIsWhole(amount: Dec, balance: Dec, price: Dec, rate: Dec, exponent: nat, builder: Dec)
    requires Sensible(amount, balance, price, rate, builder)
    requires AdjustMarketBuyAmount(amount, balance, price, rate, exponent, builder).Ok?
    ensures
      var x := AdjustMarketBuyAmount(amount, balance, price, rate, exponent, builder).value.value;
      x > 0.0 && Grid(x, E6)
  {
    hide AdjustMarketBuyAmount, Grid, Divisor, PlatformRate, Cost, TotalCost, FeeRate, Trunc;
    if Shrinks(amount, balance, price, rate, exponent, builder) {
      ShrunkMaxSpend(amount, balance, price, rate, exponent, builder);
    } else {
      KeptMaxSpend(amount, balance, price, rate, exponent, builder);
    }
  }

  lemma TruncIsZero(x: real)
    requires x >= 0.0
    ensures Trunc(x, E6) == 0.0 <==> x * E6 < 1.0
  {
    TruncBounds(x, E6);
    var n := (x * E6).Floor;
    assert Trunc(x, E6) * E6 == n as real;
  }

  /** The adjustment refuses exactly the buys that are left without a whole base unit. */
  lemma AdjustSucceeds(amount: Dec, balance: Dec, price: Dec, rate: Dec, exponent: nat, builder: Dec)
    requires Sensible(amount, balance, price, rate, builder)
    ensures
      var divisor := Add(Add(ONE, Div(FeeRate(price, rate, exponent), price)), builder).value;
      AdjustMarketBuyAmount(amount, balance, price, rate, exponent, builder).Ok? <==>
      if Shrinks(amount, balance, price, rate, exponent, builder) then balance.value * E6 >= divisor else amount.value * E6 >= 1.0
  {
    hide Mul, Div, Trunc, Grid, Divisor, Cost, PlatformRate, FeeRate, TotalCost, Scale, Pow10, RoundDown, Add;
    var fee := FeeRate(price, rate, exponent);
    FeeRateLoss(price, rate, exponent);
    DivisorBounds(price, fee, builder);
    var divisor := Add(Add(ONE, Div(fee, price)), builder);
    ShrunkValue(balance, divisor);
    QuotientInUnits(balance.value, divisor.value);
    TruncIsZero(balance.value / divisor.value);
    SixPlaces();
    RoundDownValue(amount, 6);
    TruncIsZero(amount.value);
  }

  lemma QuotientInUnits(balance: real, divisor: real)
    requires balance > 0.0 && divisor >= 1.0
    ensures balance / divisor >= 0.0 && (balance / divisor * E6 < 1.0 <==> balance * E6 < divisor)
  {
    var q := balance / divisor;
    DivMul(balance, divisor);
    Unscale(0.0, q, divisor);
    assert q * E6 * divisor == q * divisor * E6;
    if q * E6 < 1.0 {
      StrictScale(q * E6, 1.0, divisor);
    } else {
      MulMono(1.0, q * E6, divisor);
    }
  }
}
