/**
 The amounts of a signed limit order (clob/limit_order.go).
 */
module LimitOrder {
  import opened Common
  import opened Decimals
  import opened OrderMath
  import opened MaxSpend

  datatype Side = Buy | Sell

  datatype Amounts = Amounts(maker: int, taker: int)

  datatype LimitError = UnsupportedTick | SizeTooPrecise | Adjust(error: AdjustError) | FeesUnavailable | BadAmounts

  /** The fee terms that bound a budgeted buy: rate and exponent of the market, builder fee rate. */
  datatype FeeTerms = FeeTerms(rate: Dec, exponent: nat, builder: Dec)

  /** `validateOrderAmounts`, made before signing. */
  function Checked(maker: int, taker: int): Result<Amounts, LimitError> {
    if 0 < maker < UINT256_END && 0 < taker < UINT256_END then Ok(Amounts(maker, taker)) else Err(BadAmounts)
  }

  /** The share quantity of a buy whose spending is bounded. */
  function BudgetShares(adjusted: Dec, price: Dec, cfg: RoundConfig): Dec
    requires price.value != 0.0
  {
    RoundDown(Div(adjusted, price), cfg.size)
  }

  function BuildLimitOrder(
    side: Side, price: Dec, size: Dec, tick: TickSize, maxSpend: Option<Dec>, fees: Option<FeeTerms>)
    : Result<Amounts, LimitError>
  {
    if RoundingConfig(tick).None? then Err(UnsupportedTick)
    else
      var cfg := RoundingConfig(tick).value;
      if size.prec > cfg.size then Err(SizeTooPrecise)
      else
        var rawPrice := RoundNormal(price, cfg.price);
        var shares := RoundDown(size, cfg.size);
        var collateral := RoundToAmount(Mul(shares, rawPrice), cfg);
        match side
        case Sell => Checked(BaseUnits(shares), BaseUnits(collateral))
        case Buy =>
          if maxSpend.None? then Checked(BaseUnits(collateral), BaseUnits(shares))
          else if fees.None? then Err(FeesUnavailable)
          else
            match AdjustMarketBuyAmount(collateral, maxSpend.value, rawPrice, fees.value.rate, fees.value.exponent,
                                        fees.value.builder)
            case Err(e) => Err(Adjust(e))
            case Ok(adjusted) =>
              if rawPrice.value == 0.0 then Err(Adjust(DivisionByZero))
              else
                var fitted := BudgetShares(adjusted, rawPrice, cfg);
                Checked(BaseUnits(RoundToAmount(Mul(fitted, rawPrice), cfg)), BaseUnits(fitted))
  }

  /** A price and a size that the order checks let through. */
  ghost predicate Accepted(price: Dec, size: Dec, tick: TickSize) {
    && Valid(price) && Valid(size) && size.value > 0.0
    && ValidPrice(price, tick) && ValidPrecision(price, tick)
  }

  function Shares(side: Side, a: Amounts): int {
    if side.Buy? then a.taker else a.maker
  }

  function Collateral(side: Side, a: Amounts): int {
    if side.Buy? then a.maker else a.taker
  }

  /** Collateral at the order's own price: every rounding step is the identity. */
  lemma ExactCollateral(shares: Dec, price: Dec, cfg: RoundConfig)
    requires Grid(shares.value, Scale(shares.prec)) && Grid(price.value, Scale(price.prec))
    requires shares.value >= 0.0 && price.value >= 0.0
    requires shares.prec <= 2 && price.prec <= cfg.price && cfg.price + 2 == cfg.amount <= 6
    ensures Mul(shares, price) == RoundToAmount(Mul(shares, price), cfg)
    ensures BaseUnits(Mul(shares, price)) as real == shares.value * price.value * E6
    ensures BaseUnits(shares) as real == shares.value * E6
    ensures BaseUnits(Mul(shares, price)) as real == BaseUnits(shares) as real * price.value
  {
    hide Grid, Scale, Trunc, BaseUnits;
    ExactProduct(shares, price);
    NonNegativeProduct(shares.value, price.value);
    WholeUnits(Mul(shares, price));
    WholeUnits(shares);
    assert shares.value * price.value * E6 == shares.value * E6 * price.value;
  }

  /** Truncated shares cost at most the amount, and one more step of shares would cost more. */
  lemma TruncatedShares(m: real, p: real, t: real, s: real)
    requires m >= 0.0 && p > 0.0 && s >= 1.0 && m / p >= 0.0 && t == Trunc(m / p, s)
    ensures t >= 0.0 && t * p <= m && m < t * p + p / s
  {
    hide Trunc;
    TruncBounds(m / p, s);
    DivMul(m, p);
    MulMono(t, m / p, p);
    StrictScale(m / p, t + 1.0 / s, p);
    DistributeRight(t, 1.0 / s, p);
    OverScale(p, s);
    Sandwich(t * p, m / p * p, m, (t + 1.0 / s) * p, 1.0 / s * p, p / s);
  }

  lemma Sandwich(low: real, mid: real, m: real, high: real, step: real, width: real)
    requires low <= mid == m < high == low + step && step == width
    ensures low <= m < low + width
  {
  }

  lemma OverScale(p: real, s: real)
    requires s >= 1.0
    ensures 1.0 / s * p == p / s
  {
  }

  /** Dividing at 19 places and truncating to fewer is truncating the exact quotient: the shares are the most, at
      those places, that the amount pays for. */
  lemma QuotientShares(amount: Dec, price: Dec, p: nat)
    requires amount.value >= 0.0 && price.value > 0.0 && p <= 6
    ensures
      var shares, s := RoundDown(Div(amount, price), p), Scale(p);
      && shares.prec == p && shares.value == Trunc(amount.value / price.value, s) && Grid(shares.value, s)
      && shares.value >= 0.0 && shares.value * price.value <= amount.value
      && amount.value < shares.value * price.value + price.value / s
  {
    hide Scale, Trunc;
    QuotientLoss(amount, price);
    var q, s, k := amount.value / price.value, Scale(p), Scale(19 - p);
    ScaleAdds(p, 19 - p);
    NineteenPlaces();
    WholeScale(19 - p);
    TruncTwiceTo(q, s, k, E19);
    TruncBounds(q, s);
    TruncatedShares(amount.value, price.value, Trunc(q, s), s);
  }

  lemma TruncTwiceTo(x: real, s: real, k: real, t: real)
    requires x >= 0.0 && s >= 1.0 && k >= 1.0 && t >= 1.0 && t == s * k && IsInt(k)
    ensures Trunc(Trunc(x, t), s) == Trunc(x, s)
  {
    TruncTwice(x, s, k);
  }

  /** The full-size collateral of an accepted order is a sensible amount to adjust. */
  lemma CollateralIsSensible(size: Dec, price: Dec, maxSpend: Dec, fees: FeeTerms)
    requires Valid(price) && Valid(size) && size.value > 0.0 && 0.0 < price.value <= 1.0
    requires size.prec <= 2 && price.prec <= 4
    requires Valid(maxSpend) && maxSpend.value > 0.0 && fees.rate.value >= 0.0 && fees.builder.value >= 0.0
    ensures Sensible(Mul(size, price), maxSpend, price, fees.rate, fees.builder)
  {
    ExactProduct(size, price);
    PositiveProduct(size.value, price.value);
  }

  lemma PositiveProduct(x: real, y: real)
    requires x > 0.0 && y > 0.0
    ensures x * y > 0.0
  {
  }

  /** The amount that the budget leaves of an accepted buy. */
  function Budgeted(size: Dec, price: Dec, maxSpend: Dec, fees: FeeTerms): Result<Dec, AdjustError> {
    AdjustMarketBuyAmount(Mul(size, price), maxSpend, price, fees.rate, fees.exponent, fees.builder)
  }

  /** What a budgeted buy of an accepted price and size is built from. */
  lemma BudgetedBuild(price: Dec, size: Dec, tick: TickSize, maxSpend: Dec, fees: FeeTerms)
    requires Accepted(price, size, tick) && RoundingConfig(tick).Some? && size.prec <= 2
    ensures
      var cfg := RoundingConfig(tick).value;
      var adjusted := Budgeted(size, price, maxSpend, fees);
      && Valid(price) && 0.0 < price.value < 1.0 && price.prec <= cfg.price && cfg.size == 2
      && BuildLimitOrder(Buy, price, size, tick, Some(maxSpend), Some(fees)) ==
         if adjusted.Err? then Err(Adjust(adjusted.error))
         else
           var shares := RoundDown(Div(adjusted.value, price), 2);
           Checked(BaseUnits(RoundToAmount(Mul(shares, price), cfg)), BaseUnits(shares))
  {
    hide Mul, Div, Grid, BaseUnits, Scale, Trunc, AdjustMarketBuyAmount, Checked, RoundToAmount;
    SupportedTick(tick);
    ExactCollateral(size, price, RoundingConfig(tick).value);
  }

  lemma BudgetIsSensible(price: Dec, size: Dec, tick: TickSize, maxSpend: Dec, fees: FeeTerms)
    requires Accepted(price, size, tick) && RoundingConfig(tick).Some? && size.prec <= 2
    requires Valid(maxSpend) && maxSpend.value > 0.0 && fees.rate.value >= 0.0 && fees.builder.value >= 0.0
    ensures Sensible(Mul(size, price), maxSpend, price, fees.rate, fees.builder)
  {
    hide Mul, Sensible, Scale;
    SupportedTick(tick);
    CollateralIsSensible(size, price, maxSpend, fees);
  }

  /** A budgeted limit buy succeeds if and only if the budget leaves an amount that pays for a hundredth of a
      share and the shares fit 256 bits. Its shares are then the most hundredths that the adjusted amount pays
      for, and its collateral is their price, exactly. */
  lemma BudgetedLimitBuy(price: Dec, size: Dec, tick: TickSize, maxSpend: Dec, fees: FeeTerms)
    requires Accepted(price, size, tick) && RoundingConfig(tick).Some? && size.prec <= 2
    requires Valid(maxSpend) && maxSpend.value > 0.0 && fees.rate.value >= 0.0 && fees.builder.value >= 0.0
    ensures
      var r := BuildLimitOrder(Buy, price, size, tick, Some(maxSpend), Some(fees));
      var adjusted := Budgeted(size, price, maxSpend, fees);
      && (adjusted.Err? ==> r == Err(Adjust(adjusted.error)))
      && (adjusted.Ok? ==>
            var shares := Trunc(adjusted.value.value / price.value, 100.0);
            && (r.Ok? <==> adjusted.value.value >= 0.01 * price.value && shares * E6 < UINT256_END as real)
            && (r.Ok? ==> r.value.taker as real == shares * E6 && r.value.maker as real == r.value.taker as real * price.value
                          && shares * price.value <= adjusted.value.value < (shares + 0.01) * price.value))
  {
    hide Mul, Div, Grid, RoundToAmount, BaseUnits, Scale, Trunc, AdjustMarketBuyAmount, Sensible, BuildLimitOrder, Accepted;
    BudgetedBuild(price, size, tick, maxSpend, fees);
    BudgetIsSensible(price, size, tick, maxSpend, fees);
    var adjusted := Budgeted(size, price, maxSpend, fees);
    if adjusted.Ok? {
      AdjustedIsWhole(Mul(size, price), maxSpend, price, fees.rate, fees.exponent, fees.builder);
      BudgetedAmounts(adjusted.value, price, tick);
    }
  }

  lemma TwoPlaces()
    ensures Scale(2) == 100.0
  {
    assert Pow10(2) == 100;
  }

  lemma BudgetedAmounts(adjusted: Dec, price: Dec, tick: TickSize)
    requires RoundingConfig(tick).Some? && adjusted.value > 0.0 && 0.0 < price.value < 1.0
    requires Valid(price) && price.prec <= RoundingConfig(tick).value.price
    ensures
      var cfg := RoundingConfig(tick).value;
      var fitted, shares := RoundDown(Div(adjusted, price), 2), Trunc(adjusted.value / price.value, 100.0);
      var taker, maker := BaseUnits(fitted), BaseUnits(RoundToAmount(Mul(fitted, price), cfg));
      && taker as real == shares * E6 && maker as real == taker as real * price.value
      && shares * price.value <= adjusted.value < (shares + 0.01) * price.value
      && (0 < taker <==> adjusted.value >= 0.01 * price.value) && (taker < UINT256_END <==> shares * E6 < UINT256_END as real)
      && (0 < taker ==> 0 < maker <= taker) && (taker <= 0 ==> taker == 0)
  {
    hide Mul, Div, Grid, RoundToAmount, BaseUnits, Scale, Trunc;
    SupportedTick(tick);
    TwoPlaces();
    QuotientShares(adjusted, price, 2);
    var fitted := RoundDown(Div(adjusted, price), 2);
    ExactCollateral(fitted, price, RoundingConfig(tick).value);
    HundredthPaid(fitted.value, adjusted.value, price.value);
    SharesInRange(BaseUnits(fitted), BaseUnits(Mul(fitted, price)), fitted.value, price.value);
  }

  /** A hundredth of a share or none. */
  lemma HundredthPaid(shares: real, adjusted: real, price: real)
    requires Grid(shares, 100.0) && shares >= 0.0 && price > 0.0
    requires shares * price <= adjusted < shares * price + price / 100.0
    ensures adjusted < (shares + 0.01) * price
    ensures shares > 0.0 <==> adjusted >= 0.01 * price
  {
    DistributeRight(shares, 0.01, price);
    if shares > 0.0 {
      var n := (shares * 100.0).Floor;
      assert n >= 1;
      MulMono(0.01, shares, price);
    }
  }

  lemma SharesInRange(taker: int, maker: int, shares: real, price: real)
    requires taker as real == shares * E6 && maker as real == taker as real * price && shares >= 0.0 && 0.0 < price < 1.0
    ensures (0 < taker <==> shares > 0.0) && taker >= 0
    ensures taker < UINT256_END <==> shares * E6 < UINT256_END as real
    ensures 0 < taker ==> 0 < maker <= taker
  {
    if shares > 0.0 {
      CollateralInRange(taker, maker, shares, price);
    }
  }

  /** A buy that its budget covers in full gets exactly the requested size. */
  lemma CoveredBuyIsWhole(price: Dec, size: Dec, tick: TickSize, maxSpend: Dec, fees: FeeTerms)
    requires Accepted(price, size, tick) && RoundingConfig(tick).Some? && size.prec <= 2
    requires Valid(maxSpend) && maxSpend.value > 0.0 && fees.rate.value >= 0.0 && fees.builder.value >= 0.0
    requires !Shrinks(Mul(size, price), maxSpend, price, fees.rate, fees.exponent, fees.builder)
    requires size.value * E6 < UINT256_END as real
    ensures
      var r := BuildLimitOrder(Buy, price, size, tick, Some(maxSpend), Some(fees));
      r.Ok? && r.value.taker as real == size.value * E6 && r.value.maker as real == size.value * price.value * E6
  {
    hide Mul, Grid, RoundToAmount, BaseUnits, Scale, Trunc, AdjustMarketBuyAmount, Sensible, BuildLimitOrder, Shrinks;
    BudgetIsSensible(price, size, tick, maxSpend, fees);
    BudgetedLimitBuy(price, size, tick, maxSpend, fees);
    BudgetedBuild(price, size, tick, maxSpend, fees);
    KeptInFull(price, size, tick, maxSpend, fees);
  }

  lemma KeptInFull(price: Dec, size: Dec, tick: TickSize, maxSpend: Dec, fees: FeeTerms)
    requires Accepted(price, size, tick) && RoundingConfig(tick).Some? && size.prec <= 2 && price.value > 0.0
    requires Sensible(Mul(size, price), maxSpend, price, fees.rate, fees.builder)
    requires !Shrinks(Mul(size, price), maxSpend, price, fees.rate, fees.exponent, fees.builder)
    ensures
      var adjusted := Budgeted(size, price, maxSpend, fees);
      && adjusted.Ok? && adjusted.value.value == size.value * price.value
      && Trunc(adjusted.value.value / price.value, 100.0) == size.value && adjusted.value.value >= 0.01 * price.value
  {
    hide Grid, Scale, Trunc, TotalCost, FeeRate, Sensible;
    SupportedTick(tick);
    ExactProduct(size, price);
    PositiveProduct(size.value, price.value);
    TwoPlaces();
    SizeInHundredths(size);
    SizeRecovered(size.value, price.value, size.value * price.value);
  }

  lemma SizeInHundredths(size: Dec)
    requires Valid(size) && size.prec <= 2
    ensures Grid(size.value, 100.0)
  {
    hide Scale;
    ScaleAdds(size.prec, 2 - size.prec);
    TwoPlaces();
    WholeScale(2 - size.prec);
    GridWidenTo(size.value, Scale(size.prec), Scale(2 - size.prec), 100.0);
  }

  lemma QuotientOf(x: real, y: real, z: real)
    requires y > 0.0 && z == x * y
    ensures z / y == x
  {
    DivMul(z, y);
    Unscale(z / y, x, y);
    Unscale(x, z / y, y);
  }

  lemma SizeRecovered(size: real, price: real, cost: real)
    requires Grid(size, 100.0) && size > 0.0 && price > 0.0 && cost == size * price
    ensures Trunc(cost / price, 100.0) == size && cost >= 0.01 * price
  {
    hide Trunc;
    QuotientOf(size, price, cost);
    TruncFixed(size, 100.0);
    var n := (size * 100.0).Floor;
    assert n >= 1;
    MulMono(0.01, size, price);
  }

  /** What an order that was built must have passed. */
  lemma BuiltHasPassed(side: Side, price: Dec, size: Dec, tick: TickSize, maxSpend: Option<Dec>, fees: Option<FeeTerms>)
    requires BuildLimitOrder(side, price, size, tick, maxSpend, fees).Ok?
    ensures RoundingConfig(tick).Some? && size.prec <= 2 && (side.Buy? && maxSpend.Some? ==> fees.Some?)
  {
    hide Mul, RoundDown, RoundNormal, RoundToAmount, AdjustMarketBuyAmount, BaseUnits, BudgetShares;
    if RoundingConfig(tick).Some? {
      SupportedTick(tick);
    }
  }

  /** The spending of a budgeted limit buy, with its exact fees, stays within the budget up to the 19-place
      truncation: the bounds are those of the adjusted amount, of which it spends no more. */
  lemma BudgetedLimitSpend(price: Dec, size: Dec, tick: TickSize, maxSpend: Dec, fees: FeeTerms)
    requires Accepted(price, size, tick) && Valid(maxSpend) && maxSpend.value > 0.0
    requires fees.rate.value >= 0.0 && fees.builder.value >= 0.0
    requires BuildLimitOrder(Buy, price, size, tick, Some(maxSpend), Some(fees)).Ok?
    ensures
      var spent := BuildLimitOrder(Buy, price, size, tick, Some(maxSpend), Some(fees)).value.maker as real / E6;
      var full := Mul(size, price);
      var exact := PlatformRate(price.value, fees.rate.value, fees.exponent);
      var cost := Cost(spent, price.value, exact, fees.builder.value);
      && Budgeted(size, price, maxSpend, fees).Ok?
      && (Shrinks(full, maxSpend, price, fees.rate, fees.exponent, fees.builder) ==>
            cost <= maxSpend.value
                    + EPS * (Budgeted(size, price, maxSpend, fees).value.value * ((1.0 + fees.rate.value) / price.value + 1.0)))
      && (!Shrinks(full, maxSpend, price, fees.rate, fees.exponent, fees.builder) ==>
            cost <= maxSpend.value
                    + EPS * (full.value / price.value * (1.0 + fees.rate.value)
                             + FeeRate(price, fees.rate, fees.exponent).value + 2.0))
  {
    hide Mul, Accepted, BuildLimitOrder, Shrinks, Cost, PlatformRate, FeeRate, Divisor, Sensible, AdjustMarketBuyAmount;
    hide Grid, Trunc;
    BuiltHasPassed(Buy, price, size, tick, Some(maxSpend), Some(fees));
    BudgetedLimitBuy(price, size, tick, maxSpend, fees);
    AcceptedIsSensible(price, size, tick, maxSpend, fees);
    SpentBelow(price, size, tick, maxSpend, fees);
    var full, x := Mul(size, price), Budgeted(size, price, maxSpend, fees).value.value;
    var exact := PlatformRate(price.value, fees.rate.value, fees.exponent);
    var spent := BuildLimitOrder(Buy, price, size, tick, Some(maxSpend), Some(fees)).value.maker as real / E6;
    ExactRateNonNegative(price.value, fees.rate.value, fees.exponent);
    if Shrinks(full, maxSpend, price, fees.rate, fees.exponent, fees.builder) {
      ShrunkMaxSpend(full, maxSpend, price, fees.rate, fees.exponent, fees.builder);
      CostBelow(spent, x, price.value, exact, fees.builder.value);
    } else {
      KeptMaxSpend(full, maxSpend, price, fees.rate, fees.exponent, fees.builder);
      CostBelow(spent, full.value, price.value, exact, fees.builder.value);
    }
  }

  lemma SpentBelow(price: Dec, size: Dec, tick: TickSize, maxSpend: Dec, fees: FeeTerms)
    requires Accepted(price, size, tick) && RoundingConfig(tick).Some? && size.prec <= 2
    requires Valid(maxSpend) && maxSpend.value > 0.0 && fees.rate.value >= 0.0 && fees.builder.value >= 0.0
    requires BuildLimitOrder(Buy, price, size, tick, Some(maxSpend), Some(fees)).Ok?
    ensures Budgeted(size, price, maxSpend, fees).Ok?
    ensures BuildLimitOrder(Buy, price, size, tick, Some(maxSpend), Some(fees)).value.maker as real / E6
              <= Budgeted(size, price, maxSpend, fees).value.value
  {
    hide BuildLimitOrder, AdjustMarketBuyAmount, Accepted, Trunc, Mul;
    BudgetedLimitBuy(price, size, tick, maxSpend, fees);
    var a := BuildLimitOrder(Buy, price, size, tick, Some(maxSpend), Some(fees)).value;
    var adjusted := Budgeted(size, price, maxSpend, fees).value.value;
    var shares := Trunc(adjusted / price.value, 100.0);
    assert a.maker as real / E6 == shares * price.value;
  }

  lemma ExactRateNonNegative(price: real, rate: real, exponent: nat)
    requires 0.0 < price <= 1.0 && rate >= 0.0
    ensures PlatformRate(price, rate, exponent) >= 0.0
  {
    hide Power;
    NonNegativeProduct(price, 1.0 - price);
    PowerNonNegative(Spread(price), exponent);
    NonNegativeProduct(rate, Power(Spread(price), exponent));
  }

  /** Spending less costs less, fees included. */
  lemma CostBelow(low: real, high: real, price: real, platform: real, builder: real)
    requires low <= high && price > 0.0 && platform >= 0.0 && builder >= 0.0
    ensures Cost(low, price, platform, builder) <= Cost(high, price, platform, builder)
    ensures Cost(high, price, platform, builder) == high * Divisor(price, platform, builder)
  {
    hide Cost, Divisor;
    DivisorAtLeastOne(price, platform, builder);
    CostIsLinear(low, price, platform, builder);
    CostIsLinear(high, price, platform, builder);
    MulMono(low, high, Divisor(price, platform, builder));
  }

  lemma AcceptedIsSensible(price: Dec, size: Dec, tick: TickSize, maxSpend: Dec, fees: FeeTerms)
    requires Accepted(price, size, tick) && Valid(maxSpend) && maxSpend.value > 0.0
    requires fees.rate.value >= 0.0 && fees.builder.value >= 0.0
    requires BuildLimitOrder(Buy, price, size, tick, Some(maxSpend), Some(fees)).Ok?
    ensures Sensible(Mul(size, price), maxSpend, price, fees.rate, fees.builder) && 0.0 < price.value <= 1.0
  {
    hide Mul, Grid, RoundToAmount, BaseUnits, Scale, Trunc, AdjustMarketBuyAmount;
    SupportedTick(tick);
    CollateralIsSensible(size, price, maxSpend, fees);
  }

  /** Limit orders lose nothing to rounding: for every supported tick, side and accepted price and
      size, collateral base units are share base units times the price, exactly; and without a budget
      the shares are exactly the requested size. */
  lemma LimitOrderIsExact(side: Side, price: Dec, size: Dec, tick: TickSize, maxSpend: Option<Dec>, fees: Option<FeeTerms>)
    requires Accepted(price, size, tick)
    requires maxSpend.Some? ==> Valid(maxSpend.value) && maxSpend.value.value > 0.0
    requires fees.Some? ==> fees.value.rate.value >= 0.0 && fees.value.builder.value >= 0.0
    requires BuildLimitOrder(side, price, size, tick, maxSpend, fees).Ok?
    ensures
      var a := BuildLimitOrder(side, price, size, tick, maxSpend, fees).value;
      && Collateral(side, a) as real == Shares(side, a) as real * price.value
      && (maxSpend.None? ==> Shares(side, a) as real == size.value * E6)
  {
    hide AdjustMarketBuyAmount, RoundToAmount, Mul, Div, BaseUnits, Trunc, Grid, Scale, Accepted;
    BuiltHasPassed(side, price, size, tick, maxSpend, fees);
    if side.Buy? && maxSpend.Some? {
      BudgetedLimitBuy(price, size, tick, maxSpend.value, fees.value);
    } else {
      PlainLimitOrder(side, price, size, tick, maxSpend, fees);
    }
  }

  /** Without a budget an accepted price and size make an order exactly when the size has at most two places
      and fits 256 bits in base units; nothing else is refused. */
  lemma AcceptedMakesOrder(side: Side, price: Dec, size: Dec, tick: TickSize, maxSpend: Option<Dec>, fees: Option<FeeTerms>)
    requires Accepted(price, size, tick) && (side.Sell? || maxSpend.None?)
    ensures BuildLimitOrder(side, price, size, tick, maxSpend, fees).Ok? <==>
            RoundingConfig(tick).Some? && size.prec <= 2 && size.value * E6 < UINT256_END as real
  {
    hide Mul, BaseUnits, Grid, Scale, RoundToAmount, AdjustMarketBuyAmount, RoundDown, RoundNormal, Accepted;
    if RoundingConfig(tick).Some? && size.prec <= 2 {
      PlainAmounts(side, price, size, tick, maxSpend, fees);
      hide BuildLimitOrder;
      CollateralInRange(BaseUnits(size), BaseUnits(Mul(size, price)), size.value, price.value);
    }
  }

  /** Every rounding step of an accepted order without a budget is the identity. */
  lemma PlainAmounts(side: Side, price: Dec, size: Dec, tick: TickSize, maxSpend: Option<Dec>, fees: Option<FeeTerms>)
    requires Accepted(price, size, tick) && (side.Sell? || maxSpend.None?)
    requires RoundingConfig(tick).Some? && size.prec <= 2
    ensures
      var shares, collateral := BaseUnits(size), BaseUnits(Mul(size, price));
      && shares as real == size.value * E6 && collateral as real == shares as real * price.value
      && size.value > 0.0 && 0.0 < price.value < 1.0
      && BuildLimitOrder(side, price, size, tick, maxSpend, fees) ==
         if side.Sell? then Checked(shares, collateral) else Checked(collateral, shares)
  {
    hide Mul, Grid, RoundToAmount, BaseUnits, Scale, Checked;
    SupportedTick(tick);
    ExactCollateral(size, price, RoundingConfig(tick).value);
  }

  lemma CollateralInRange(shares: int, collateral: int, size: real, price: real)
    requires shares as real == size * E6 && collateral as real == shares as real * price
    requires size > 0.0 && 0.0 < price <= 1.0
    ensures 0 < collateral <= shares && (shares < UINT256_END <==> size * E6 < UINT256_END as real)
  {
    PositiveProduct(shares as real, price);
    MulMono(price, 1.0, shares as real);
  }

  lemma PlainLimitOrder(side: Side, price: Dec, size: Dec, tick: TickSize, maxSpend: Option<Dec>, fees: Option<FeeTerms>)
    requires Accepted(price, size, tick) && (side.Sell? || maxSpend.None?)
    requires BuildLimitOrder(side, price, size, tick, maxSpend, fees).Ok?
    ensures
      var a := BuildLimitOrder(side, price, size, tick, maxSpend, fees).value;
      && Collateral(side, a) as real == Shares(side, a) as real * price.value
      && Shares(side, a) as real == size.value * E6
  {
    hide Mul, BaseUnits, Accepted, Grid, Scale, RoundToAmount, AdjustMarketBuyAmount, RoundDown, RoundNormal;
    SupportedTick(tick);
    PlainAmounts(side, price, size, tick, maxSpend, fees);
  }
}
