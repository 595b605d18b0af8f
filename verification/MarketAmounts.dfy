/**
 The amounts that a market order signs (clob/market_order.go), and when it signs any: for every side, with and
 without a price bound and a budget.
 */
module MarketAmounts {
  import opened Common
  import opened Decimals
  import opened OrderMath
  import opened MaxSpend
  import opened LimitOrder
  import opened MarketOrder

  predicate InRange(n: int) {
    0 < n < UINT256_END
  }

  /** An order and the price it is built at: the order price truncated to the price places of the tick. */
  ghost predicate Buildable(o: Order, tick: TickSize, p: real) {
    && RoundingConfig(tick).Some? && ValidOrder(o) && o.amount.value > 0.0 && Positive(o.maxSpend)
    && p == Trunc(o.price.value, Scale(RoundingConfig(tick).value.price)) && 0.0 < p <= 1.0
  }

  lemma BuiltPrice(o: Order, tick: TickSize, p: real)
    requires Buildable(o, tick, p)
    ensures
      var cfg := RoundingConfig(tick).value;
      var price := RoundDown(o.price, cfg.price);
      && price.value == p && Valid(price) && price.prec <= cfg.price <= 4
      && cfg.size == 2 && cfg.price + 2 == cfg.amount && 3 <= cfg.amount <= 6
  {
    hide Scale, Trunc, Grid;
    SupportedTick(tick);
    var cfg := RoundingConfig(tick).value;
    if o.price.value < 0.0 {
      TruncNotPositive(o.price.value, Scale(cfg.price));
    }
    RoundDownValue(o.price, cfg.price);
  }

  /** A sell signs its amount, truncated to hundredths of a share, and exactly that times the price; it is
      signed if and only if a hundredth is left and both fit. A price bound changes nothing. */
  lemma SellAmounts(o: Order, tick: TickSize, fees: Option<FeeTerms>, p: real)
    requires Buildable(o, tick, p) && o.side.Sell?
    ensures
      var r, shares := BuildMarketOrder(o, tick, fees), Trunc(o.amount.value, 100.0);
      && (r.Ok? <==> shares > 0.0 && shares * E6 < UINT256_END as real)
      && (r.Ok? ==> r.value.maker as real == shares * E6 && r.value.taker as real == shares * p * E6)
  {
    hide Mul, Scale, Trunc, BaseUnits, RoundToAmount, BuildMarketOrder, Protected, Buildable;
    var maker, taker := SellBuild(o, tick, fees, p);
    var shares := Trunc(o.amount.value, 100.0);
    if shares > 0.0 {
      CollateralInRange(maker, taker, shares, p);
      SellProtected(maker, taker, p);
    }
  }

  lemma SellBuild(o: Order, tick: TickSize, fees: Option<FeeTerms>, p: real) returns (maker: int, taker: int)
    requires Buildable(o, tick, p) && o.side.Sell?
    ensures
      var shares := Trunc(o.amount.value, 100.0);
      && shares >= 0.0 && 0.0 < p <= 1.0 && maker as real == shares * E6 && taker as real == maker as real * p
      && taker as real == shares * p * E6
    ensures BuildMarketOrder(o, tick, fees) ==
            if PriceBound(o).Some? && !Protected(maker, taker, Sell, p) then Err(ProtectedAmounts)
            else if InRange(maker) && InRange(taker) then Ok(Amounts(maker, taker)) else Err(Rejected(BadAmounts))
  {
    hide Mul, Scale, Trunc, BaseUnits, RoundToAmount, Protected;
    BuiltPrice(o, tick, p);
    var cfg := RoundingConfig(tick).value;
    var price, shares := RoundDown(o.price, cfg.price), RoundDown(o.amount, 2);
    TwoPlaces();
    RoundDownValue(o.amount, 2);
    ExactCollateral(shares, price, cfg);
    maker, taker := BaseUnits(shares), BaseUnits(Mul(shares, price));
  }

  lemma SellProtected(maker: int, taker: int, p: real)
    requires maker > 0 && taker > 0 && p > 0.0 && taker as real == maker as real * p
    ensures Protected(maker, taker, Sell, p)
  {
    ExactRatio(maker, taker, p);
  }

  /** A quotient of 19 places, truncated to `a` places unless it lies in the last ten-thousandth of a step, when it
      is taken up to the next. */
  function NearestShares(quotient: real, a: nat): real {
    var q := Trunc(quotient, E19);
    var t := Trunc(q, Scale(a));
    var next := t + 1.0 / Scale(a);
    if q <= next - 1.0 / Scale(a + 4) then t else next
  }

  /** An ordinary buy, without a price bound and without a budget, signs the whole base units of its amount as
      maker and the shares that they buy at the price as taker. */
  lemma PlainBuyAmounts(o: Order, tick: TickSize, fees: Option<FeeTerms>, p: real)
    requires Buildable(o, tick, p) && o.side.Buy? && o.maxPrice.None? && o.maxSpend.None?
    ensures
      var r, amount := BuildMarketOrder(o, tick, fees), o.amount.value;
      var shares := NearestShares(amount / p, RoundingConfig(tick).value.amount);
      && (r.Ok? <==> InRange((amount * E6).Floor) && InRange((shares * E6).Floor))
      && (r.Ok? ==> r.value.maker == (amount * E6).Floor && r.value.taker as real == shares * E6)
  {
    hide BuildMarketOrder, NearestShares, Scale, Trunc;
    UnboundedBuyAmounts(o, tick, fees, p, o.amount);
  }

  /** A buy signs the dollar amount it is left with. Without a price bound that is every whole base unit of it,
      and the shares are what it buys at the price, at the amount places of the tick. */
  lemma UnboundedBuyAmounts(o: Order, tick: TickSize, fees: Option<FeeTerms>, p: real, x: Dec)
    requires Buildable(o, tick, p) && o.side.Buy? && o.maxPrice.None?
    requires BuyAmount(o, RoundDown(o.price, RoundingConfig(tick).value.price), fees) == Ok(x) && x.value >= 0.0
    ensures
      var r, shares := BuildMarketOrder(o, tick, fees), NearestShares(x.value / p, RoundingConfig(tick).value.amount);
      && (r.Ok? <==> InRange((x.value * E6).Floor) && InRange((shares * E6).Floor))
      && (r.Ok? ==> r.value.maker == (x.value * E6).Floor && r.value.taker as real == shares * E6)
  {
    hide Scale, Trunc, BaseUnits, RoundToAmount, BuyAmount;
    BuiltPrice(o, tick, p);
    var cfg := RoundingConfig(tick).value;
    var price := RoundDown(o.price, cfg.price);
    var quotient := Div(x, price);
    UnboundedShares(x, price, cfg);
    WholeUnitsOfAmount(x);
    assert RawAmounts(o, price, cfg, fees) == Ok((x, RoundToAmount(quotient, cfg)));
  }

  lemma WholeUnitsOfAmount(x: Dec)
    requires x.value >= 0.0
    ensures BaseUnits(x) == (x.value * E6).Floor
  {
  }

  lemma UnboundedShares(x: Dec, price: Dec, cfg: RoundConfig)
    requires x.value >= 0.0 && price.value > 0.0 && cfg.amount <= 6
    ensures
      var shares := NearestShares(x.value / price.value, cfg.amount);
      && BaseUnits(RoundToAmount(Div(x, price), cfg)) as real == shares * E6
      && BaseUnits(RoundToAmount(Div(x, price), cfg)) == (shares * E6).Floor
  {
    hide Scale, Trunc, RoundToAmount, BaseUnits, Grid;
    QuotientLoss(x, price);
    NineteenPlaces();
    var q := Div(x, price);
    TruncBounds(x.value / price.value, E19);
    RoundToAmountValue(q, cfg);
    TruncBounds(q.value, Scale(cfg.amount));
    GridStep(Trunc(q.value, Scale(cfg.amount)), Scale(cfg.amount));
    var rounded := RoundToAmount(q, cfg);
    AmountOnSix(rounded, cfg.amount);
  }

  lemma AmountOnSix(d: Dec, a: nat)
    requires a <= 6 && d.value >= 0.0 && Grid(d.value, Scale(a))
    ensures BaseUnits(d) as real == d.value * E6 && BaseUnits(d) == (d.value * E6).Floor
  {
    hide Scale;
    ScaleAdds(a, 6 - a);
    SixPlaces();
    WholeScale(6 - a);
    GridWidenTo(d.value, Scale(a), Scale(6 - a), E6);
    WholeBase(d);
  }

  /** The dollars a buy is left with, in whole base units. */
  lemma BuyDollars(o: Order, price: Dec, fees: Option<FeeTerms>, x: Dec)
    requires Valid(o.amount) && o.amount.value > 0.0 && Valid(price) && price.prec <= 9 && 0.0 < price.value <= 1.0
    requires ValidOption(o.maxSpend) && Positive(o.maxSpend) && FeesCharged(fees) && BuyAmount(o, price, fees) == Ok(x)
    ensures x.value > 0.0 && RoundDown(x, 6).value == Trunc(x.value, E6)
    ensures o.maxSpend.None? ==> x == o.amount
    ensures o.maxSpend.Some? ==> Trunc(x.value, E6) == x.value
  {
    hide Scale, Trunc, AdjustMarketBuyAmount, Sensible, Grid;
    SixPlaces();
    if o.maxSpend.None? {
      RoundDownValue(o.amount, 6);
    } else {
      SensibleBuy(o.amount, o.maxSpend.value, price, fees.value);
      AdjustedIsWhole(o.amount, o.maxSpend.value, price, fees.value.rate, fees.value.exponent, fees.value.builder);
      TruncFixed(x.value, E6);
    }
  }

  /** With a price bound the dollars are truncated to base units first, and the shares are the most, at the amount
      places, that those pay for; the order is signed if and only if the guard passes and both fit. */
  lemma BoundedBuyAmounts(o: Order, tick: TickSize, fees: Option<FeeTerms>, p: real, x: Dec)
    requires Buildable(o, tick, p) && o.side.Buy? && o.maxPrice.Some? && FeesCharged(fees)
    requires BuyAmount(o, RoundDown(o.price, RoundingConfig(tick).value.price), fees) == Ok(x)
    ensures
      var r, a := BuildMarketOrder(o, tick, fees), RoundingConfig(tick).value.amount;
      var dollars := Trunc(x.value, E6);
      var shares := Trunc(dollars / p, Scale(a));
      var maker, taker := (dollars * E6).Floor, (shares * E6).Floor;
      && maker as real == dollars * E6 && taker as real == shares * E6
      && (r.Ok? <==> Protected(maker, taker, Buy, p) && InRange(maker) && InRange(taker))
      && (r.Ok? ==> r.value == Amounts(maker, taker))
      && (r == Err(ProtectedAmounts) <==> !Protected(maker, taker, Buy, p))
  {
    hide Scale, Trunc, BaseUnits, BuyAmount, Protected, Div;
    BuiltPrice(o, tick, p);
    var cfg := RoundingConfig(tick).value;
    var price := RoundDown(o.price, cfg.price);
    BuyDollars(o, price, fees, x);
    var maker, taker := BoundedUnits(x, price, cfg);
    assert RawAmounts(o, price, cfg, fees) == Ok((RoundDown(x, 6), RoundDown(Div(RoundDown(x, 6), price), cfg.amount)));
  }

  lemma BoundedUnits(x: Dec, price: Dec, cfg: RoundConfig) returns (maker: int, taker: int)
    requires x.value > 0.0 && RoundDown(x, 6).value == Trunc(x.value, E6) && price.value > 0.0 && 3 <= cfg.amount <= 6
    ensures
      var dollars := Trunc(x.value, E6);
      var shares := Trunc(dollars / price.value, Scale(cfg.amount));
      && maker == BaseUnits(RoundDown(x, 6)) == (dollars * E6).Floor && maker as real == dollars * E6
      && taker == BaseUnits(RoundDown(Div(RoundDown(x, 6), price), cfg.amount)) == (shares * E6).Floor
      && taker as real == shares * E6
  {
    hide Scale, Trunc, BaseUnits, RoundDown, Div;
    TruncBounds(x.value, E6);
    var dollars := RoundDown(x, 6);
    WholeBase(dollars);
    WholeUnitsOfAmount(dollars);
    maker := BaseUnits(dollars);
    QuotientShares(dollars, price, cfg.amount);
    AmountOnSix(RoundDown(Div(dollars, price), cfg.amount), cfg.amount);
    taker := BaseUnits(RoundDown(Div(dollars, price), cfg.amount));
  }

  /** What a buy is refused for before its amounts: a budget without known fees, or one that the adjustment
      refuses. */
  lemma BuyRefusals(o: Order, tick: TickSize, fees: Option<FeeTerms>, p: real)
    requires Buildable(o, tick, p) && o.side.Buy? && o.maxSpend.Some?
    ensures fees.None? ==> BuildMarketOrder(o, tick, fees) == Err(Rejected(FeesUnavailable))
    ensures fees.Some? ==>
              var price := RoundDown(o.price, RoundingConfig(tick).value.price);
              var adjusted := AdjustMarketBuyAmount(o.amount, o.maxSpend.value, price, fees.value.rate,
                                                    fees.value.exponent, fees.value.builder);
              && (adjusted.Err? ==> BuildMarketOrder(o, tick, fees) == Err(Rejected(Adjust(adjusted.error))))
              && (adjusted.Ok? ==> BuyAmount(o, price, fees) == Ok(adjusted.value))
  {
    hide Scale, Trunc, AdjustMarketBuyAmount, RoundDown, Div, BaseUnits, Protected;
  }

  /** What a market buy with a budget signs, with its exact fees, stays within the budget up to the 19-place
      truncation, with or without a price bound. */
  lemma BudgetedMarketSpend(o: Order, tick: TickSize, fees: FeeTerms, p: real)
    requires Buildable(o, tick, p) && o.side.Buy? && o.maxSpend.Some? && FeesCharged(Some(fees))
    requires BuildMarketOrder(o, tick, Some(fees)).Ok?
    ensures
      var price := RoundDown(o.price, RoundingConfig(tick).value.price);
      var spent := BuildMarketOrder(o, tick, Some(fees)).value.maker as real / E6;
      var budget := o.maxSpend.value;
      var cost := Cost(spent, p, PlatformRate(p, fees.rate.value, fees.exponent), fees.builder.value);
      && price.value == p
      && (Shrinks(o.amount, budget, price, fees.rate, fees.exponent, fees.builder) ==>
            cost <= budget.value + EPS * (spent * ((1.0 + fees.rate.value) / p + 1.0)))
      && (!Shrinks(o.amount, budget, price, fees.rate, fees.exponent, fees.builder) ==>
            && spent == Trunc(o.amount.value, E6)
            && cost <= budget.value + EPS * (o.amount.value / p * (1.0 + fees.rate.value)
                                             + FeeRate(price, fees.rate, fees.exponent).value + 2.0))
  {
    hide BuildMarketOrder, Shrinks, Cost, PlatformRate, FeeRate, Divisor, Sensible, AdjustMarketBuyAmount, Trunc, Scale;
    BuiltPrice(o, tick, p);
    var price, budget := RoundDown(o.price, RoundingConfig(tick).value.price), o.maxSpend.value;
    var x := BudgetedDollars(o, tick, fees, p);
    SensibleBuy(o.amount, budget, price, fees);
    var exact := PlatformRate(p, fees.rate.value, fees.exponent);
    ExactRateNonNegative(p, fees.rate.value, fees.exponent);
    if Shrinks(o.amount, budget, price, fees.rate, fees.exponent, fees.builder) {
      ShrunkMaxSpend(o.amount, budget, price, fees.rate, fees.exponent, fees.builder);
      CostBelow(x.value, x.value, p, exact, fees.builder.value);
    } else {
      KeptMaxSpend(o.amount, budget, price, fees.rate, fees.exponent, fees.builder);
      CostBelow(x.value, o.amount.value, p, exact, fees.builder.value);
    }
  }

  /** A budgeted buy signs exactly its adjusted amount. */
  lemma BudgetedDollars(o: Order, tick: TickSize, fees: FeeTerms, p: real) returns (x: Dec)
    requires Buildable(o, tick, p) && o.side.Buy? && o.maxSpend.Some? && FeesCharged(Some(fees))
    requires BuildMarketOrder(o, tick, Some(fees)).Ok?
    ensures
      var price := RoundDown(o.price, RoundingConfig(tick).value.price);
      && AdjustMarketBuyAmount(o.amount, o.maxSpend.value, price, fees.rate, fees.exponent, fees.builder) == Ok(x)
      && BuildMarketOrder(o, tick, Some(fees)).value.maker as real / E6 == x.value
  {
    hide BuildMarketOrder, AdjustMarketBuyAmount, Trunc, Scale, BuyAmount, Protected;
    BuiltPrice(o, tick, p);
    BuyRefusals(o, tick, Some(fees), p);
    var price := RoundDown(o.price, RoundingConfig(tick).value.price);
    x := AdjustMarketBuyAmount(o.amount, o.maxSpend.value, price, fees.rate, fees.exponent, fees.builder).value;
    BuyDollars(o, price, Some(fees), x);
    TruncBounds(x.value, E6);
    if o.maxPrice.None? {
      UnboundedBuyAmounts(o, tick, Some(fees), p, x);
    } else {
      BoundedBuyAmounts(o, tick, Some(fees), p, x);
    }
  }
}
