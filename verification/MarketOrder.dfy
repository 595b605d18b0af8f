/**
 Market orders: price protection, amounts, and the refresh-and-rebuild path
 (clob/market_order.go, clob/order_context.go).
 */
module MarketOrder {
  import opened Common
  import opened Decimals
  import opened OrderMath
  import opened MaxSpend
  import opened LimitOrder

  datatype Order = Order(
    tokenId: string, positionId: string, side: Side, amount: Dec, price: Dec,
    maxPrice: Option<Dec>, minPrice: Option<Dec>, maxSpend: Option<Dec>, orderType: string)

  datatype MarketError =
    | InvalidArguments | UnsupportedOrderType | TickUnavailable | PriceRejected | PriceUnavailable | RiskUnavailable
    | ProtectedAmounts | Rejected(error: LimitError)

  ghost predicate ValidOption(d: Option<Dec>) {
    d.Some? ==> Valid(d.value)
  }

  ghost predicate ValidOrder(o: Order) {
    Valid(o.amount) && Valid(o.price) && ValidOption(o.maxPrice) && ValidOption(o.minPrice) && ValidOption(o.maxSpend)
  }

  predicate Positive(d: Option<Dec>) {
    d.Some? ==> d.value.value > 0.0
  }

  predicate ValidArguments(o: Order) {
    && (o.tokenId == "") != (o.positionId == "")
    && o.amount.value > 0.0 && o.price.value >= 0.0
    && (o.side.Buy? ==> o.minPrice.None?)
    && (o.side.Sell? ==> o.maxPrice.None? && o.maxSpend.None?)
    && Positive(o.maxPrice) && Positive(o.minPrice) && Positive(o.maxSpend)
  }

  function PriceBound(o: Order): Option<Dec> {
    if o.side.Buy? then o.maxPrice else o.minPrice
  }

  /** An explicit price may be stricter than the protection, never weaker. */
  function Tightened(o: Order): Dec {
    if PriceBound(o).None? then o.price
    else
      var bound := PriceBound(o).value;
      if o.price.value == 0.0 || (o.side.Buy? && o.price.value > bound.value) || (o.side.Sell? && o.price.value < bound.value)
      then bound else o.price
  }

  const NEXT_ASK: real := 0.0001

  /** Compares the wire amounts with the price exactly. */
  predicate Protected(maker: int, taker: int, side: Side, price: real) {
    && maker != 0 && taker != 0
    && (side.Sell? ==> taker as real / maker as real >= price)
    && (side.Buy? ==> price <= maker as real / taker as real < price + NEXT_ASK)
  }

  /** The USDC amount of a buy after its budget, if any. */
  function BuyAmount(o: Order, price: Dec, fees: Option<FeeTerms>): Result<Dec, MarketError> {
    if o.maxSpend.None? then Ok(o.amount)
    else if fees.None? then Err(Rejected(FeesUnavailable))
    else
      match AdjustMarketBuyAmount(o.amount, o.maxSpend.value, price, fees.value.rate, fees.value.exponent, fees.value.builder)
      case Ok(adjusted) => Ok(adjusted)
      case Err(e) => Err(Rejected(Adjust(e)))
  }

  /** The decimal maker and taker amounts, before conversion to base units. */
  function RawAmounts(o: Order, price: Dec, cfg: RoundConfig, fees: Option<FeeTerms>): Result<(Dec, Dec), MarketError> {
    match o.side
    case Sell =>
      var maker := RoundDown(o.amount, cfg.size);
      Ok((maker, RoundToAmount(Mul(maker, price), cfg)))
    case Buy =>
      match BuyAmount(o, price, fees)
      case Err(e) => Err(e)
      case Ok(adjusted) =>
        if price.value == 0.0 then Err(Rejected(Adjust(DivisionByZero)))
        else if o.maxPrice.Some? then
          var maker := RoundDown(adjusted, 6);
          Ok((maker, RoundDown(Div(maker, price), cfg.amount)))
        else Ok((adjusted, RoundToAmount(Div(adjusted, price), cfg)))
  }

  function Signed(maker: int, taker: int): Result<Amounts, MarketError> {
    match Checked(maker, taker)
    case Ok(a) => Ok(a)
    case Err(e) => Err(Rejected(e))
  }

  function BuildMarketOrder(o: Order, tick: TickSize, fees: Option<FeeTerms>): Result<Amounts, MarketError> {
    match RoundingConfig(tick)
    case None => Err(Rejected(UnsupportedTick))
    case Some(cfg) =>
      var price := RoundDown(o.price, cfg.price);
      match RawAmounts(o, price, cfg, fees)
      case Err(e) => Err(e)
      case Ok((maker, taker)) =>
        if PriceBound(o).Some? && !Protected(BaseUnits(maker), BaseUnits(taker), o.side, price.value) then Err(ProtectedAmounts)
        else Signed(BaseUnits(maker), BaseUnits(taker))
  }

  /** `buildSignedMarketOrder`, step by step. */
  method BuildSignedMarketOrder(o: Order, tick: TickSize, fees: Option<FeeTerms>) returns (r: Result<Amounts, MarketError>)
    ensures r == BuildMarketOrder(o, tick, fees)
  {
    if RoundingConfig(tick).None? {
      return Err(Rejected(UnsupportedTick));
    }
    var cfg := RoundingConfig(tick).value;
    var price := RoundDown(o.price, cfg.price);
    var rawMaker, rawTaker := o.amount, o.amount;
    match o.side {
      case Buy =>
        if o.maxSpend.Some? {
          var adjusted := BuyAmount(o, price, fees);
          if adjusted.Err? {
            return Err(adjusted.error);
          }
          rawMaker := adjusted.value;
        }
        if price.value == 0.0 {
          return Err(Rejected(Adjust(DivisionByZero)));
        }
        if o.maxPrice.Some? {
          rawMaker := RoundDown(rawMaker, 6);
        }
        var quotient := Div(rawMaker, price);
        if o.maxPrice.Some? {
          rawTaker := RoundDown(quotient, cfg.amount);
        } else {
          rawTaker := RoundToAmount(quotient, cfg);
        }
      case Sell =>
        rawMaker := RoundDown(o.amount, cfg.size);
        rawTaker := RoundToAmount(Mul(rawMaker, price), cfg);
    }
    var maker, taker := BaseUnits(rawMaker), BaseUnits(rawTaker);
    if PriceBound(o).Some? {
      if !Protected(maker, taker, o.side, price.value) {
        return Err(ProtectedAmounts);
      }
    }
    r := Signed(maker, taker);
  }

  /* The guard is met exactly by the orders it is meant for */

  /** A protected sell with any shares left after truncation always passes the guard: its
      encoded price is the order price itself. */
  lemma SellMeetsGuard(o: Order, tick: TickSize, fees: Option<FeeTerms>)
    requires RoundingConfig(tick).Some? && o.side.Sell? && Valid(o.amount) && Valid(o.price) && o.amount.value > 0.0
    requires RoundDown(o.price, RoundingConfig(tick).value.price).value > 0.0
    requires RoundDown(o.amount, 2).value > 0.0
    ensures BuildMarketOrder(o, tick, fees) != Err(ProtectedAmounts)
    ensures
      var r := BuildMarketOrder(o, tick, fees);
      r.Ok? ==> r.value.maker > 0 &&
                r.value.taker as real == r.value.maker as real * RoundDown(o.price, RoundingConfig(tick).value.price).value
  {
    hide Grid, Scale, Trunc, Mul, BaseUnits, RoundToAmount;
    SupportedTick(tick);
    var cfg := RoundingConfig(tick).value;
    var price, maker := RoundDown(o.price, cfg.price), RoundDown(o.amount, 2);
    RoundDownValue(o.price, cfg.price) by { PositiveBelow(o.price, cfg.price); }
    RoundDownValue(o.amount, 2);
    ExactCollateral(maker, price, cfg);
    ExactRatio(BaseUnits(maker), BaseUnits(Mul(maker, price)), price.value);
  }

  lemma PositiveBelow(d: Dec, p: nat)
    requires RoundDown(d, p).value > 0.0
    ensures d.value > 0.0
  {
    hide Scale, Trunc;
    if d.value <= 0.0 {
      TruncNotPositive(d.value, Scale(p));
    }
  }

  lemma TruncNotPositive(x: real, s: real)
    requires x <= 0.0 && s >= 1.0
    ensures Trunc(x, s) <= 0.0
  {
    NonNegativeProduct(-x, s);
    TruncBounds(-x, s);
  }

  lemma ExactRatio(maker: int, taker: int, price: real)
    requires maker > 0 && price > 0.0 && taker as real == maker as real * price
    ensures taker > 0 && taker as real / maker as real == price
  {
  }

  ghost predicate FeesCharged(fees: Option<FeeTerms>) {
    fees.Some? ==> fees.value.rate.value >= 0.0 && fees.value.builder.value >= 0.0
  }

  /** The maker amount of a protected buy is a whole number of base units. */
  lemma BuyMakerIsWhole(o: Order, price: Dec, fees: Option<FeeTerms>)
    requires Valid(o.amount) && o.amount.value > 0.0 && Valid(price) && price.prec <= 9 && 0.0 < price.value <= 1.0
    requires ValidOption(o.maxSpend) && Positive(o.maxSpend) && FeesCharged(fees) && BuyAmount(o, price, fees).Ok?
    ensures
      var maker := RoundDown(BuyAmount(o, price, fees).value, 6);
      maker.value >= 0.0 && Grid(maker.value, E6) && BaseUnits(maker) as real == maker.value * E6
  {
    hide Grid, Scale, Trunc, AdjustMarketBuyAmount, Divisor, BaseUnits, Sensible;
    SixPlaces();
    if o.maxSpend.None? {
      RoundDownValue(o.amount, 6);
    } else {
      SensibleBuy(o.amount, o.maxSpend.value, price, fees.value);
      AdjustedIsWhole(o.amount, o.maxSpend.value, price, fees.value.rate, fees.value.exponent, fees.value.builder);
      TruncFixed(BuyAmount(o, price, fees).value.value, E6);
    }
    WholeBase(RoundDown(BuyAmount(o, price, fees).value, 6));
  }

  lemma SensibleBuy(amount: Dec, maxSpend: Dec, price: Dec, fees: FeeTerms)
    requires Valid(amount) && amount.value > 0.0 && Valid(price) && price.prec <= 9 && 0.0 < price.value <= 1.0
    requires Valid(maxSpend) && maxSpend.value > 0.0 && fees.rate.value >= 0.0 && fees.builder.value >= 0.0
    ensures Sensible(amount, maxSpend, price, fees.rate, fees.builder)
  {
  }

  /** The encoded price of a protected buy, from its decimal amounts. */
  lemma BuyRatio(m: real, p: real, t: real, s: real, maker: int, taker: int)
    requires p > 0.0 && s >= 1.0 && t > 0.0 && t * p <= m && m < t * p + p / s
    requires maker as real == m * E6 && taker as real == t * E6
    ensures taker > 0 && p <= maker as real / taker as real
    ensures p * 10000.0 / s <= t ==> maker as real / taker as real < p + NEXT_ASK
  {
    var q := maker as real / taker as real;
    RatioOfUnits(m, t, maker, taker);
    Unscale(p, q, t);
    if p * 10000.0 / s <= t {
      assert p * 10000.0 / s == p / s * 10000.0;
      DistributeRight(p, NEXT_ASK, t);
      UnscaleStrict(q, p + NEXT_ASK, t);
    }
  }

  lemma RatioOfUnits(m: real, t: real, maker: int, taker: int)
    requires t > 0.0 && maker as real == m * E6 && taker as real == t * E6
    ensures taker > 0 && maker as real / taker as real * t == m
  {
    var q := maker as real / taker as real;
    DivMul(maker as real, taker as real);
    assert q * (t * E6) == q * t * E6;
  }

  /** A protected buy never encodes a price below its own, and passes the guard as soon as its
      shares reach price * 10^(4 - amount places). */
  lemma BuyMeetsGuard(o: Order, tick: TickSize, fees: Option<FeeTerms>)
    requires RoundingConfig(tick).Some? && o.side.Buy? && o.maxPrice.Some?
    requires Valid(o.amount) && o.amount.value > 0.0 && ValidOption(o.maxSpend) && Positive(o.maxSpend) && FeesCharged(fees)
    requires
      var price := RoundDown(o.price, RoundingConfig(tick).value.price);
      Valid(price) && price.prec <= 4 && 0.0 < price.value <= 1.0
    requires RawAmounts(o, RoundDown(o.price, RoundingConfig(tick).value.price), RoundingConfig(tick).value, fees).Ok?
    ensures
      var cfg := RoundingConfig(tick).value;
      var price := RoundDown(o.price, cfg.price);
      var (maker, taker) := RawAmounts(o, price, cfg, fees).value;
      && taker.value >= 0.0
      && (taker.value > 0.0 ==>
            BaseUnits(taker) > 0 && price.value <= BaseUnits(maker) as real / BaseUnits(taker) as real)
      && (taker.value > 0.0 && price.value * 10000.0 / Scale(cfg.amount) <= taker.value ==>
            BuildMarketOrder(o, tick, fees) != Err(ProtectedAmounts))
  {
    hide Grid, Scale, Trunc, BaseUnits, BuyAmount;
    SupportedTick(tick);
    var cfg := RoundingConfig(tick).value;
    var price := RoundDown(o.price, cfg.price);
    BuyMakerIsWhole(o, price, fees);
    var (maker, taker) := RawAmounts(o, price, cfg, fees).value;
    BuyTaker(maker, price, taker, cfg);
    if taker.value > 0.0 {
      BuyRatio(maker.value, price.value, taker.value, Scale(cfg.amount), BaseUnits(maker), BaseUnits(taker));
      NonZeroMaker(price.value, BaseUnits(maker), BaseUnits(taker));
    }
  }

  lemma NonZeroMaker(price: real, maker: int, taker: int)
    requires taker > 0 && 0.0 < price <= maker as real / taker as real
    ensures maker != 0
  {
  }

  /** The share amount of a protected buy: the quotient truncated to the amount places, whole in base units. */
  lemma BuyTaker(maker: Dec, price: Dec, taker: Dec, cfg: RoundConfig)
    requires maker.value >= 0.0 && price.value > 0.0 && taker == RoundDown(Div(maker, price), cfg.amount)
    requires 3 <= cfg.amount <= 6
    ensures taker.value >= 0.0 && BaseUnits(taker) as real == taker.value * E6
    ensures taker.value * price.value <= maker.value
    ensures maker.value < taker.value * price.value + price.value / Scale(cfg.amount)
  {
    hide Scale, Trunc, BaseUnits;
    QuotientShares(maker, price, cfg.amount);
    WholeUnits(taker);
  }

  /* End to end */

  /** A price on the tick grid survives the rounding of the order builder unchanged. */
  lemma AlignedRoundsToItself(price: Dec, tick: TickSize)
    requires RoundingConfig(tick).Some? && Valid(price) && price.value >= 0.0 && Aligned(price, tick)
    ensures RoundDown(price, RoundingConfig(tick).value.price).value == price.value
  {
    hide Grid, Trunc, Scale;
    SupportedTick(tick);
    var cfg, minimum := RoundingConfig(tick).value, ParseTickSize(tick).value.value;
    MultipleOnGrid(price.value, minimum, Scale(cfg.price));
    RoundDownValue(price, cfg.price);
    TruncFixed(price.value, Scale(cfg.price));
  }

  lemma MultipleOnGrid(x: real, unit: real, s: real)
    requires unit > 0.0 && IsInt(x / unit) && Grid(unit, s)
    ensures Grid(x, s)
  {
    DivMul(x, unit);
    IntMul(x / unit, unit * s, x * s) by {
      assert x / unit * (unit * s) == x / unit * unit * s;
    }
  }

  /** A protected order that was built carries the promised price, when the price is on the tick grid. */
  lemma BuiltIsProtected(o: Order, tick: TickSize, fees: Option<FeeTerms>)
    requires PriceBound(o).Some? && BuildMarketOrder(o, tick, fees).Ok?
    requires Valid(o.price) && o.price.value >= 0.0 && Aligned(o.price, tick)
    ensures
      var a := BuildMarketOrder(o, tick, fees).value;
      && a.maker > 0 && a.taker > 0
      && (o.side.Sell? ==> a.taker as real / a.maker as real >= o.price.value)
      && (o.side.Buy? ==> o.price.value <= a.maker as real / a.taker as real < o.price.value + NEXT_ASK)
  {
    hide RawAmounts, RoundDown, Aligned, BaseUnits;
    AlignedRoundsToItself(o.price, tick);
  }

  /** The three checks a price has to pass at a tick. */
  predicate PricePasses(price: Dec, tick: TickSize) {
    ValidPrice(price, tick) && ValidPrecision(price, tick) && Aligned(price, tick)
  }

  /** How many ticks make one. */
  function TicksInOne(tick: TickSize): int
    requires RoundingConfig(tick).Some?
  {
    match tick
    case Tenth => 10
    case Hundredth => 100
    case HalfCent => 200
    case QuarterCent => 400
    case Thousandth => 1000
    case TenThousandth => 10000
  }

  /** The prices that pass at a supported tick, within its places, are exactly the whole numbers of ticks strictly
      between zero and one. */
  lemma PassesExactly(price: Dec, tick: TickSize)
    requires RoundingConfig(tick).Some?
    ensures
      var n, x := TicksInOne(tick), price.value * TicksInOne(tick) as real;
      PricePasses(price, tick) <==> price.prec <= RoundingConfig(tick).value.price && IsInt(x) && 0.0 < x < n as real
  {
    SupportedTick(tick);
    var n, unit := TicksInOne(tick) as real, ParseTickSize(tick).value.value;
    assert unit * n == 1.0;
    InTicks(price.value, unit, n);
  }

  lemma InTicks(v: real, unit: real, n: real)
    requires unit > 0.0 && n > 0.0 && unit * n == 1.0 && IsInt(n)
    ensures v / unit == v * n
    ensures IsInt(v * n) ==> (unit <= v <= 1.0 - unit <==> 0.0 < v * n < n)
  {
    QuotientOf(v * n, unit, v) by { Regrouped(v, n, unit); }
    if IsInt(v * n) {
      WholeBetween(v, unit, n, v * n);
    }
  }

  lemma Regrouped(v: real, n: real, unit: real)
    requires unit * n == 1.0
    ensures v == v * n * unit
  {
    assert v * n * unit == v * (unit * n);
  }

  lemma WholeBetween(v: real, unit: real, n: real, x: real)
    requires unit > 0.0 && n > 0.0 && unit * n == 1.0 && x == v * n && IsInt(x) && IsInt(n)
    ensures unit <= v <= 1.0 - unit <==> 0.0 < x < n
  {
    WholeStep(x.Floor, n.Floor);
    LessOne(unit, n);
    ScaledIff(unit, v, n, 1.0, x);
    ScaledIff(v, 1.0 - unit, n, x, n - 1.0);
  }

  lemma WholeStep(a: int, b: int)
    ensures 0.0 < a as real < b as real <==> 1.0 <= a as real <= b as real - 1.0
  {
    if 0.0 < a as real < b as real {
      assert 1 <= a && a + 1 <= b;
      assert 1.0 <= a as real && (a + 1) as real <= b as real;
    }
  }

  lemma ScaledIff(x: real, y: real, z: real, xz: real, yz: real)
    requires z > 0.0 && xz == x * z && yz == y * z
    ensures x <= y <==> xz <= yz
  {
    if x <= y {
      MulMono(x, y, z);
    } else {
      StrictScale(y, x, z);
    }
  }

  lemma LessOne(unit: real, n: real)
    requires unit * n == 1.0
    ensures (1.0 - unit) * n == n - 1.0
  {
  }

  /** `validateLimitPriceWithRefresh`: a price that fails at a tick the caller did not fix gets one
      more chance at the refreshed tick, if the refresh yields one. */
  function CheckWithRefresh(price: Dec, tick: TickSize, fixed: bool, refreshed: Option<TickSize>): Option<TickSize> {
    if PricePasses(price, tick) then Some(tick)
    else if fixed || refreshed.None? then None
    else if PricePasses(price, refreshed.value) then refreshed
    else None
  }

  /** What the caches, the gateway and the order book answer during one call, in order. */
  datatype Answers = Answers(
    tick: Option<TickSize>,
    refreshForBound: Option<TickSize>,
    marketPrice: Option<Dec>,
    refreshForPrice: Option<TickSize>,
    negRiskKnown: bool,
    fees: Option<FeeTerms>,
    refreshForAmounts: Option<TickSize>,
    refreshedFees: Option<FeeTerms>)

  /** The tick that serves is the first one at which the price passes: the given one, or if the caller did not
      fix it the refreshed one; without such a tick the price is refused. */
  lemma FirstTickThatServes(price: Dec, tick: TickSize, fixed: bool, refreshed: Option<TickSize>)
    ensures
      var r := CheckWithRefresh(price, tick, fixed, refreshed);
      && (PricePasses(price, tick) ==> r == Some(tick))
      && (!PricePasses(price, tick) && !fixed && refreshed.Some? && PricePasses(price, refreshed.value) ==> r == refreshed)
      && (r.None? <==> !PricePasses(price, tick)
                       && (fixed || refreshed.None? || !PricePasses(price, refreshed.value)))
  {
  }

  /** The price of an order with a bound: the bound itself unless the order names a stricter price. */
  lemma TightenedIsStricter(o: Order)
    requires ValidArguments(o)
    ensures o.side.Buy? && o.maxPrice.Some? ==>
              var bound := o.maxPrice.value.value;
              Tightened(o).value == if 0.0 < o.price.value < bound then o.price.value else bound
    ensures o.side.Sell? && o.minPrice.Some? ==>
              var bound := o.minPrice.value.value;
              Tightened(o).value == if o.price.value > bound then o.price.value else bound
    ensures (o.side.Buy? && o.maxPrice.None?) || (o.side.Sell? && o.minPrice.None?) ==> Tightened(o) == o.price
  {
  }

  /** The price an order is built at: its own, tightened, or without one the market's. */
  function PriceOf(order: Order, answers: Answers): Option<Dec> {
    if Tightened(order).value != 0.0 then Some(Tightened(order)) else answers.marketPrice
  }

  /** The order that is built: its price settled, its type defaulted. */
  function Effective(order: Order, answers: Answers): Order
    requires PriceOf(order, answers).Some?
  {
    order.(price := PriceOf(order, answers).value, orderType := if order.orderType == "" then "FOK" else order.orderType)
  }

  /** The tick at which both the bound and the price pass, in that order, each with its own refresh. */
  function TickOf(order: Order, fixed: bool, answers: Answers): Option<TickSize> {
    var forBound :=
      if answers.tick.None? || PriceBound(order).None? then answers.tick
      else CheckWithRefresh(PriceBound(order).value, answers.tick.value, fixed, answers.refreshForBound);
    if forBound.None? || PriceOf(order, answers).None? then None
    else CheckWithRefresh(PriceOf(order, answers).value, forBound.value, fixed, answers.refreshForPrice)
  }

  /** Nothing is refused before the amounts. */
  predicate ReachesAmounts(order: Order, fixed: bool, answers: Answers) {
    && ValidArguments(order) && order.orderType in {"", "FOK", "FAK"}
    && PriceOf(order, answers).Some? && TickOf(order, fixed, answers).Some?
    && (order.positionId != "" || answers.negRiskKnown)
  }

  /** The prices still stand at the tick that the rebuild uses. */
  predicate StandsAt(o: Order, tick: TickSize) {
    && PriceBound(o).Some?
    && ValidPrice(PriceBound(o).value, tick) && Aligned(PriceBound(o).value, tick)
    && ValidPrice(o.price, tick) && Aligned(o.price, tick)
  }

  /** Creating a market order. Whatever the caches and the gateway answer, on the first build and on
      the rebuild after a refresh: a signed buy with MaxPrice encodes a price of at least its own
      tightened price and below MaxPrice + 0.0001; a signed sell with MinPrice encodes at least its
      own tightened price, which is at least MinPrice. An order gets amounts only if nothing refuses it
      before, and then those of the tick that serves it or, if only the guard refused those, of the
      refreshed one. */
  method CreateMarketOrder(order: Order, tickFixed: bool, answers: Answers) returns (r: Result<Amounts, MarketError>)
    requires ValidOrder(order)
    ensures r.Ok? ==> ValidArguments(order) && r.value.maker > 0 && r.value.taker > 0
    ensures r.Ok? && order.side.Buy? && order.maxPrice.Some? ==>
              var encoded := r.value.maker as real / r.value.taker as real;
              && Tightened(order).value <= encoded < Tightened(order).value + 0.0001
              && encoded < order.maxPrice.value.value + 0.0001
    ensures r.Ok? && order.side.Sell? && order.minPrice.Some? ==>
              && r.value.taker as real / r.value.maker as real >= Tightened(order).value
              && r.value.taker as real / r.value.maker as real >= order.minPrice.value.value
    ensures !ReachesAmounts(order, tickFixed, answers) ==> r.Err?
    ensures ReachesAmounts(order, tickFixed, answers) ==>
              var o, refreshed := Effective(order, answers), answers.refreshForAmounts;
              var first := BuildMarketOrder(o, TickOf(order, tickFixed, answers).value, answers.fees);
              if first != Err(ProtectedAmounts) || tickFixed then r == first
              else if refreshed.Some? && StandsAt(o, refreshed.value)
              then r == BuildMarketOrder(o, refreshed.value, answers.refreshedFees)
              else r.Err?
  {
    hide BuildMarketOrder, StandsAt, ReachesAmounts, TickOf, Effective, Tightened, ValidOrder;
    var admitted := Admit(order, tickFixed, answers);
    if admitted.Err? {
      return Err(admitted.error);
    }
    var (o, tick) := admitted.value;
    BoundIsTightened(order, tickFixed, answers);
    r := BuildSignedMarketOrder(o, tick, answers.fees);
    if r != Err(ProtectedAmounts) || tickFixed {
      if r.Ok? {
        BuiltAmountsArePositive(o, tick, answers.fees);
        if PriceBound(o).Some? {
          BuiltIsProtected(o, tick, answers.fees);
        }
      }
      return;
    }
    OnlyProtectedOrdersRebuild(o, tick, answers.fees);
    r := Rebuild(o, answers.refreshForAmounts, answers.refreshedFees);
    if r.Ok? {
      StandingIsAligned(o, answers.refreshForAmounts.value);
      BuiltIsProtected(o, answers.refreshForAmounts.value, answers.refreshedFees);
    }
  }

  lemma StandingIsAligned(o: Order, tick: TickSize)
    requires StandsAt(o, tick)
    ensures Aligned(o.price, tick)
  {
  }

  /** Everything before the amounts: arguments, order type, ticks, price and risk flag. */
  method Admit(order: Order, tickFixed: bool, answers: Answers) returns (r: Result<(Order, TickSize), MarketError>)
    ensures r.Ok? <==> ReachesAmounts(order, tickFixed, answers)
    ensures r.Ok? ==> r.value == (Effective(order, answers), TickOf(order, tickFixed, answers).value)
  {
    hide CheckWithRefresh, ValidArguments;
    if !ValidArguments(order) {
      return Err(InvalidArguments);
    }
    var o := order.(price := Tightened(order));
    if o.orderType == "" {
      o := o.(orderType := "FOK");
    }
    if o.orderType != "FOK" && o.orderType != "FAK" {
      return Err(UnsupportedOrderType);
    }
    var tick := answers.tick;
    if tick.None? {
      return Err(TickUnavailable);
    }
    if PriceBound(o).Some? {
      tick := CheckWithRefresh(PriceBound(o).value, tick.value, tickFixed, answers.refreshForBound);
      if tick.None? {
        return Err(PriceRejected);
      }
    }
    if o.price.value == 0.0 {
      if answers.marketPrice.None? {
        return Err(PriceUnavailable);
      }
      o := o.(price := answers.marketPrice.value);
    }
    tick := CheckWithRefresh(o.price, tick.value, tickFixed, answers.refreshForPrice);
    if tick.None? {
      return Err(PriceRejected);
    }
    if o.positionId == "" && !answers.negRiskKnown {
      return Err(RiskUnavailable);
    }
    r := Ok((o, tick.value));
  }

  /** An admitted order with a bound is built at its tightened price, which is at least as strict as the bound
      and lies on the grid of its tick. */
  lemma BoundIsTightened(order: Order, fixed: bool, answers: Answers)
    requires ValidOrder(order) && ReachesAmounts(order, fixed, answers)
    ensures
      var o, tick := Effective(order, answers), TickOf(order, fixed, answers).value;
      && ValidArguments(order) && o.side == order.side && PriceBound(o) == PriceBound(order)
      && (PriceBound(order).Some? ==>
            && o.price == Tightened(order) && Valid(o.price) && o.price.value > 0.0 && Aligned(o.price, tick)
            && (order.side.Buy? ==> o.price.value <= order.maxPrice.value.value)
            && (order.side.Sell? ==> o.price.value >= order.minPrice.value.value))
  {
    hide Grid, Scale, ValidPrice, ValidPrecision, Aligned;
  }

  /** Builds once more at the refreshed tick, if both prices stand there. */
  method Rebuild(o: Order, tick: Option<TickSize>, fees: Option<FeeTerms>) returns (r: Result<Amounts, MarketError>)
    requires PriceBound(o).Some?
    ensures tick.Some? && StandsAt(o, tick.value) ==> r == BuildMarketOrder(o, tick.value, fees)
    ensures r.Ok? ==> tick.Some? && StandsAt(o, tick.value)
  {
    hide BuildMarketOrder;
    if tick.None? {
      return Err(TickUnavailable);
    }
    if !(ValidPrice(PriceBound(o).value, tick.value) && Aligned(PriceBound(o).value, tick.value)) {
      return Err(PriceRejected);
    }
    if !(ValidPrice(o.price, tick.value) && Aligned(o.price, tick.value)) {
      return Err(PriceRejected);
    }
    r := BuildSignedMarketOrder(o, tick.value, fees);
  }

  lemma BuiltAmountsArePositive(o: Order, tick: TickSize, fees: Option<FeeTerms>)
    requires BuildMarketOrder(o, tick, fees).Ok?
    ensures BuildMarketOrder(o, tick, fees).value.maker > 0 && BuildMarketOrder(o, tick, fees).value.taker > 0
  {
    hide RawAmounts, Protected, BaseUnits, RoundDown;
  }

  /** Only an order with a price bound can fail the guard, so the rebuild always has a bound to check. */
  lemma OnlyProtectedOrdersRebuild(o: Order, tick: TickSize, fees: Option<FeeTerms>)
    requires BuildMarketOrder(o, tick, fees) == Err(ProtectedAmounts)
    ensures PriceBound(o).Some?
  {
    hide Mul, Div, RoundDown, RoundToAmount, AdjustMarketBuyAmount, BaseUnits;
  }
}
