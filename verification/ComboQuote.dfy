/**
 The amounts of a combo quote (clob/combo_quoter_quote.go): price and size in base units, the token that
 is traded, and the collateral that changes hands.
 */
module ComboQuote {
  import opened Common
  import opened Decimals
  import opened Digits
  import opened ComboE6

  datatype Direction = Buy | Sell | OtherDirection
  datatype Source = Unset | Collateral | Inventory | OtherSource
  datatype Unit = Shares | Notional | OtherUnit
  datatype OrderSide = BuySide | SellSide

  datatype Request = Request(
    id: string, yes: bool, direction: Direction, yesPosition: string, noPosition: string, size: string, unit: Unit)

  datatype Response = Response(price: string, size: string, source: Source)

  datatype Quote = Quote(token: string, side: OrderSide, price: nat, size: nat, maker: nat, taker: nat)

  datatype QuoteError =
    InvalidRequest | InvalidPrice | PriceNotBelowOne | InvalidSource | InvalidSize | RoundsToZero | InvalidAmounts

  predicate PositionValid(id: string) {
    IsNumeric(id) && Num(id) < UINT256_END
  }

  predicate ValidRequest(q: Request) {
    && q.id != "" && q.yes && !q.direction.OtherDirection?
    && PositionValid(q.yesPosition) && PositionValid(q.noPosition)
  }

  function EffectiveSource(source: Source): Source {
    if source.Unset? then Collateral else source
  }

  /** The quoter trades the other outcome when it buys against a buyer or sells against a seller. */
  predicate Complement(direction: Direction, source: Source) {
    (direction.Buy? && source.Collateral?) || (direction.Sell? && source.Inventory?)
  }

  function OrderPrice(price: nat, complement: bool): nat
    requires price <= E6
  {
    if complement then E6 - price else price
  }

  /** What a quote of `size` at `price` must be: the side and token follow the source and direction, the
      shares are the size, and the collateral is the order price times the size, rounded in the taker's
      favour by less than one base unit. */
  ghost predicate Quoted(q: Quote, request: Request, source: Source, price: nat, size: nat)
    requires price < E6
  {
    var complement := Complement(request.direction, source);
    var cost := OrderPrice(price, complement) * size;
    && q.price == price && q.size == size
    && q.token == (if complement then request.noPosition else request.yesPosition)
    && q.side == (if source.Inventory? then SellSide else BuySide)
    && (if source.Inventory? then q.maker == size && Floor(q.taker, cost) else q.taker == size && Ceiling(q.maker, cost))
  }

  /** `units` is the whole number of base units in `cost` millionths. */
  ghost predicate Floor(units: nat, cost: nat) {
    units * 1_000_000 <= cost < units * 1_000_000 + 1_000_000
  }

  /** `units` is the least whole number of base units that covers `cost` millionths. */
  ghost predicate Ceiling(units: nat, cost: nat) {
    cost <= units * 1_000_000 < cost + 1_000_000
  }

  /** The size that is asked for: the response's own, the requested shares, or the most shares that the
      requested notional pays for. */
  ghost predicate Asked(request: Request, response: Response, price: nat, size: nat) {
    if response.size != "" then PositiveE6(response.size) == Some(size)
    else
      && PositiveE6(request.size).Some?
      && (request.unit.Shares? ==> size == PositiveE6(request.size).value)
      && (request.unit.Notional? ==> Affordable(PositiveE6(request.size).value, price, size))
      && !request.unit.OtherUnit?
  }

  /** `size` shares is the most that `notional` pays for at `price`. */
  ghost predicate Affordable(notional: nat, price: nat, size: nat) {
    size * price <= notional * 1_000_000 < (size + 1) * price
  }

  /** A quote is made exactly when these hold of the size asked for. */
  ghost predicate Acceptable(request: Request, source: Source, price: nat, size: nat)
    requires price < E6
  {
    && 0 < size < UINT256_END
    && (source.Inventory? ==> OrderPrice(price, Complement(request.direction, source)) * size >= 1_000_000)
  }

  lemma QuotientFloor(cost: nat)
    ensures Floor(cost / 1_000_000, cost)
    ensures cost / 1_000_000 > 0 <==> cost >= 1_000_000
  {
  }

  lemma QuotientCeiling(cost: nat)
    ensures Ceiling((cost + 999_999) / 1_000_000, cost)
    ensures (cost + 999_999) / 1_000_000 > 0 <==> cost > 0
  {
  }

  lemma QuotientAffordable(notional: nat, price: nat)
    requires price > 0
    ensures Affordable(notional, price, notional * 1_000_000 / price)
  {
    var n := notional * 1_000_000;
    assert n == n / price * price + n % price;
  }

  /** The collateral of an order never exceeds its size, so it fits whenever the size does. */
  lemma CollateralBelowSize(orderPrice: nat, size: nat, units: nat)
    requires 0 < orderPrice <= 1_000_000
    ensures Floor(units, orderPrice * size) ==> units <= size
    ensures Ceiling(units, orderPrice * size) ==> units <= size
  {
    assert orderPrice * size <= 1_000_000 * size;
  }

  method MakeSize(request: Request, response: Response, price: nat) returns (r: Option<nat>)
    requires price > 0
    ensures r.Some? ==> Asked(request, response, price, r.value)
    ensures r.None? ==> forall size :: !Asked(request, response, price, size)
  {
    hide PositiveE6, Affordable;
    if response.size != "" {
      r := PositiveE6(response.size);
    } else {
      r := PositiveE6(request.size);
      if r.Some? {
        match request.unit
        case Shares =>
        case Notional =>
          QuotientAffordable(r.value, price);
          r := Some(r.value * 1_000_000 / price);
        case OtherUnit => r := None;
      }
    }
  }

  /** Maker and taker amounts at the order price, before they are checked. */
  method MakeAmounts(inventory: bool, orderPrice: nat, size: nat) returns (maker: nat, taker: nat)
    requires 0 < orderPrice <= 1_000_000 && size > 0
    ensures inventory ==> maker == size && Floor(taker, orderPrice * size) && (taker > 0 <==> orderPrice * size >= 1_000_000)
    ensures !inventory ==> taker == size && Ceiling(maker, orderPrice * size) && maker > 0
    ensures maker <= size && taker <= size
  {
    var collateral := orderPrice * size;
    maker, taker := 0, 0;
    if inventory {
      maker := size;
      taker := collateral / 1_000_000;
      QuotientFloor(collateral);
      CollateralBelowSize(orderPrice, size, taker);
    } else {
      maker := collateral + 999_999;
      maker := maker / 1_000_000;
      taker := size;
      QuotientCeiling(collateral);
      CollateralBelowSize(orderPrice, size, maker);
    }
  }

  /** Builds the amounts of a quote. It succeeds exactly on a valid request, a price strictly between zero
      and one, a known source, and an acceptable size; the result is then the quote of that size. */
  method BuildQuote(request: Request, response: Response) returns (r: Result<Quote, QuoteError>)
    ensures r.Ok? ==>
              && ValidRequest(request) && PositiveE6(response.price) == Some(r.value.price) && r.value.price < E6
              && !response.source.OtherSource?
              && Asked(request, response, r.value.price, r.value.size)
              && Quoted(r.value, request, EffectiveSource(response.source), r.value.price, r.value.size)
              && Acceptable(request, EffectiveSource(response.source), r.value.price, r.value.size)
              && (response.source.Unset? || response.source.Collateral? <==> r.value.side.BuySide?)
    ensures r.Err? && ValidRequest(request) && !response.source.OtherSource? && PositiveE6(response.price).Some? ==>
              var price := PositiveE6(response.price).value;
              price < E6 ==>
                forall size :: Asked(request, response, price, size) ==>
                  !Acceptable(request, EffectiveSource(response.source), price, size)
  {
    hide PositiveE6, PositionValid, Asked, Floor, Ceiling;
    if !ValidRequest(request) {
      return Err(InvalidRequest);
    }
    var parsed := PositiveE6(response.price);
    if parsed.None? {
      return Err(InvalidPrice);
    }
    var price := parsed.value;
    PositiveIsPositive(response.price);
    if price >= E6 {
      return Err(PriceNotBelowOne);
    }
    var source := EffectiveSource(response.source);
    if source.OtherSource? {
      return Err(InvalidSource);
    }
    var asked := MakeSize(request, response, price);
    if asked.None? {
      return Err(InvalidSize);
    }
    var size := asked.value;
    OnlyOneSize(request, response, price, size);
    if size == 0 {
      return Err(RoundsToZero);
    }
    var token := request.yesPosition;
    var complement := Complement(request.direction, source);
    if complement {
      token := request.noPosition;
    }
    var orderPrice := price;
    if complement {
      orderPrice := E6 - price;
    }
    var maker, taker := MakeAmounts(source.Inventory?, orderPrice, size);
    if maker == 0 || taker == 0 || maker >= UINT256_END || taker >= UINT256_END {
      return Err(InvalidAmounts);
    }
    r := Ok(Quote(token, if source.Inventory? then SellSide else BuySide, price, size, maker, taker));
  }

  lemma PositiveIsPositive(text: string)
    ensures PositiveE6(text).Some? ==> PositiveE6(text).value > 0
  {
  }

  /** A request and a response ask for one size. */
  lemma OnlyOneSize(request: Request, response: Response, price: nat, size: nat)
    requires Asked(request, response, price, size)
    ensures forall other :: Asked(request, response, price, other) ==> other == size
  {
    hide PositiveE6, Affordable;
    forall other | Asked(request, response, price, other)
      ensures other == size
    {
      if response.size == "" && request.unit.Notional? {
        AffordableOnce(PositiveE6(request.size).value, price, size, other);
      }
    }
  }

  lemma AffordableOnce(notional: nat, price: nat, a: nat, b: nat)
    requires Affordable(notional, price, a) && Affordable(notional, price, b)
    ensures a == b
  {
    Below(a, b + 1, price);
    Below(b, a + 1, price);
  }

  lemma Below(x: nat, y: nat, z: nat)
    requires x * z < y * z
    ensures x < y
  {
  }

  lemma Scaled(x: nat, y: nat, z: nat)
    requires x <= y
    ensures x * z <= y * z
  {
  }

  /** Which side of which outcome a quote takes, at which price. A buyer is met by selling YES at the price or by
      buying NO at what is left of one; a seller by buying YES at the price or by selling NO at what is left. */
  lemma QuoteMeetsRequest(q: Quote, request: Request, source: Source, price: nat, size: nat)
    requires 0 < price < E6 && (source.Collateral? || source.Inventory?) && Quoted(q, request, source, price, size)
    requires request.direction.Buy? || request.direction.Sell?
    ensures
      var other := (request.direction.Buy? && q.side.BuySide?) || (request.direction.Sell? && q.side.SellSide?);
      var cost := (if other then 1_000_000 - price else price) * size;
      && q.side == (if source.Inventory? then SellSide else BuySide)
      && q.token == (if other then request.noPosition else request.yesPosition)
      && (q.side.BuySide? ==> q.taker == size && cost <= q.maker * 1_000_000 < cost + 1_000_000)
      && (q.side.SellSide? ==> q.maker == size && q.taker * 1_000_000 <= cost < q.taker * 1_000_000 + 1_000_000)
  {
  }

  /* What the quotes of one request promise together */

  lemma Complementary(p: nat, size: nat, up: nat, down: nat)
    requires p <= 1_000_000
    requires Ceiling(up, p * size) && Floor(down, (1_000_000 - p) * size)
    ensures up + down == size
  {
    assert p * size + (1_000_000 - p) * size == 1_000_000 * size;
  }

  /** Conservation: bought with collateral and sold from inventory, the same request at the same price and
      size takes in and pays out exactly the size, and the two orders trade opposite outcomes. */
  lemma CollateralIsConserved(request: Request, price: nat, size: nat, bought: Quote, sold: Quote)
    requires 0 < price < E6 && !request.direction.OtherDirection?
    requires Quoted(bought, request, Collateral, price, size) && Quoted(sold, request, Inventory, price, size)
    ensures bought.maker + sold.taker == size == bought.taker == sold.maker
    ensures {bought.token, sold.token} == {request.yesPosition, request.noPosition}
  {
    hide Floor, Ceiling;
    var p := OrderPrice(price, Complement(request.direction, Collateral));
    assert OrderPrice(price, Complement(request.direction, Inventory)) == 1_000_000 - p;
    Complementary(p, size, bought.maker, sold.taker);
  }

  /** At the quoted price itself, the shares that a notional asks for never cost more than the notional. */
  lemma NotionalCovers(notional: nat, price: nat, size: nat, units: nat)
    requires Affordable(notional, price, size) && (Ceiling(units, price * size) || Floor(units, price * size))
    ensures units <= notional
  {
    assert price * size == size * price;
  }

  /** At the complement's price they cost more than the notional exactly when the price is below one half. */
  lemma ComplementCosts(notional: nat, price: nat, size: nat, units: nat)
    requires 0 < price < 1_000_000 && notional > 0
    requires Affordable(notional, price, size) && Ceiling(units, (1_000_000 - price) * size)
    ensures units <= notional <==> 2 * price >= 1_000_000
  {
    var rest := 1_000_000 - price;
    if 2 * price >= 1_000_000 {
      Scaled(rest, price, size);
      assert price * size == size * price;
    } else {
      TwiceTheNotional(notional, price, size);
      HalfAgain(rest, notional, size);
    }
  }

  lemma HalfAgain(rest: nat, notional: nat, size: nat)
    requires rest > 500_000 && size >= 2 * notional && notional > 0
    ensures rest * size > 1_000_000 * notional
  {
    Scaled(500_001, rest, size);
  }

  lemma TwiceTheNotional(notional: nat, price: nat, size: nat)
    requires 2 * price < 1_000_000 && Affordable(notional, price, size)
    ensures size >= 2 * notional
  {
    Scaled(2 * price, 1_000_000, notional);
    assert 2 * notional * price == 2 * price * notional;
    Below(2 * notional, size + 1, price);
  }

  /** A notional-sized quote paid with collateral stays within the notional exactly when it does not buy
      the other outcome or the price is at least one half. */
  lemma NotionalQuoteCost(request: Request, response: Response, notional: nat, q: Quote)
    requires 0 < q.price < E6 && !request.direction.OtherDirection?
    requires response.size == "" && request.unit.Notional? && PositiveE6(request.size) == Some(notional)
    requires Asked(request, response, q.price, q.size) && Quoted(q, request, Collateral, q.price, q.size)
    ensures q.maker <= notional <==> request.direction.Sell? || 2 * q.price >= 1_000_000
  {
    hide Affordable, Floor, Ceiling;
    PositiveIsPositive(request.size);
    if request.direction.Sell? {
      NotionalCovers(notional, q.price, q.size, q.maker);
    } else {
      ComplementCosts(notional, q.price, q.size, q.maker);
    }
  }

  /** A valid request to buy for "0.000001" of notional, answered at "0.1" with collateral: ten base units of
      size are asked for and accepted, and the one quote of them takes nine base units of collateral. */
  lemma BuyingTheOtherOutcomeCostsMore(request: Request, response: Response)
    requires ValidRequest(request) && request.direction.Buy?
    requires request.size == "0.000001" && request.unit.Notional?
    requires response.price == "0.1" && response.size == "" && response.source.Collateral?
    ensures PositiveE6(request.size) == Some(1) && PositiveE6(response.price) == Some(100_000)
    ensures Asked(request, response, 100_000, 10) && Acceptable(request, Collateral, 100_000, 10)
    ensures forall q :: Quoted(q, request, Collateral, 100_000, 10) ==> q.maker == 9
  {
    hide PositiveE6;
    OneMillionth();
    OneTenth();
    forall q | Quoted(q, request, Collateral, 100_000, 10)
      ensures q.maker == 9
    {
      assert Ceiling(q.maker, 9_000_000);
    }
  }

  lemma OneMillionth()
    ensures PositiveE6("0.000001") == Some(1)
  {
    hide Find;
    assert "0.000001" == "0" + "." + "000001";
    CutPoint("0", "000001");
    Joined("0", "000001");
    assert "0" + "000001" + Zeros(0) == "0" + "000001";
    assert Num("0") == 0;
    NumLeftPadded("1", 5);
    assert Zeros(5) + "1" == "000001";
    assert Num("1") == 1;
  }

  lemma OneTenth()
    ensures PositiveE6("0.1") == Some(100_000)
  {
    hide Find;
    assert "0.1" == "0" + "." + "1";
    CutPoint("0", "1");
    NumPadded("01", 5);
    assert "0" + "1" + Zeros(5) == "01" + Zeros(5);
    assert Num("01") == 1;
    assert Pow10(5) == 100_000;
  }
}
