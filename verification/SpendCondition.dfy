/**
 When the 19-place arithmetic of a fee-adjusted buy keeps its budget exactly (clob/order_math.go). The
 conditions speak of the price and the fee terms, and for a kept buy of the amount, but not of the budget:
 they hold or fail for every budget at once.
 */
module SpendCondition {
  import opened Common
  import opened Decimals
  import opened OrderMath
  import opened MaxSpend

  /** The price and the fee terms of a buy, as the code demands them. */
  ghost predicate Terms(price: Dec, rate: Dec, builder: Dec) {
    && Valid(price) && price.prec <= 9 && 0.0 < price.value <= 1.0
    && Valid(rate) && rate.value >= 0.0 && Valid(builder) && builder.value >= 0.0
  }

  /** The divisor that the code divides the budget by. */
  function ComputedDivisor(price: Dec, rate: Dec, exponent: nat, builder: Dec): Dec
    requires price.value > 0.0
  {
    Add(Add(ONE, Div(FeeRate(price, rate, exponent), price)), builder)
  }

  function ExactDivisor(price: Dec, rate: Dec, exponent: nat, builder: Dec): real
    requires price.value > 0.0
  {
    Divisor(price.value, PlatformRate(price.value, rate.value, exponent), builder.value)
  }

  function ExactCost(x: real, price: Dec, rate: Dec, exponent: nat, builder: Dec): real
    requires price.value > 0.0
  {
    Cost(x, price.value, PlatformRate(price.value, rate.value, exponent), builder.value)
  }

  /* Values on the 19-place grid */

  /** Every decimal lies on the finest grid. */
  lemma OnFinestGrid(d: Dec)
    requires Valid(d)
    ensures Grid(d.value, E19)
  {
    hide Scale;
    ScaleAdds(d.prec, 19 - d.prec);
    NineteenPlaces();
    WholeScale(19 - d.prec);
    GridWidenTo(d.value, Scale(d.prec), Scale(19 - d.prec), E19);
  }

  lemma FinestIsValid(x: real)
    requires Grid(x, E19)
    ensures Valid(Dec(x, 19))
  {
    hide Scale;
    NineteenPlaces();
  }

  lemma TruncatedOnGrid(x: real)
    requires x >= 0.0
    ensures Grid(Trunc(x, E19), E19)
  {
    hide Trunc;
    TruncBounds(x, E19);
  }

  lemma FittedIsValid(v: real, prec: nat)
    requires v >= 0.0 && (prec <= MAX_PLACES ==> Grid(v, Scale(prec)))
    ensures Valid(Fitted(v, prec)) && Fitted(v, prec).value >= 0.0
  {
    if prec > MAX_PLACES {
      TruncBounds(v, E19);
      NineteenPlaces();
    }
  }

  lemma ProductOnGrid(a: Dec, b: Dec)
    requires Valid(a) && Valid(b) && a.value >= 0.0 && b.value >= 0.0
    ensures Valid(Mul(a, b)) && Mul(a, b).value >= 0.0
  {
    hide Product, Fitted, Scale;
    ScaleAdds(a.prec, b.prec);
    ProductGrid(a, b, Scale(a.prec), Scale(b.prec), Scale(a.prec + b.prec));
    FittedIsValid(Product(a, b), a.prec + b.prec);
  }

  lemma ProductGrid(a: Dec, b: Dec, s: real, r: real, t: real)
    requires Grid(a.value, s) && Grid(b.value, r) && t == s * r && a.value >= 0.0 && b.value >= 0.0
    ensures Product(a, b) >= 0.0 && Grid(Product(a, b), t)
  {
    NonNegativeProduct(a.value, b.value);
    GridMulTo(a.value, b.value, s, r, t, Product(a, b));
  }

  lemma GridMulTo(x: real, y: real, s: real, r: real, t: real, v: real)
    requires Grid(x, s) && Grid(y, r) && t == s * r && v == x * y
    ensures Grid(v, t)
  {
    GridMul(x, y, s, r, t);
  }

  lemma QuotientOnGrid(a: Dec, b: Dec)
    requires a.value >= 0.0 && b.value > 0.0
    ensures Valid(Div(a, b)) && Div(a, b).value >= 0.0 && Div(a, b).prec == 19
  {
    hide Scale, Trunc;
    QuotientLoss(a, b);
    TruncatedOnGrid(a.value / b.value);
    NineteenPlaces();
  }

  lemma {:induction false} PowerOnGrid(x: real, p: nat, n: nat)
    requires Grid(x, Scale(p))
    ensures Grid(Power(x, n), Scale(p * n))
    decreases n, 1
  {
    if n == 0 {
      OneOnGrid();
      assert p * n == 0;
    } else {
      PowerStep(x, p, n, Power(x, n), p * n);
    }
  }

  lemma PowerStep(x: real, p: nat, n: nat, v: real, q: nat)
    requires n > 0 && Grid(x, Scale(p)) && v == x * Power(x, n - 1) && q == p * n
    ensures Grid(v, Scale(q))
    decreases n, 0
  {
    hide Scale, Power;
    PowerOnGrid(x, p, n - 1);
    assert q == p + p * (n - 1);
    ScaleAdds(p, p * (n - 1));
    GridMulTo(x, Power(x, n - 1), Scale(p), Scale(p * (n - 1)), Scale(q), v);
  }

  lemma OneOnGrid()
    ensures Grid(1.0, Scale(0))
  {
  }

  lemma PowIntOnGrid(d: Dec, n: nat)
    requires Valid(d) && d.value >= 0.0
    ensures Valid(PowInt(d, n)) && PowInt(d, n).value >= 0.0
  {
    hide Fitted, Power;
    PowerNonNegative(d.value, n);
    PowerOnGrid(d.value, d.prec, n);
    FittedIsValid(Power(d.value, n), d.prec * n);
  }

  lemma SpreadOnGrid(price: Dec)
    requires Valid(price) && 0.0 < price.value <= 1.0
    ensures Valid(Sub(ONE, price)) && Sub(ONE, price).value >= 0.0
  {
    hide Scale;
    WholeScale(price.prec);
    assert Grid(1.0, Scale(price.prec)) by { OneTimes(Scale(price.prec)); }
    GridSum(1.0, price.value, Scale(price.prec));
  }

  lemma OneTimes(s: real)
    requires IsInt(s)
    ensures Grid(1.0, s)
  {
  }

  lemma FeeRateOnGrid(price: Dec, rate: Dec, exponent: nat)
    requires Valid(price) && 0.0 < price.value <= 1.0 && Valid(rate) && rate.value >= 0.0
    ensures Valid(FeeRate(price, rate, exponent)) && FeeRate(price, rate, exponent).value >= 0.0
  {
    hide Mul, PowInt, Sub, Grid;
    SpreadOnGrid(price);
    ProductOnGrid(price, Sub(ONE, price));
    PowIntOnGrid(Mul(price, Sub(ONE, price)), exponent);
    ProductOnGrid(rate, PowInt(Mul(price, Sub(ONE, price)), exponent));
  }

  lemma SumOnGrid(a: Dec, b: Dec)
    requires Valid(a) && Valid(b)
    ensures Valid(Dec(Add(a, b).value, 19))
  {
    hide Scale, Grid;
    OnFinestGrid(a);
    OnFinestGrid(b);
    GridSum(a.value, b.value, E19);
    FinestIsValid(a.value + b.value);
  }

  /* A shrunk buy */

  /** No shrunk buy on these terms exceeds its budget, whatever the amount and the budget. */
  ghost predicate ShrunkKeepsBudget(price: Dec, rate: Dec, exponent: nat, builder: Dec)
    requires price.value > 0.0
  {
    forall amount: Dec, balance: Dec ::
      Sensible(amount, balance, price, rate, builder) && Shrinks(amount, balance, price, rate, exponent, builder) ==>
        SpendsWithin(amount, balance, price, rate, exponent, builder)
  }

  ghost predicate SpendsWithin(amount: Dec, balance: Dec, price: Dec, rate: Dec, exponent: nat, builder: Dec)
    requires price.value > 0.0
  {
    var r := AdjustMarketBuyAmount(amount, balance, price, rate, exponent, builder);
    r.Ok? ==> ExactCost(r.value.value, price, rate, exponent, builder) <= balance.value
  }

  lemma DivisorFacts(price: Dec, rate: Dec, exponent: nat, builder: Dec)
    requires Terms(price, rate, builder)
    ensures
      var d := ComputedDivisor(price, rate, exponent, builder);
      d.prec == 19 && Valid(d) && 1.0 <= d.value <= ExactDivisor(price, rate, exponent, builder)
  {
    hide Mul, Div, Divisor, PlatformRate, FeeRate, Grid, Scale;
    var fee := FeeRate(price, rate, exponent);
    FeeRateLoss(price, rate, exponent);
    FeeRateOnGrid(price, rate, exponent);
    DivisorBounds(price, fee, builder);
    QuotientOnGrid(fee, price);
    DivisorGrows(price.value, fee.value, PlatformRate(price.value, rate.value, exponent), builder.value);
    DivisorOnGrid(Div(fee, price), builder);
  }

  lemma DivisorOnGrid(q: Dec, builder: Dec)
    requires Valid(q) && q.prec == 19 && Valid(builder)
    ensures Add(Add(ONE, q), builder).prec == 19 && Valid(Add(Add(ONE, q), builder))
  {
    hide Grid, Scale;
    OneIsValid();
    SumOnGrid(ONE, q);
    SumOnGrid(Add(ONE, q), builder);
  }

  lemma OneIsValid()
    ensures Valid(ONE)
  {
  }

  /** Where the computed divisor is exact, a shrunk buy keeps its budget. */
  lemma ExactDivisorKeeps(amount: Dec, balance: Dec, price: Dec, rate: Dec, exponent: nat, builder: Dec)
    requires Sensible(amount, balance, price, rate, builder) && Shrinks(amount, balance, price, rate, exponent, builder)
    requires 1.0 <= ComputedDivisor(price, rate, exponent, builder).value == ExactDivisor(price, rate, exponent, builder)
    ensures SpendsWithin(amount, balance, price, rate, exponent, builder)
  {
    hide Mul, Div, Trunc, Divisor, Cost, PlatformRate, FeeRate, TotalCost, RoundDown, Add;
    var divisor := ComputedDivisor(price, rate, exponent, builder);
    ShrunkValue(balance, divisor);
    LargestFit(balance.value, divisor.value, amount.value);
    var x := Trunc(balance.value / divisor.value, E6);
    CostIsLinear(x, price.value, PlatformRate(price.value, rate.value, exponent), builder.value);
  }

  /** Where it is not, the buy whose amount and budget are the computed divisor exceeds its budget. */
  lemma SmallerDivisorOverspends(price: Dec, rate: Dec, exponent: nat, builder: Dec)
    requires Terms(price, rate, builder)
    requires ComputedDivisor(price, rate, exponent, builder).value < ExactDivisor(price, rate, exponent, builder)
    ensures
      var d := ComputedDivisor(price, rate, exponent, builder);
      && Sensible(d, d, price, rate, builder) && Shrinks(d, d, price, rate, exponent, builder)
      && AdjustMarketBuyAmount(d, d, price, rate, exponent, builder).Ok?
      && AdjustMarketBuyAmount(d, d, price, rate, exponent, builder).value.value == 1.0
      && ExactCost(1.0, price, rate, exponent, builder) > d.value
  {
    hide Mul, Div, Trunc, Divisor, Cost, PlatformRate, FeeRate, TotalCost, RoundDown, Add, Grid, Scale;
    var d := ComputedDivisor(price, rate, exponent, builder);
    DivisorFacts(price, rate, exponent, builder);
    TotalAtLeastAmount(d, price, rate, exponent, builder);
    ShrunkValue(d, d);
    OneTruncated(d.value);
    CostIsLinear(1.0, price.value, PlatformRate(price.value, rate.value, exponent), builder.value);
  }

  lemma OneTruncated(d: real)
    requires d >= 1.0
    ensures Trunc(d / d, E6) == 1.0
  {
    assert d / d == 1.0;
  }

  lemma TotalAtLeastAmount(amount: Dec, price: Dec, rate: Dec, exponent: nat, builder: Dec)
    requires Terms(price, rate, builder) && amount.value >= 0.0
    ensures amount.value <= TotalCost(amount, price, FeeRate(price, rate, exponent), builder).value
  {
    hide Mul, Div, FeeRate, PlatformRate;
    FeeRateLoss(price, rate, exponent);
    QuotientLoss(amount, price);
    ProductLoss(Div(amount, price), FeeRate(price, rate, exponent));
    ProductLoss(amount, builder);
  }

  /** A shrunk buy keeps every budget if and only if 19 places hold the divisor exactly. */
  lemma ShrunkKeepsBudgetExactly(price: Dec, rate: Dec, exponent: nat, builder: Dec)
    requires Terms(price, rate, builder)
    ensures ShrunkKeepsBudget(price, rate, exponent, builder) <==>
            ComputedDivisor(price, rate, exponent, builder).value == ExactDivisor(price, rate, exponent, builder)
  {
    hide ComputedDivisor, ExactDivisor, ExactCost, AdjustMarketBuyAmount, Shrinks, Sensible;
    DivisorFacts(price, rate, exponent, builder);
    if ComputedDivisor(price, rate, exponent, builder).value == ExactDivisor(price, rate, exponent, builder) {
      forall amount: Dec, balance: Dec |
        Sensible(amount, balance, price, rate, builder) && Shrinks(amount, balance, price, rate, exponent, builder)
        ensures SpendsWithin(amount, balance, price, rate, exponent, builder)
      {
        ExactDivisorKeeps(amount, balance, price, rate, exponent, builder);
      }
    } else {
      SmallerDivisorOverspends(price, rate, exponent, builder);
      var d := ComputedDivisor(price, rate, exponent, builder);
      assert !SpendsWithin(d, d, price, rate, exponent, builder);
    }
  }

  /* A kept buy */

  /** A buy of this amount on these terms, when it is kept, exceeds no budget. */
  ghost predicate KeptKeepsBudget(amount: Dec, price: Dec, rate: Dec, exponent: nat, builder: Dec)
    requires price.value > 0.0
  {
    forall balance: Dec ::
      Sensible(amount, balance, price, rate, builder) && !Shrinks(amount, balance, price, rate, exponent, builder) ==>
        SpendsWithin(amount, balance, price, rate, exponent, builder)
  }

  /** What the code takes the total to be. */
  function ComputedTotal(amount: Dec, price: Dec, rate: Dec, exponent: nat, builder: Dec): real
    requires price.value > 0.0
  {
    TotalCost(amount, price, FeeRate(price, rate, exponent), builder).value
  }

  lemma TotalOnGrid(amount: Dec, price: Dec, rate: Dec, exponent: nat, builder: Dec)
    requires Terms(price, rate, builder) && Valid(amount) && amount.value >= 0.0
    ensures Grid(ComputedTotal(amount, price, rate, exponent, builder), E19)
  {
    hide Mul, Div, FeeRate, Grid, Scale;
    var fee := FeeRate(price, rate, exponent);
    FeeRateOnGrid(price, rate, exponent);
    QuotientOnGrid(amount, price);
    var q := Div(amount, price);
    ProductOnGrid(q, fee);
    ProductOnGrid(amount, builder);
    OnFinestGrid(amount);
    OnFinestGrid(Mul(q, fee));
    OnFinestGrid(Mul(amount, builder));
    GridSum(amount.value, Mul(q, fee).value, E19);
    GridSum(amount.value + Mul(q, fee).value, Mul(amount, builder).value, E19);
  }

  /** A larger value on the finest grid is larger by a whole unit in the last place. */
  lemma NextOnGrid(x: real, y: real)
    requires Grid(x, E19) && Grid(y, E19) && x < y
    ensures x + EPS <= y
  {
    var a, b := (x * E19).Floor, (y * E19).Floor;
    assert a as real == x * E19 && b as real == y * E19;
    assert a + 1 <= b;
  }

  lemma NextIsOnGrid(x: real)
    requires Grid(x, E19)
    ensures Grid(x + EPS, E19)
  {
    NextScaled(x);
    IntSum(x * E19, 1.0, x * E19 - 1.0, (x + EPS) * E19);
  }

  lemma NextScaled(x: real)
    ensures (x + EPS) * E19 == x * E19 + 1.0
  {
  }

  lemma KeptValue(amount: Dec, balance: Dec, price: Dec, rate: Dec, exponent: nat, builder: Dec)
    requires Sensible(amount, balance, price, rate, builder) && !Shrinks(amount, balance, price, rate, exponent, builder)
    requires amount.value * E6 >= 1.0
    ensures
      var r := AdjustMarketBuyAmount(amount, balance, price, rate, exponent, builder);
      r.Ok? && r.value.value == Trunc(amount.value, E6)
  {
    hide Mul, Div, Trunc, FeeRate, TotalCost, RoundDown, Scale, Grid;
    SixPlaces();
    RoundDownValue(amount, 6);
    TruncIsZero(amount.value);
  }

  /** A kept buy exceeds no budget if and only if its exact cost is at most one unit in the last place above
      the total that the code computes: budgets come in steps of that unit. */
  lemma KeptKeepsBudgetExactly(amount: Dec, price: Dec, rate: Dec, exponent: nat, builder: Dec)
    requires Terms(price, rate, builder) && Valid(amount) && amount.value * E6 >= 1.0
    ensures KeptKeepsBudget(amount, price, rate, exponent, builder) <==>
            ExactCost(Trunc(amount.value, E6), price, rate, exponent, builder)
              <= ComputedTotal(amount, price, rate, exponent, builder) + EPS
  {
    hide ComputedTotal, ExactCost, AdjustMarketBuyAmount, Grid, Trunc, Scale, FeeRate;
    var total := ComputedTotal(amount, price, rate, exponent, builder);
    TotalOnGrid(amount, price, rate, exponent, builder);
    if ExactCost(Trunc(amount.value, E6), price, rate, exponent, builder) <= total + EPS {
      forall balance: Dec |
        Sensible(amount, balance, price, rate, builder) && !Shrinks(amount, balance, price, rate, exponent, builder)
        ensures SpendsWithin(amount, balance, price, rate, exponent, builder)
      {
        KeptValue(amount, balance, price, rate, exponent, builder);
        OnFinestGrid(balance);
        AboveTotal(amount, balance, price, rate, exponent, builder);
        NextOnGrid(total, balance.value);
      }
    } else {
      var balance := Dec(total + EPS, 19);
      JustAboveTotal(amount, price, rate, exponent, builder);
      KeptValue(amount, balance, price, rate, exponent, builder);
      assert !SpendsWithin(amount, balance, price, rate, exponent, builder);
    }
  }

  lemma AboveTotal(amount: Dec, balance: Dec, price: Dec, rate: Dec, exponent: nat, builder: Dec)
    requires price.value > 0.0
    ensures Shrinks(amount, balance, price, rate, exponent, builder) <==>
            balance.value <= ComputedTotal(amount, price, rate, exponent, builder)
  {
    hide TotalCost;
  }

  lemma JustAboveTotal(amount: Dec, price: Dec, rate: Dec, exponent: nat, builder: Dec)
    requires Terms(price, rate, builder) && Valid(amount) && amount.value > 0.0
    ensures
      var balance := Dec(ComputedTotal(amount, price, rate, exponent, builder) + EPS, 19);
      Sensible(amount, balance, price, rate, builder) && !Shrinks(amount, balance, price, rate, exponent, builder)
  {
    hide TotalCost, Scale;
    TotalOnGrid(amount, price, rate, exponent, builder);
    NextIsOnGrid(ComputedTotal(amount, price, rate, exponent, builder));
    FinestIsValid(ComputedTotal(amount, price, rate, exponent, builder) + EPS);
    TotalAtLeastAmount(amount, price, rate, exponent, builder);
  }

  /** Where no step of the computation loses anything, the condition holds: the computed total is the cost. */
  lemma LosslessKeeps(amount: Dec, price: Dec, rate: Dec, exponent: nat, builder: Dec)
    requires Terms(price, rate, builder) && Valid(amount) && amount.value * E6 >= 1.0
    requires
      var fee, q := FeeRate(price, rate, exponent), Div(amount, price);
      && fee.value == PlatformRate(price.value, rate.value, exponent) && q.value == amount.value / price.value
      && Mul(q, fee).value == q.value * fee.value && Mul(amount, builder).value == amount.value * builder.value
    ensures KeptKeepsBudget(amount, price, rate, exponent, builder)
  {
    hide Mul, Div, FeeRate, PlatformRate, Trunc, Grid, Scale, Divisor, KeptKeepsBudget;
    KeptKeepsBudgetExactly(amount, price, rate, exponent, builder);
    var exact := PlatformRate(price.value, rate.value, exponent);
    FeeRateLoss(price, rate, exponent);
    TruncBounds(amount.value, E6);
    var x := Trunc(amount.value, E6);
    DivisorAtLeastOne(price.value, exact, builder.value);
    CostIsLinear(amount.value, price.value, exact, builder.value);
    CostIsLinear(x, price.value, exact, builder.value);
    MulMono(x, amount.value, Divisor(price.value, exact, builder.value));
  }

  /* The requested amount */

  /** A buy of this amount on these terms never returns more than the amount, whatever the budget. */
  ghost predicate NeverExceedsRequest(amount: Dec, price: Dec, rate: Dec, exponent: nat, builder: Dec)
    requires price.value > 0.0
  {
    forall balance: Dec :: Sensible(amount, balance, price, rate, builder) ==>
      WithinRequest(amount, balance, price, rate, exponent, builder)
  }

  ghost predicate WithinRequest(amount: Dec, balance: Dec, price: Dec, rate: Dec, exponent: nat, builder: Dec) {
    var r := AdjustMarketBuyAmount(amount, balance, price, rate, exponent, builder);
    r.Ok? ==> r.value.value <= amount.value
  }

  /** The least six-decimal amount above the requested one. */
  function NextAmount(amount: Dec): real {
    Trunc(amount.value, E6) + 1.0 / E6
  }

  lemma NextAmountFacts(amount: Dec)
    requires amount.value >= 0.0
    ensures Grid(NextAmount(amount), E6) && NextAmount(amount) > amount.value
    ensures forall x :: Grid(x, E6) ==> (x > amount.value <==> x >= NextAmount(amount))
  {
    hide Trunc, Grid;
    TruncBounds(amount.value, E6);
    GridStep(Trunc(amount.value, E6), E6);
    forall x | Grid(x, E6)
      ensures x > amount.value <==> x >= NextAmount(amount)
    {
      if x < NextAmount(amount) {
        BelowNext(x, Trunc(amount.value, E6), E6);
      }
    }
  }

  /** A shrunk buy exceeds the amount exactly when the budget pays for the next six-decimal amount at the
      computed divisor. */
  lemma ShrunkExceeds(amount: Dec, balance: Dec, price: Dec, rate: Dec, exponent: nat, builder: Dec)
    requires Sensible(amount, balance, price, rate, builder) && Terms(price, rate, builder)
    requires Shrinks(amount, balance, price, rate, exponent, builder)
    ensures WithinRequest(amount, balance, price, rate, exponent, builder) <==>
            balance.value < NextAmount(amount) * ComputedDivisor(price, rate, exponent, builder).value
  {
    hide Mul, Div, Trunc, Grid, Divisor, PlatformRate, FeeRate, TotalCost, RoundDown, Add, NextAmount, Scale;
    var d := ComputedDivisor(price, rate, exponent, builder);
    DivisorFacts(price, rate, exponent, builder);
    NextAmountFacts(amount);
    ShrunkValue(balance, d);
    LargestFit(balance.value, d.value, amount.value);
    var next, x := NextAmount(amount), Trunc(balance.value / d.value, E6);
    assert next * d.value <= balance.value <==> next <= x;
  }

  lemma KeptWithinRequest(amount: Dec, balance: Dec, price: Dec, rate: Dec, exponent: nat, builder: Dec)
    requires Sensible(amount, balance, price, rate, builder)
    requires !Shrinks(amount, balance, price, rate, exponent, builder)
    ensures WithinRequest(amount, balance, price, rate, exponent, builder)
  {
    hide AdjustMarketBuyAmount, Shrinks, Sensible, Trunc, Grid, Cost, PlatformRate, FeeRate;
    if AdjustMarketBuyAmount(amount, balance, price, rate, exponent, builder).Ok? {
      SensibleParts(amount, balance, price, rate, builder);
      KeptMaxSpend(amount, balance, price, rate, exponent, builder);
    }
  }

  /** A budget of exactly the computed total shrinks the buy. */
  lemma AtTotal(amount: Dec, price: Dec, rate: Dec, exponent: nat, builder: Dec)
    requires Terms(price, rate, builder) && Valid(amount) && amount.value > 0.0
    ensures
      var balance := Dec(ComputedTotal(amount, price, rate, exponent, builder), 19);
      Sensible(amount, balance, price, rate, builder) && Shrinks(amount, balance, price, rate, exponent, builder)
  {
    hide TotalCost, Scale;
    TotalOnGrid(amount, price, rate, exponent, builder);
    FinestIsValid(ComputedTotal(amount, price, rate, exponent, builder));
    TotalAtLeastAmount(amount, price, rate, exponent, builder);
  }

  /** No budget makes the code return more than the requested amount if and only if the total that the code
      computes for the amount does not pay, at the computed divisor, for the next six-decimal amount. */
  lemma NeverExceedsRequestExactly(amount: Dec, price: Dec, rate: Dec, exponent: nat, builder: Dec)
    requires Terms(price, rate, builder) && Valid(amount) && amount.value > 0.0
    ensures NeverExceedsRequest(amount, price, rate, exponent, builder) <==>
            ComputedTotal(amount, price, rate, exponent, builder)
              < NextAmount(amount) * ComputedDivisor(price, rate, exponent, builder).value
  {
    hide ComputedTotal, ComputedDivisor, NextAmount, AdjustMarketBuyAmount, Shrinks, Sensible, WithinRequest;
    var total := ComputedTotal(amount, price, rate, exponent, builder);
    AtTotal(amount, price, rate, exponent, builder);
    ShrunkExceeds(amount, Dec(total, 19), price, rate, exponent, builder);
    if total < NextAmount(amount) * ComputedDivisor(price, rate, exponent, builder).value {
      forall balance: Dec | Sensible(amount, balance, price, rate, builder)
        ensures WithinRequest(amount, balance, price, rate, exponent, builder)
      {
        if Shrinks(amount, balance, price, rate, exponent, builder) {
          AboveTotal(amount, balance, price, rate, exponent, builder);
          ShrunkExceeds(amount, balance, price, rate, exponent, builder);
        } else {
          KeptWithinRequest(amount, balance, price, rate, exponent, builder);
        }
      }
    }
  }

  /* Each of the three conditions can fail */

  const PRICE_30 := Dec(0.3, 1)
  const NO_FEE := Dec(0.0, 0)

  lemma WitnessTerms(rate: Dec)
    requires Valid(rate) && rate.value >= 0.0
    ensures Terms(PRICE_30, rate, NO_FEE)
  {
    assert Pow10(1) == 10 && Pow10(0) == 1;
  }

  lemma FlatFee(rate: Dec)
    requires rate.prec <= 19
    ensures FeeRate(PRICE_30, rate, 0) == rate && PlatformRate(0.3, rate.value, 0) == rate.value
  {
    assert PowInt(Mul(PRICE_30, Sub(ONE, PRICE_30)), 0) == ONE;
  }

  /** At a price of 0.3 and a flat fee of one cent, a budget of 1.0333333333333333333 buys 1, which costs
      a third of a unit in the last place more. */
  lemma ShrunkBuyOverspends()
    ensures
      var rate, budget := Dec(0.01, 2), Dec(1.0333333333333333333, 19);
      && Terms(PRICE_30, rate, NO_FEE)
      && Sensible(budget, budget, PRICE_30, rate, NO_FEE) && Shrinks(budget, budget, PRICE_30, rate, 0, NO_FEE)
      && AdjustMarketBuyAmount(budget, budget, PRICE_30, rate, 0, NO_FEE).Ok?
      && AdjustMarketBuyAmount(budget, budget, PRICE_30, rate, 0, NO_FEE).value.value == 1.0
      && ExactCost(1.0, PRICE_30, rate, 0, NO_FEE) > budget.value
  {
    hide FeeRate, PlatformRate, AdjustMarketBuyAmount, Sensible, Shrinks, ExactCost, Terms;
    var rate := Dec(0.01, 2);
    CentIsValid();
    WitnessTerms(rate);
    FlatFee(rate);
    assert Div(rate, PRICE_30) == Dec(0.0333333333333333333, 19) by { ThirdOfACent(); }
    SmallerDivisorOverspends(PRICE_30, rate, 0, NO_FEE);
  }

  lemma ThirdOfACent()
    ensures Trunc(0.01 / 0.3, E19) == 0.0333333333333333333
  {
    assert (0.01 / 0.3 * E19).Floor == 333333333333333333;
  }

  /** At a price of 0.3 and a flat fee of one cent, an amount just below 1000 with its own computed total as
      budget becomes 1000. */
  lemma ShrunkBuyExceedsRequest()
    ensures
      var rate, amount, budget := Dec(0.01, 2), Dec(999.9999999999999999999, 19), Dec(1033.3333333333333333332, 19);
      && Terms(PRICE_30, rate, NO_FEE) && Sensible(amount, budget, PRICE_30, rate, NO_FEE)
      && ComputedTotal(amount, PRICE_30, rate, 0, NO_FEE) == budget.value
      && AdjustMarketBuyAmount(amount, budget, PRICE_30, rate, 0, NO_FEE).Ok?
      && AdjustMarketBuyAmount(amount, budget, PRICE_30, rate, 0, NO_FEE).value.value == 1000.0
  {
    hide FeeRate, PlatformRate, AdjustMarketBuyAmount, Sensible, Shrinks, Terms, Scale, Grid, Trunc;
    var rate, amount := Dec(0.01, 2), Dec(999.9999999999999999999, 19);
    var budget := Dec(1033.3333333333333333332, 19);
    CentIsValid();
    FinestIsValid(amount.value) by { NearThousandOnGrid(); }
    WitnessTerms(rate);
    FlatFee(rate);
    NearThousandTotal();
    ThirdOfACent();
    AtTotal(amount, PRICE_30, rate, 0, NO_FEE);
    ShrunkExceeds(amount, budget, PRICE_30, rate, 0, NO_FEE);
    assert NextAmount(amount) == 1000.0 by { NearThousandTruncated(); }
    ShrunkFits(amount, budget, PRICE_30, rate, 0, NO_FEE);
    NextAmountFacts(amount);
    var x := AdjustMarketBuyAmount(amount, budget, PRICE_30, rate, 0, NO_FEE).value.value;
    BelowNext(x, 1000.0, E6);
  }

  lemma CentIsValid()
    ensures Valid(Dec(0.01, 2))
  {
    assert Pow10(2) == 100;
  }

  lemma NearThousandOnGrid()
    ensures Grid(999.9999999999999999999, E19)
  {
    assert 999.9999999999999999999 * E19 == 9999999999999999999999.0;
  }

  lemma NearThousandTruncated()
    ensures Trunc(999.9999999999999999999, E6) == 999.999999
  {
    assert (999.9999999999999999999 * E6).Floor == 999999999;
  }

  lemma NearThousandTotal()
    ensures ComputedTotal(Dec(999.9999999999999999999, 19), PRICE_30, Dec(0.01, 2), 0, NO_FEE) == 1033.3333333333333333332
  {
    hide FeeRate, Trunc;
    FlatFee(Dec(0.01, 2));
    assert Trunc(999.9999999999999999999 / 0.3, E19) == 3333.333333333333333333 by { NearThousandQuotient(); }
    assert Trunc(33.33333333333333333333, E19) == 33.3333333333333333333 by { NearThousandFee(); }
    assert Trunc(0.0, E19) == 0.0 by { TruncZero(); }
  }

  lemma NearThousandQuotient()
    ensures Trunc(999.9999999999999999999 / 0.3, E19) == 3333.333333333333333333
  {
    assert (999.9999999999999999999 / 0.3 * E19).Floor == 33333333333333333333330;
  }

  lemma NearThousandFee()
    ensures Trunc(33.33333333333333333333, E19) == 33.3333333333333333333
  {
    assert (33.33333333333333333333 * E19).Floor == 333333333333333333333;
  }

  lemma TruncZero()
    ensures Trunc(0.0, E19) == 0.0
  {
  }

  /** At a price of 0.3 and a flat rate of 30, an amount of 1 has a computed total of 100.999999999999999999;
      it is kept within a budget just above that, and costs 101. */
  lemma KeptBuyOverspends()
    ensures
      var rate := Dec(30.0, 0);
      && Terms(PRICE_30, rate, NO_FEE) && Valid(ONE)
      && ComputedTotal(ONE, PRICE_30, rate, 0, NO_FEE) == 100.999999999999999999
      && ExactCost(1.0, PRICE_30, rate, 0, NO_FEE) == 101.0
      && !KeptKeepsBudget(ONE, PRICE_30, rate, 0, NO_FEE)
  {
    hide FeeRate, PlatformRate, KeptKeepsBudget;
    var rate := Dec(30.0, 0);
    OneIsValid();
    assert Valid(rate) by { assert Pow10(0) == 1; }
    WitnessTerms(rate);
    FlatFee(rate);
    assert Div(ONE, PRICE_30) == Dec(3.3333333333333333333, 19) by { TenThirds(); }
    assert Trunc(1.0, E6) == 1.0;
    KeptKeepsBudgetExactly(ONE, PRICE_30, rate, 0, NO_FEE);
  }

  lemma TenThirds()
    ensures Trunc(1.0 / 0.3, E19) == 3.3333333333333333333
  {
    assert (1.0 / 0.3 * E19).Floor == 33333333333333333333;
  }
}
