/** RiskCheck: the only place where a decision becomes a quantity. */
module Risk {
  import opened Common
  import opened Decimals

  datatype Rule =
    | InvalidExecutionPrice
    | HoldAction
    | NoPositionToSell
    | SellFullPosition
    | InsufficientCashForOneShare
    | DefaultWholeShareBuy
    | InvalidPortfolioValue
    | TargetExposureBelowOneShare
    | InsufficientCashForTargetExposure
    | TargetExposureRiskCheck

  /** An action, the quantity when there is an order, and the rule that decided. */
  datatype Sizing = Sizing(action: Action, quantity: Option<real>, rule: Rule)

  /** Every result the validators return is approved; they refuse by a HOLD. */
  datatype RiskResult = RiskResult(
    approved: bool, action: Action, quantity: Option<real>, notional: Option<Money>, rule: Rule)

  /** The portfolio columns RiskCheck reads. */
  datatype Holdings = Holdings(cash: Money, position: Option<real>, value: Option<Money>) {
    function Quantity(): real {
      position.GetOr(0.0)
    }
  }

  function NoOrder(rule: Rule): Sizing {
    Sizing(Hold, None, rule)
  }

  function Order(action: Action, quantity: real, rule: Rule): Sizing {
    Sizing(action, Some(quantity), rule)
  }

  function Priced(s: Sizing, price: real): RiskResult {
    var notional := if s.quantity.Some? then Some(Worth(s.quantity.value, price)) else None;
    RiskResult(true, s.action, s.quantity, notional, s.rule)
  }

  /** Whole shares in an amount: the floor of the 28-digit quotient. */
  function WholeShares(amount: real, price: real): int
    requires price > 0.0
  {
    Div(amount, price).Floor
  }

  function Evaluate(action: Action, h: Holdings, price: real): RiskResult {
    Priced(Size(action, h, price), price)
  }

  function Size(action: Action, h: Holdings, price: real): Sizing {
    if price <= 0.0 then NoOrder(InvalidExecutionPrice)
    else match action
      case Hold => NoOrder(HoldAction)
      case Sell =>
        if h.Quantity() <= 0.0 then NoOrder(NoPositionToSell)
        else Order(Sell, h.Quantity(), SellFullPosition)
      case Buy =>
        var quantity := WholeShares(Dollars(h.cash), price);
        if quantity < 1 then NoOrder(InsufficientCashForOneShare)
        else Order(Buy, quantity as real, DefaultWholeShareBuy)
  }

  /** A result is an order of a positive quantity with its rounded value, or a HOLD with neither; all are approved. */
  predicate Consistent(r: RiskResult, price: real) {
    && r.approved
    && (r.action == Hold <==> r.quantity.None?) && (r.quantity.None? <==> r.notional.None?)
    && (r.quantity.Some? ==>
          r.quantity.value > 0.0 && r.notional.value == Worth(r.quantity.value, price))
  }

  /** Every operation below is rounded to 28 digits, as the decimal context does. */
  function PositionValue(h: Holdings, price: real): real {
    Mul(h.Quantity(), price)
  }

  /** The value a target percentage is taken of: the stored value, or cash plus position. */
  function PortfolioValue(h: Holdings, price: real): real {
    if h.value.None? || h.value.value <= 0 then Add(Dollars(h.cash), PositionValue(h, price))
    else Dollars(h.value.value)
  }

  function TargetValue(target: real, h: Holdings, price: real, maxExposure: real): real {
    Mul(PortfolioValue(h, price), Min(Max(target, 0.0), maxExposure))
  }

  function Gap(target: real, h: Holdings, price: real, maxExposure: real): real {
    Sub(TargetValue(target, h, price, maxExposure), PositionValue(h, price))
  }

  function EvaluateTargetExposure(
    action: Action, target: Option<real>, h: Holdings, price: real, maxExposure: real := 1.0
  ): RiskResult
  {
    Priced(SizeToTarget(action, target, h, price, maxExposure), price)
  }

  function SizeToTarget(action: Action, target: Option<real>, h: Holdings, price: real, maxExposure: real): Sizing {
    if price <= 0.0 then NoOrder(InvalidExecutionPrice)
    else if target.None? then Size(action, h, price)
    else if PortfolioValue(h, price) <= 0.0 then NoOrder(InvalidPortfolioValue)
    else CloseGap(action, Gap(target.value, h, price, maxExposure), h.Quantity(), h.cash, price)
  }

  /** The order that moves the position's value by delta, as far as whole shares and cash allow. */
  function CloseGap(action: Action, delta: real, held: real, cash: Money, price: real): Sizing
    requires price > 0.0
  {
    if action == Hold || Abs(delta) < price then NoOrder(TargetExposureBelowOneShare)
    else if delta > 0.0 then
      var wanted := WholeShares(delta, price);
      var affordable := WholeShares(Dollars(cash), price);
      var quantity := if affordable < wanted then affordable else wanted;
      if quantity < 1 then NoOrder(InsufficientCashForTargetExposure)
      else Order(Buy, quantity as real, TargetExposureRiskCheck)
    else if held <= 0.0 then NoOrder(NoPositionToSell)
    else
      var quantity := Min(WholeShares(-delta, price) as real, held);
      if quantity < 1.0 then NoOrder(TargetExposureBelowOneShare)
      else Order(Sell, quantity, TargetExposureRiskCheck)
  }

  lemma ResultsAreConsistent(action: Action, target: Option<real>, h: Holdings, price: real)
    ensures Consistent(Evaluate(action, h, price), price)
    ensures Consistent(EvaluateTargetExposure(action, target, h, price), price)
    ensures price <= 0.0 ==> Evaluate(action, h, price).action == Hold
    ensures price <= 0.0 ==> EvaluateTargetExposure(action, target, h, price).action == Hold
    ensures target.None? ==> EvaluateTargetExposure(action, target, h, price) == Evaluate(action, h, price)
  {
    SizesAreOrders(action, target, h, price);
    PricedIsConsistent(Size(action, h, price), price);
    PricedIsConsistent(SizeToTarget(action, target, h, price, 1.0), price);
    hide SizeToTarget;
    hide Size;
    hide Consistent;
  }

  predicate Ordered(s: Sizing) {
    if s.action == Hold then s.quantity.None? else s.quantity.Some? && s.quantity.value > 0.0
  }

  lemma SizesAreOrders(action: Action, target: Option<real>, h: Holdings, price: real)
    ensures Ordered(Size(action, h, price)) && Ordered(SizeToTarget(action, target, h, price, 1.0))
    ensures price <= 0.0 ==>
      Size(action, h, price).action == SizeToTarget(action, target, h, price, 1.0).action == Hold
    ensures target.None? ==> SizeToTarget(action, target, h, price, 1.0) == Size(action, h, price)
  {
    hide WholeShares;
    hide Gap;
    hide PortfolioValue;
  }

  lemma PricedIsConsistent(s: Sizing, price: real)
    requires Ordered(s)
    ensures Consistent(Priced(s, price), price) && Priced(s, price).action == s.action
  {
  }

  // ---------- Counting whole shares with 28 digits ----------

  /** m is the number of whole shares the amount pays for. */
  predicate Covers(m: int, amount: real, price: real) {
    m as real * price <= amount < (m + 1) as real * price
  }

  /** Counting divides n by p and floors; it is exact unless the 28-digit quotient carries. */
  lemma WholeSharesExactly(amount: real, price: real, n: nat, p: nat)
    requires price > 0.0 && p > 0 && amount * p as real == n as real * price
    requires Digits(n / p) <= 27
    ensures Covers(n / p, amount, price)
    ensures WholeShares(amount, price) == n / p + (if Carries(n, p) then 1 else 0)
    ensures Carries(n, p) ==> (n / p) as real * price < amount
  {
    hide Digits;
    SameQuotient(amount, price, n as real, p as real);
    FloorOfQuotientExactly(n, p);
    QuotientBetween(n, p);
    Between(amount, price, n / p);
    if Carries(n, p) {
      CarriedIsMore(amount, price, n, p);
    }
  }

  /** A quotient that carries is not itself whole. */
  lemma CarriedIsMore(amount: real, price: real, n: nat, p: nat)
    requires price > 0.0 && p > 0 && amount * p as real == n as real * price
    requires Digits(n / p) <= 28 && Carries(n, p)
    ensures (n / p) as real * price < amount
  {
    hide Digits;
    hide Pow10;
    var m, r, u := n / p, p - n % p, Pow10(28 - Digits(n / p));
    Remainder(n, p);
    TimesAtLeast(1, u, r, r);
    MoreThan(amount, price, n, p, m);
  }

  lemma MoreThan(amount: real, price: real, n: nat, p: nat, m: nat)
    requires price > 0.0 && p > 0 && amount * p as real == n as real * price && m * p < n
    ensures m as real * price < amount
  {
    ProductCast(m, p);
    assert (n as real - (m * p) as real) * price > 0.0;
    assert (m as real * price) * p as real == (m as real * p as real) * price;
    ScaleOrder(amount, m as real * price, p as real);
  }

  lemma Between(amount: real, price: real, m: int)
    requires price > 0.0 && m as real <= amount / price < (m + 1) as real
    ensures Covers(m, amount, price)
  {
    var q := amount / price;
    assert q * price == amount;
    ScaleOrder(m as real, q, price);
    ScaleOrder((m + 1) as real, q, price);
  }

  lemma SameQuotient(a: real, b: real, c: real, d: real)
    requires b > 0.0 && d > 0.0 && a * d == c * b
    ensures a / b == c / d
  {
    var x, y := a / b, c / d;
    assert x * b == a && y * d == c;
    assert (x - y) * (b * d) == 0.0;
  }

  /** Two values on one scale, as a fraction. */
  lemma OnScale(amount: real, price: real, scale: real, n: real, p: real)
    requires amount * scale == n && price * scale == p
    ensures amount * p == n * price
  {
    assert amount * p == amount * (price * scale) == (amount * scale) * price;
  }

  /** A column of 19 digits. */
  predicate Fits19(k: int) {
    -10000000000000000000 < k < 10000000000000000000
  }

  /**
    Cash in a Numeric(19,4) column over a positive price in a Numeric(19,8) column (k units
    of 1e-8) never carries: buying power is the exact integer floor.
  */
  lemma CashSharesExact(cash: Money, price: real, k: int)
    requires 0 <= cash && Fits19(cash) && 0 < k && Fits19(k) && price * 100000000.0 == k as real
    ensures WholeShares(Dollars(cash), price) == cash * 10000 / k
    ensures Covers(cash * 10000 / k, Dollars(cash), price)
  {
    hide WholeShares;
    hide Digits;
    hide Carries;
    OnScale(Dollars(cash), price, 100000000.0, (cash * 10000) as real, k as real);
    ShortNeverCarries(cash * 10000, k);
    WholeSharesExactly(Dollars(cash), price, cash * 10000, k);
  }

  /** Whatever the cash, even overdrawn: the shares counted are affordable, and none are when it is negative. */
  lemma CashShares(cash: Money, price: real, k: int)
    requires Fits19(cash) && 0 < k && Fits19(k) && price * 100000000.0 == k as real
    ensures var m := WholeShares(Dollars(cash), price);
      m >= 1 ==> m == cash * 10000 / k && Covers(m, Dollars(cash), price)
  {
    if cash >= 0 {
      CashSharesExact(cash, price, k);
    } else {
      DivideMonotone(Dollars(cash), 0.0, price);
      SigMonotone(Dollars(cash) / price, 0.0);
    }
  }

  // ---------- Sizing ----------

  predicate Whole(quantity: real) {
    quantity == quantity.Floor as real
  }

  /** A Buy without a target spends as much as whole shares allow, and never more than the cash. */
  lemma BuySizing(h: Holdings, price: real, k: int)
    requires 0 <= h.cash && Fits19(h.cash) && 0 < k && Fits19(k) && price * 100000000.0 == k as real
    ensures var r := Evaluate(Buy, h, price);
      if r.action == Hold then Dollars(h.cash) < price
      else r.action == Buy && r.quantity.Some? && AllIn(r.quantity.value, Dollars(h.cash), price)
  {
    CashSharesExact(h.cash, price, k);
    SpendAll(WholeShares(Dollars(h.cash), price), Dollars(h.cash), price);
    hide WholeShares;
    hide Worth;
    hide AllIn;
    hide Covers;
  }

  lemma SpendAll(m: int, cash: real, price: real)
    requires price > 0.0 && Covers(m, cash, price)
    ensures if m < 1 then cash < price else AllIn(m as real, cash, price)
  {
    if m < 1 {
      ScaleMonotone((m + 1) as real, 1.0, price);
    }
    assert (m + 1) as real == m as real + 1.0;
  }

  predicate AllIn(quantity: real, cash: real, price: real) {
    Whole(quantity) && quantity >= 1.0 && quantity * price <= cash < (quantity + 1.0) * price
  }
}
