/** The agent decision gate, and its agreement with RiskCheck about direction. */
module Gate {
  import opened Common
  import opened Decimals
  import opened Risk

  /** A percentage on the four-place grid: 10000 is 100%. */
  type Pct = int

  const FULL: Pct := 10000

  datatype Intent = OpenLong | AddToLong | HoldPosition | ReduceLong | CloseLong | StayOut

  datatype RiskLevel = Low | Medium | High

  datatype AgentOutput = AgentOutput(action: Action, intent: Intent, target: Pct, confidence: Pct, newInformation: bool)

  /** What the parsers guarantee of the numbers they let through. */
  predicate InRange(o: AgentOutput) {
    0 <= o.target <= FULL && 0 <= o.confidence <= FULL
  }

  datatype Fallback =
    | ConfidenceBelowThreshold
    | BuyTargetNotAboveCurrentExposure
    | SellWithoutPosition
    | SellTargetNotBelowCurrentExposure
    | BuyWithoutNewInformation
    | AgentRiskManagerBlockedBuy

  datatype GateResult = GateResult(decision: AgentOutput, fallback: Option<Fallback>)

  function Fraction(p: Pct): real {
    p as real / 10000.0
  }

  function CurrentExposure(h: Holdings, price: real): Pct {
    var total := PortfolioValue(h, price);
    if total <= 0.0 then 0 else RoundHalfEven(Div(PositionValue(h, price), total) * 10000.0)
  }

  function HoldIntent(h: Holdings): Intent {
    if h.Quantity() > 0.0 then HoldPosition else StayOut
  }

  function FallbackFor(
    o: AgentOutput, h: Holdings, price: real, threshold: Option<Pct>, risk: Option<RiskLevel>, maxExposure: Pct
  ): Option<Fallback>
  {
    var current := CurrentExposure(h, price);
    var target := if maxExposure < o.target then maxExposure else o.target;
    if threshold.Some? && o.confidence < threshold.value then Some(ConfidenceBelowThreshold)
    else if o.action == Buy && target <= current then Some(BuyTargetNotAboveCurrentExposure)
    else if o.action == Sell && h.Quantity() <= 0.0 then Some(SellWithoutPosition)
    else if o.action == Sell && target >= current then Some(SellTargetNotBelowCurrentExposure)
    else if o.action == Buy && !o.newInformation then Some(BuyWithoutNewInformation)
    else if o.action == Buy && risk == Some(High) then Some(AgentRiskManagerBlockedBuy)
    else None
  }

  function Apply(
    o: AgentOutput, h: Holdings, price: real, threshold: Option<Pct>, risk: Option<RiskLevel>, maxExposure: Pct := FULL
  ): GateResult
  {
    var fallback := FallbackFor(o, h, price, threshold, risk, maxExposure);
    var action := if fallback.Some? then Hold else o.action;
    var intent :=
      if fallback.None? then o.intent
      else if fallback.value == SellWithoutPosition then StayOut
      else HoldIntent(h);
    var target :=
      if action == Hold then CurrentExposure(h, price)
      else if maxExposure < o.target then maxExposure
      else o.target;
    GateResult(o.(action := action, intent := intent, target := target), fallback)
  }

  /** Exactly the conditions under which an agent's BUY or SELL survives the gate. */
  lemma DecisionSurvives(o: AgentOutput, h: Holdings, price: real, threshold: Option<Pct>, risk: Option<RiskLevel>)
    requires InRange(o)
    ensures Apply(o, h, price, threshold, risk).decision.action == Buy <==>
      && o.action == Buy
      && (threshold.Some? ==> o.confidence >= threshold.value)
      && o.target > CurrentExposure(h, price)
      && o.newInformation
      && risk != Some(High)
    ensures Apply(o, h, price, threshold, risk).decision.action == Sell <==>
      && o.action == Sell
      && (threshold.Some? ==> o.confidence >= threshold.value)
      && h.Quantity() > 0.0
      && o.target < CurrentExposure(h, price)
  {
  }

  /** The exposure the gate compares with is the holding's share of the portfolio, to within its two roundings. */
  lemma ExposureIsNear(h: Holdings, price: real)
    ensures var total, share := PortfolioValue(h, price), PositionValue(h, price);
      if total <= 0.0 then CurrentExposure(h, price) == 0
      else
        var slack := 0.5 + Abs(share / total) * 10000.0 * SIG_ERROR;
        share / total * 10000.0 - slack <= CurrentExposure(h, price) as real <= share / total * 10000.0 + slack
  {
    var total, share := PortfolioValue(h, price), PositionValue(h, price);
    hide PortfolioValue;
    hide PositionValue;
    hide Sig28;
    if total > 0.0 {
      SigError(share / total);
    }
  }

  /**
    Why a decision does not pass, at any cap, and what is left of it: the reasons apply in this
    order, the first that does is the one recorded, and the decision becomes a HOLD at the
    current exposure; with no reason only the target is capped.
  */
  lemma GateOutcome(
    o: AgentOutput, h: Holdings, price: real, threshold: Option<Pct>, risk: Option<RiskLevel>, cap: Pct
  )
    ensures var r, current := Apply(o, h, price, threshold, risk, cap), CurrentExposure(h, price);
      var target := if o.target <= cap then o.target else cap;
      var unsure := threshold.Some? && o.confidence < threshold.value;
      var flat := h.Quantity() <= 0.0;
      && (r.fallback == Some(ConfidenceBelowThreshold) <==> unsure)
      && (r.fallback == Some(BuyTargetNotAboveCurrentExposure) <==> !unsure && o.action == Buy && target <= current)
      && (r.fallback == Some(SellWithoutPosition) <==> !unsure && o.action == Sell && flat)
      && (r.fallback == Some(SellTargetNotBelowCurrentExposure) <==>
            !unsure && o.action == Sell && !flat && target >= current)
      && (r.fallback == Some(BuyWithoutNewInformation) <==>
            !unsure && o.action == Buy && target > current && !o.newInformation)
      && (r.fallback == Some(AgentRiskManagerBlockedBuy) <==>
            !unsure && o.action == Buy && target > current && o.newInformation && risk == Some(High))
      && r.decision.action == (if r.fallback.Some? then Hold else o.action)
      && r.decision.target == (if r.decision.action == Hold then current else target)
      && r.decision.intent == (if r.fallback.None? then o.intent else if flat then StayOut else HoldPosition)
      && r.decision.confidence == o.confidence && r.decision.newInformation == o.newInformation
  {
    hide CurrentExposure;
  }

  /** Gating twice is gating once: the gate accepts everything it lets through. */
  lemma GateIdempotent(
    o: AgentOutput, h: Holdings, price: real, threshold: Option<Pct>, risk: Option<RiskLevel>, maxExposure: Pct
  )
    ensures var d := Apply(o, h, price, threshold, risk, maxExposure).decision;
      Apply(d, h, price, threshold, risk, maxExposure).decision == d
  {
  }

  lemma GridIsExact(target: Pct)
    requires 0 <= target <= FULL
    ensures Sig28(Fraction(target)) == Fraction(target) && RoundHalfEven(Fraction(target) * 10000.0) == target
  {
    Pow10Constants();
    SigExact(Fraction(target), 4, target);
    RoundExact(target);
  }

  lemma RoundedOrder(x: real, y: real)
    requires x <= y
    ensures RoundHalfEven(Sig28(x) * 10000.0) <= RoundHalfEven(Sig28(y) * 10000.0)
  {
    SigMonotone(x, y);
    RoundMonotone(Sig28(x) * 10000.0, Sig28(y) * 10000.0);
  }

  lemma ShareOfTotal(t: real, amount: real, total: real)
    requires total > 0.0
    ensures total * t <= amount ==> t <= amount / total
    ensures total * t >= amount ==> t >= amount / total
  {
    var x := amount / total;
    assert x * total == amount;
    ScaleOrder(t, x, total);
    ScaleOrder(x, t, total);
  }

  /** A grid percentage on one side of the exact exposure is on that side of the rounded one. */
  lemma ExposureOrder(target: Pct, amount: real, total: real)
    requires 0 <= target <= FULL && total > 0.0
    ensures total * Fraction(target) <= amount ==> target <= RoundHalfEven(Div(amount, total) * 10000.0)
    ensures total * Fraction(target) >= amount ==> target >= RoundHalfEven(Div(amount, total) * 10000.0)
  {
    hide RoundHalfEven;
    hide Sig28;
    var t, x := Fraction(target), amount / total;
    GridIsExact(target);
    ShareOfTotal(t, amount, total);
    if total * t <= amount {
      RoundedOrder(t, x);
    }
    if total * t >= amount {
      RoundedOrder(x, t);
    }
  }

  /** A surviving BUY has no negative value gap to close, a surviving SELL no positive one, after every rounding. */
  lemma GapSign(o: AgentOutput, h: Holdings, price: real, threshold: Option<Pct>, risk: Option<RiskLevel>)
    requires InRange(o) && PortfolioValue(h, price) > 0.0
    ensures var d := Apply(o, h, price, threshold, risk).decision;
      && (d.action == Buy ==> d.target == o.target && Gap(Fraction(o.target), h, price, 1.0) >= 0.0)
      && (d.action == Sell ==> d.target == o.target && Gap(Fraction(o.target), h, price, 1.0) <= 0.0)
  {
    SurvivingTarget(o, h, price, threshold, risk);
    hide *;
    GapSide(o.target, h, price);
  }

  lemma SurvivingTarget(o: AgentOutput, h: Holdings, price: real, threshold: Option<Pct>, risk: Option<RiskLevel>)
    requires InRange(o)
    ensures 0 <= o.target <= FULL
    ensures var d := Apply(o, h, price, threshold, risk).decision;
      && (d.action == Buy ==> d.target == o.target > CurrentExposure(h, price))
      && (d.action == Sell ==> d.target == o.target < CurrentExposure(h, price))
  {
    hide CurrentExposure;
  }

  lemma GapSide(target: Pct, h: Holdings, price: real)
    requires 0 <= target <= FULL && PortfolioValue(h, price) > 0.0
    ensures target > CurrentExposure(h, price) ==> Gap(Fraction(target), h, price, 1.0) >= 0.0
    ensures target < CurrentExposure(h, price) ==> Gap(Fraction(target), h, price, 1.0) <= 0.0
  {
    var total, held := PortfolioValue(h, price), PositionValue(h, price);
    assert CurrentExposure(h, price) == RoundHalfEven(Div(held, total) * 10000.0);
    hide *;
    GapOfGrid(target, h, price);
    SideOfGrid(target, held, total, h.Quantity() * price);
  }

  lemma SideOfGrid(target: Pct, held: real, total: real, worth: real)
    requires 0 <= target <= FULL && total > 0.0 && held == Sig28(worth)
    ensures target > RoundHalfEven(Div(held, total) * 10000.0) ==> Sub(Mul(total, Fraction(target)), held) >= 0.0
    ensures target < RoundHalfEven(Div(held, total) * 10000.0) ==> Sub(Mul(total, Fraction(target)), held) <= 0.0
  {
    hide RoundHalfEven;
    ExposureOrder(target, held, total);
    RoundedGapSign(total * Fraction(target), worth);
    hide Sig28;
  }

  lemma GapOfGrid(target: Pct, h: Holdings, price: real)
    requires 0 <= target <= FULL
    ensures Gap(Fraction(target), h, price, 1.0)
      == Sub(Mul(PortfolioValue(h, price), Fraction(target)), PositionValue(h, price))
    ensures PositionValue(h, price) == Sig28(h.Quantity() * price)
  {
    assert Min(Max(Fraction(target), 0.0), 1.0) == Fraction(target);
    hide Sig28;
  }

  /** Rounding a target value and its difference from a rounded holding keeps the side it is on. */
  lemma RoundedGapSign(goal: real, worth: real)
    ensures goal >= Sig28(worth) ==> Sub(Sig28(goal), Sig28(worth)) >= 0.0
    ensures goal <= Sig28(worth) ==> Sub(Sig28(goal), Sig28(worth)) <= 0.0
  {
    var held := Sig28(worth);
    ZeroIsExact();
    hide Sig28;
    SigIdempotent(worth);
    if goal >= held {
      SigMonotone(held, goal);
      SigMonotone(0.0, Sig28(goal) - held);
    }
    if goal <= held {
      SigMonotone(goal, held);
      SigMonotone(Sig28(goal) - held, 0.0);
    }
  }

  lemma ZeroIsExact()
    ensures Sig28(0.0) == 0.0
  {
  }

  lemma CloseGapDirection(action: Action, delta: real, held: real, cash: Money, price: real)
    requires price > 0.0
    ensures var r := CloseGap(action, delta, held, cash, price).action;
      && (action == Hold ==> r == Hold)
      && (delta >= 0.0 ==> r != Sell)
      && (delta <= 0.0 ==> r != Buy)
  {
  }

  /**
    Gate and RiskCheck agree in direction.  The gate compares the target with an exposure
    rounded twice; RiskCheck takes the sign of a difference of two other rounded values.
    Still a gated BUY is never turned into a SELL, a gated SELL never into a BUY, and a HOLD
    never into an order.
  */
  lemma DirectionKept(o: AgentOutput, h: Holdings, price: real, threshold: Option<Pct>, risk: Option<RiskLevel>)
    requires InRange(o)
    ensures var d := Apply(o, h, price, threshold, risk).decision;
      var r := EvaluateTargetExposure(d.action, Some(Fraction(d.target)), h, price);
      r.action == Hold || r.action == d.action == o.action
  {
    var d := Apply(o, h, price, threshold, risk).decision;
    if price > 0.0 && PortfolioValue(h, price) > 0.0 {
      GapSign(o, h, price, threshold, risk);
      CloseGapDirection(d.action, Gap(Fraction(d.target), h, price, 1.0), h.Quantity(), h.cash, price);
    }
  }
}
