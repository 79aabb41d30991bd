/**
  What sizing to a target exposure promises, and exactly when 28-digit arithmetic keeps the
  promise.  Columns are integers here (quantities and prices in 1e-8, cash in 1e-4), so both
  the exact gap and the gap the code computes are integers in units of 1e-20.
*/
module Sizing {
  import opened Common
  import opened Decimals
  import opened Risk
  import opened Significant

  // ---------- The promise, in exact values ----------

  /** What the portfolio is worth, before any rounding. */
  function ExactValue(h: Holdings, price: real): real {
    if h.value.None? || h.value.value <= 0 then Dollars(h.cash) + h.Quantity() * price
    else Dollars(h.value.value)
  }

  /** The position value the target asks for. */
  function Goal(target: real, h: Holdings, price: real): real {
    ExactValue(h, price) * Min(Max(target, 0.0), 1.0)
  }

  /**
    What target-exposure sizing is for.  A Buy stays within the target value and the cash, a
    Sell leaves at least the target value and sells no more than is held; the quantity is
    whole shares even when the holding is fractional, and what is left of the gap is less
    than one share unless cash ran out.
  */
  predicate SizedToTarget(action: Action, quantity: real, goal: real, held: real, cash: real, price: real) {
    && quantity >= 1.0
    && Whole(quantity)
    && match action
       case Buy =>
         && (held + quantity) * price <= goal
         && quantity * price <= cash
         && (goal < (held + quantity + 1.0) * price || cash < (quantity + 1.0) * price)
       case Sell =>
         && quantity <= held
         && goal <= (held - quantity) * price < goal + price
       case Hold => false
  }

  // ---------- Columns as integers ----------

  /** A portfolio and a price that fit their columns; q and k are the quantity and the price in units of 1e-8. */
  ghost predicate InColumns(h: Holdings, q: int, k: int, price: real) {
    && 0 < k && Fits19(k) && price * 100000000.0 == k as real
    && 0 <= q && Fits19(q) && h.Quantity() * 100000000.0 == q as real
    && Fits19(h.cash)
    && (h.value.Some? ==> Fits19(h.value.value))
  }

  predicate Stored(h: Holdings) {
    h.value.Some? && h.value.value > 0
  }

  /** A target in 1/10000, clamped to what may be exposed. */
  function Clamped(t: int): (c: int)
    ensures 0 <= c <= 10000
  {
    if t < 0 then 0 else if t > 10000 then 10000 else t
  }

  /** A share's price in units of 1e-20. */
  function ShareUnits(k: int): (p: int)
    ensures k > 0 ==> p > 0
  {
    k * 1000000000000
  }

  /** Exact: portfolio value in 1e-16, value gap in 1e-20. */
  function ValueUnits(h: Holdings, q: int, k: int): int {
    if Stored(h) then h.value.value * 1000000000000 else h.cash * 1000000000000 + q * k
  }

  function GapUnits(t: int, h: Holdings, q: int, k: int): int {
    ValueUnits(h, q, k) * Clamped(t) - q * k * 10000
  }

  /** The same as the code has them, rounded after every operation. */
  function ValueUnits28(h: Holdings, q: int, k: int): int {
    if Stored(h) then h.value.value * 1000000000000 else Round28(h.cash * 1000000000000 + Round28(q * k))
  }

  function TargetUnits28(t: int, h: Holdings, q: int, k: int): int {
    Round28(ValueUnits28(h, q, k) * Clamped(t))
  }

  function GapUnits28(t: int, h: Holdings, q: int, k: int): int {
    Round28(TargetUnits28(t, h, q, k) - Round28(q * k) * 10000)
  }

  function FloorOf(n: nat, p: nat): nat
    requires p > 0
  {
    n / p
  }

  /** The quotient carries to the next whole number. */
  predicate Carried(n: nat, p: nat)
    requires p > 0
  {
    Digits(FloorOf(n, p)) <= 28 && Carries(n, p)
  }

  /** The whole shares the code counts in its gap. */
  function CountedShares(t: int, h: Holdings, q: int, k: int): nat
    requires k > 0
  {
    var n, p := Magnitude(GapUnits28(t, h, q, k)), ShareUnits(k);
    FloorOf(n, p) + if Carried(n, p) then 1 else 0
  }

  // ---------- The integers are what the code computes ----------

  const E16: real := 10000000000000000.0
  const E20: real := 100000000000000000000.0

  lemma Scales()
    ensures Pow10(16) as real == E16 && Pow10(20) as real == E20
    ensures Pow10(40) == 10000000000000000000000000000000000000000
    ensures Pow10(44) == 10000 * Pow10(40) && Pow10(48) == 10000 * Pow10(44)
  {
    assert Pow10(4) == 10000;
    assert Pow10(8) == 10000 * Pow10(4);
    assert Pow10(12) == 10000 * Pow10(8);
    assert Pow10(16) == 10000 * Pow10(12);
    assert Pow10(20) == 10000 * Pow10(16);
    assert Pow10(24) == 10000 * Pow10(20);
    assert Pow10(28) == 10000 * Pow10(24);
    assert Pow10(32) == 10000 * Pow10(28);
    assert Pow10(36) == 10000 * Pow10(32);
    assert Pow10(40) == 10000 * Pow10(36);
    assert Pow10(44) == 10000 * Pow10(40);
    assert Pow10(48) == 10000 * Pow10(44);
  }

  /** An upper bound on the integers in units of 1e-16. */
  const WIDE16: int := 10000000000000000000000000000000000000000

  lemma Rounded16(x: real, n: int)
    requires x * E16 == n as real && -WIDE16 <= n <= WIDE16
    ensures Sig28(x) * E16 == Round28(n) as real
  {
    hide Sig28;
    hide Round28;
    hide Digits;
    Scales();
    hide Pow10;
    Pow10Grows(41, 44);
    TenMore(40);
    DigitsAtMost(Magnitude(n), 44);
    SigInUnits(x, 16, n, E16);
  }

  lemma Rounded20(x: real, n: int)
    requires x * E20 == n as real && -50000 * WIDE16 <= n <= 50000 * WIDE16
    ensures Sig28(x) * E20 == Round28(n) as real
  {
    hide Sig28;
    hide Round28;
    hide Digits;
    Scales();
    hide Pow10;
    DigitsAtMost(Magnitude(n), 48);
    SigInUnits(x, 20, n, E20);
  }

  lemma TenMore(j: nat)
    ensures Pow10(j + 1) == 10 * Pow10(j)
  {
  }

  lemma RoundBound(n: int)
    ensures Magnitude(Round28(n)) <= 2 * Magnitude(n)
    ensures n >= 0 ==> Round28(n) >= 0
  {
    Round28Bound(Magnitude(n));
    hide Pow10;
    hide Digits;
    hide HalfEven;
  }

  lemma HoldingBound(q: int, k: int)
    requires 0 <= q && Fits19(q) && 0 < k && Fits19(k)
    ensures 0 <= q * k <= 100000000000000000000000000000000000000
    ensures q * k <= 10000000000000000000 * k
  {
    assert 0 <= q * k <= 10000000000000000000 * k;
  }

  lemma HoldingUnits(quantity: real, q: int, price: real, k: int)
    requires price * 100000000.0 == k as real && quantity * 100000000.0 == q as real
    ensures (quantity * price) * E16 == (q * k) as real
  {
    ProductCast(q, k);
    assert (quantity * 100000000.0) * (price * 100000000.0) == (quantity * price) * E16;
  }

  lemma PositionInUnits(h: Holdings, q: int, k: int, price: real)
    requires InColumns(h, q, k, price)
    ensures PositionValue(h, price) * E16 == Round28(q * k) as real
  {
    PositionOf(h.Quantity(), q, price, k);
    hide Sig28;
    hide Round28;
  }

  lemma PositionOf(quantity: real, q: int, price: real, k: int)
    requires price * 100000000.0 == k as real && quantity * 100000000.0 == q as real
    requires 0 <= q && Fits19(q) && 0 < k && Fits19(k)
    ensures Mul(quantity, price) * E16 == Round28(q * k) as real
  {
    HoldingUnits(quantity, q, price, k);
    HoldingBound(q, k);
    hide Fits19;
    Rounded16(quantity * price, q * k);
    hide Sig28;
    hide Round28;
  }

  lemma ValueInUnits(h: Holdings, q: int, k: int, price: real)
    requires InColumns(h, q, k, price)
    ensures PortfolioValue(h, price) * E16 == ValueUnits28(h, q, k) as real
  {
    hide Sig28;
    hide Round28;
    if !Stored(h) {
      PositionInUnits(h, q, k, price);
      HoldingBound(q, k);
      RoundBound(q * k);
      Distribute(Dollars(h.cash), PositionValue(h, price), E16);
      Rounded16(Dollars(h.cash) + PositionValue(h, price), h.cash * 1000000000000 + Round28(q * k));
    }
  }

  /** The rounded value is bounded by the columns and by the holding. */
  lemma ValueBound28(h: Holdings, q: int, k: int)
    requires 0 <= q * k && Fits19(h.cash) && (h.value.Some? ==> Fits19(h.value.value))
    ensures Magnitude(ValueUnits28(h, q, k)) <= 20000000000000000000000000000000 + 4 * (q * k)
  {
    hide Round28;
    var n := q * k;
    RoundBound(n);
    RoundBound(h.cash * 1000000000000 + Round28(n));
  }

  lemma TargetUnitsOf(value: real, v: int, t: int)
    requires value * E16 == v as real
    ensures (value * Min(Max(t as real / 10000.0, 0.0), 1.0)) * E20 == (v * Clamped(t)) as real
  {
    var c := Clamped(t);
    assert Min(Max(t as real / 10000.0, 0.0), 1.0) == c as real / 10000.0;
    ProductCast(v, c);
    Interchange(value, c as real / 10000.0);
  }

  lemma Interchange(x: real, y: real)
    ensures (x * y) * E20 == (x * E16) * (y * 10000.0)
  {
  }

  lemma TimesClamped(v: int, c: int, bound: nat)
    requires 0 <= c <= 10000 && Magnitude(v) <= bound
    ensures Magnitude(v * c) <= 10000 * bound
  {
    if v >= 0 {
      assert v * c <= v * 10000;
    } else {
      assert v * 10000 <= v * c <= 0;
    }
  }

  /** A bound on both sides of the gap, by the holding. */
  lemma SidesBound(t: int, h: Holdings, q: int, k: int, n: nat)
    requires n == q * k <= 100000000000000000000000000000000000000
    requires Fits19(h.cash) && (h.value.Some? ==> Fits19(h.value.value))
    ensures Magnitude(ValueUnits28(h, q, k) * Clamped(t)) <= 10000 * WIDE16
    ensures Magnitude(TargetUnits28(t, h, q, k)) <= 400000000000000000000000000000000000 + 80000 * n
    ensures 0 <= Round28(q * k) <= 2 * n
  {
    ValueBound28(h, q, k);
    hide Round28;
    hide ValueUnits28;
    RoundBound(n);
    var v := ValueUnits28(h, q, k);
    TimesClamped(v, Clamped(t), 20000000000000000000000000000000 + 4 * n);
    RoundBound(v * Clamped(t));
  }

  lemma GapInUnits28(t: int, h: Holdings, q: int, k: int, price: real)
    requires InColumns(h, q, k, price)
    ensures Gap(t as real / 10000.0, h, price, 1.0) * E20 == GapUnits28(t, h, q, k) as real
  {
    hide *;
    TargetInUnits(t, h, q, k, price);
    PositionInUnits(h, q, k, price);
    SidesFitColumns(t, h, q, k, price);
    GapParts(t, h, q, k, price);
    GapOfSides(TargetValue(t as real / 10000.0, h, price, 1.0), PositionValue(h, price),
      TargetUnits28(t, h, q, k), Round28(q * k));
  }

  lemma GapParts(t: int, h: Holdings, q: int, k: int, price: real)
    ensures Gap(t as real / 10000.0, h, price, 1.0)
      == Sub(TargetValue(t as real / 10000.0, h, price, 1.0), PositionValue(h, price))
    ensures GapUnits28(t, h, q, k) == Round28(TargetUnits28(t, h, q, k) - Round28(q * k) * 10000)
  {
  }

  lemma TargetInUnits(t: int, h: Holdings, q: int, k: int, price: real)
    requires InColumns(h, q, k, price)
    ensures TargetValue(t as real / 10000.0, h, price, 1.0) * E20 == TargetUnits28(t, h, q, k) as real
  {
    hide *;
    ValueInUnits(h, q, k, price);
    TargetFits(t, h, q, k, price);
    TargetRounded(PortfolioValue(h, price), ValueUnits28(h, q, k), t);
    TargetParts(t, h, q, k, price);
  }

  lemma TargetParts(t: int, h: Holdings, q: int, k: int, price: real)
    ensures TargetValue(t as real / 10000.0, h, price, 1.0)
      == Mul(PortfolioValue(h, price), Min(Max(t as real / 10000.0, 0.0), 1.0))
    ensures TargetUnits28(t, h, q, k) == Round28(ValueUnits28(h, q, k) * Clamped(t))
  {
  }

  lemma TargetFits(t: int, h: Holdings, q: int, k: int, price: real)
    requires InColumns(h, q, k, price)
    ensures Magnitude(ValueUnits28(h, q, k) * Clamped(t)) <= 50000 * WIDE16
  {
    HoldingBound(q, k);
    SidesBound(t, h, q, k, q * k);
  }

  lemma TargetRounded(value: real, v: int, t: int)
    requires value * E16 == v as real && Magnitude(v * Clamped(t)) <= 50000 * WIDE16
    ensures Mul(value, Min(Max(t as real / 10000.0, 0.0), 1.0)) * E20 == Round28(v * Clamped(t)) as real
  {
    TargetUnitsOf(value, v, t);
    MulRounded(value, Min(Max(t as real / 10000.0, 0.0), 1.0), v * Clamped(t));
    hide *;
  }

  lemma MulRounded(value: real, c: real, n: int)
    requires (value * c) * E20 == n as real && Magnitude(n) <= 50000 * WIDE16
    ensures Mul(value, c) * E20 == Round28(n) as real
  {
    Rounded20Of(value * c, n);
    hide Sig28;
    hide Round28;
  }

  lemma Rounded20Of(x: real, n: int)
    requires x * E20 == n as real && Magnitude(n) <= 50000 * WIDE16
    ensures Sig28(x) * E20 == Round28(n) as real
  {
    Rounded20(x, n);
    hide Sig28;
    hide Round28;
  }

  lemma SidesFitColumns(t: int, h: Holdings, q: int, k: int, price: real)
    requires InColumns(h, q, k, price)
    ensures Magnitude(TargetUnits28(t, h, q, k)) + 10000 * Magnitude(Round28(q * k)) <= 50000 * WIDE16
  {
    HoldingBound(q, k);
    SidesBound(t, h, q, k, q * k);
    SidesFit(TargetUnits28(t, h, q, k), Round28(q * k), q * k);
  }

  lemma SidesFit(u: int, v: int, n: nat)
    requires n <= 100000000000000000000000000000000000000
    requires Magnitude(u) <= 400000000000000000000000000000000000 + 80000 * n && 0 <= v <= 2 * n
    ensures Magnitude(u) + 10000 * Magnitude(v) <= 50000 * WIDE16
  {
  }

  lemma GapOfSides(target: real, held: real, u: int, v: int)
    requires target * E20 == u as real && held * E16 == v as real
    requires Magnitude(u) + 10000 * Magnitude(v) <= 50000 * WIDE16
    ensures Sub(target, held) * E20 == Round28(u - v * 10000) as real
  {
    hide Sig28;
    hide Round28;
    Distribute(target, held, E20);
    Rounded20(target - held, u - v * 10000);
  }

  /** The gap pays for fewer than 10^27 shares. */
  lemma GapDigits(t: int, h: Holdings, q: int, k: int)
    requires 0 <= q && Fits19(q) && 0 < k && Fits19(k) && Fits19(h.cash) && (h.value.Some? ==> Fits19(h.value.value))
    ensures Digits(FloorOf(Magnitude(GapUnits28(t, h, q, k)), ShareUnits(k))) <= 27
  {
    GapMagnitude(t, h, q, k);
    hide *;
    FewDigits(Magnitude(GapUnits28(t, h, q, k)), ShareUnits(k));
  }

  lemma GapMagnitude(t: int, h: Holdings, q: int, k: int)
    requires 0 <= q && Fits19(q) && 0 < k && Fits19(k) && Fits19(h.cash) && (h.value.Some? ==> Fits19(h.value.value))
    ensures Magnitude(GapUnits28(t, h, q, k)) < 1000000000000000000000000000 * ShareUnits(k)
  {
    HoldingBound(q, k);
    SidesBound(t, h, q, k, q * k);
    GapMagnitudeOf(TargetUnits28(t, h, q, k), Round28(q * k), q * k, k);
    hide Round28;
    hide TargetUnits28;
  }

  lemma GapMagnitudeOf(u: int, v: nat, n: nat, k: int)
    requires 0 < k && n <= 10000000000000000000 * k && v <= 2 * n
    requires Magnitude(u) <= 400000000000000000000000000000000000 + 80000 * n
    ensures Magnitude(Round28(u - v * 10000)) < 1000000000000000000000000000 * ShareUnits(k)
  {
    RoundBound(u - v * 10000);
    hide Round28;
  }

  lemma FewDigits(n: nat, p: nat)
    requires p > 0 && n < 1000000000000000000000000000 * p
    ensures Digits(FloorOf(n, p)) <= 27
  {
    hide Pow10;
    Pow10Constants();
    Remainder(n, p);
    FewShares(n, p, n / p);
    DigitsAtMost(n / p, 27);
  }

  lemma FewShares(n: nat, p: nat, m: nat)
    requires p > 0 && m * p <= n < 1000000000000000000000000000 * p
    ensures m < 1000000000000000000000000000
  {
    if m >= 1000000000000000000000000000 {
      TimesAtLeast(1000000000000000000000000000, m, p, p);
    }
  }

  /** What the code counts is the integer count. */
  lemma CountedExactly(t: int, h: Holdings, q: int, k: int, price: real)
    requires InColumns(h, q, k, price)
    ensures var gap := Abs(Gap(t as real / 10000.0, h, price, 1.0));
      && WholeShares(gap, price) == CountedShares(t, h, q, k)
      && Covers(FloorOf(Magnitude(GapUnits28(t, h, q, k)), ShareUnits(k)), gap, price)
  {
    GapInUnits28(t, h, q, k, price);
    GapDigits(t, h, q, k);
    ShareInUnits(k, price);
    CountOf(Gap(t as real / 10000.0, h, price, 1.0), GapUnits28(t, h, q, k), price, ShareUnits(k));
    hide *;
  }

  lemma CountOf(gap: real, u: int, price: real, p: nat)
    requires price > 0.0 && p > 0 && gap * E20 == u as real && price * E20 == p as real
    requires Digits(FloorOf(Magnitude(u), p)) <= 27
    ensures Covers(FloorOf(Magnitude(u), p), Abs(gap), price)
    ensures WholeShares(Abs(gap), price) == FloorOf(Magnitude(u), p) + if Carries(Magnitude(u), p) then 1 else 0
  {
    hide Digits;
    hide Carries;
    hide WholeShares;
    MagnitudeScaled(gap, u);
    OnScale(Abs(gap), price, E20, Magnitude(u) as real, p as real);
    WholeSharesExactly(Abs(gap), price, Magnitude(u), p);
  }

  lemma ShareInUnits(k: int, price: real)
    requires price * 100000000.0 == k as real
    ensures price * E20 == ShareUnits(k) as real
  {
  }

  lemma MagnitudeScaled(gap: real, u: int)
    requires gap * E20 == u as real
    ensures Abs(gap) * E20 == Magnitude(u) as real
  {
  }

  // ---------- The exact gap ----------

  lemma ExactGapInUnits(t: int, h: Holdings, q: int, k: int, price: real)
    requires InColumns(h, q, k, price)
    ensures (Goal(t as real / 10000.0, h, price) - h.Quantity() * price) * E20 == GapUnits(t, h, q, k) as real
  {
    HoldingUnits(h.Quantity(), q, price, k);
    var held, value := h.Quantity() * price, ExactValue(h, price);
    assert value * E16 == ValueUnits(h, q, k) as real;
    TargetUnitsOf(value, ValueUnits(h, q, k), t);
    Distribute(Goal(t as real / 10000.0, h, price), held, E20);
  }

  /** The shares a signed amount pays for: the mathematical floor. */
  lemma FloorCovers(amount: real, u: int, price: real, p: int)
    requires price > 0.0 && p > 0 && amount * E20 == u as real && price * E20 == p as real
    ensures Covers(u / p, amount, price)
  {
    var m := u / p;
    assert m * p <= u < (m + 1) * p;
    InUnits(m, price, p);
    InUnits(m + 1, price, p);
    ScaleOrder(m as real * price, amount, E20);
    ScaleOrder((m + 1) as real * price, amount, E20);
  }

  lemma InUnits(m: int, price: real, p: int)
    requires price * E20 == p as real
    ensures (m as real * price) * E20 == (m * p) as real
  {
    ProductCast(m, p);
    assert (m as real * price) * E20 == m as real * (price * E20);
  }

  // ---------- Sizing ----------

  function LeastOf(a: int, b: int): int {
    if b < a then b else a
  }

  /** The mathematical floor of a quotient. */
  function Floor(u: int, p: int): int
    requires p > 0
  {
    u / p
  }

  function Affordable(cash: Money, k: int): int
    requires k > 0
  {
    cash * 10000 / k
  }

  /** The quantity the code orders, and the one exact arithmetic would order, in integers. */
  function OrderedShares(action: Action, t: int, h: Holdings, q: int, k: int): real
    requires k > 0
  {
    if action == Buy then LeastOf(CountedShares(t, h, q, k), Affordable(h.cash, k)) as real
    else Min(CountedShares(t, h, q, k) as real, h.Quantity())
  }

  function ExactShares(action: Action, t: int, h: Holdings, q: int, k: int): int
    requires k > 0
  {
    if action == Buy then LeastOf(Floor(GapUnits(t, h, q, k), ShareUnits(k)), Affordable(h.cash, k))
    else Floor(-GapUnits(t, h, q, k), ShareUnits(k))
  }

  /**
    Sizing keeps its promise if and only if the quantity ordered, which the integers above
    compute from the columns, is the one exact arithmetic gives.
  */
  lemma TargetSizing(action: Action, t: int, h: Holdings, q: int, k: int, price: real)
    requires InColumns(h, q, k, price)
    ensures var target := t as real / 10000.0;
      var r := EvaluateTargetExposure(action, Some(target), h, price);
      r.action != Hold ==>
        && r.quantity == Some(OrderedShares(r.action, t, h, q, k))
        && (SizedToTarget(r.action, r.quantity.value, Goal(target, h, price), h.Quantity(), Dollars(h.cash), price)
            <==> OrderedShares(r.action, t, h, q, k) == ExactShares(r.action, t, h, q, k) as real)
  {
    hide *;
    var target := t as real / 10000.0;
    PositivePrice(h, q, k, price);
    if PortfolioValue(h, price) > 0.0 {
      EvaluatedGap(action, target, h, price);
      CloseGapInIntegers(action, t, h, q, k, price);
      PricedKeeps(CloseGap(action, Gap(target, h, price, 1.0), h.Quantity(), h.cash, price), price);
    } else {
      NothingToSize(action, target, h, price);
    }
  }

  lemma PositivePrice(h: Holdings, q: int, k: int, price: real)
    requires InColumns(h, q, k, price)
    ensures price > 0.0 && k > 0 && price * 100000000.0 == k as real
  {
  }

  lemma CloseGapInIntegers(action: Action, t: int, h: Holdings, q: int, k: int, price: real)
    requires InColumns(h, q, k, price) && price > 0.0 && k > 0 && PortfolioValue(h, price) > 0.0
    ensures var target := t as real / 10000.0;
      var r := CloseGap(action, Gap(target, h, price, 1.0), h.Quantity(), h.cash, price);
      r.action != Hold ==>
        && r.quantity == Some(OrderedShares(r.action, t, h, q, k))
        && (SizedToTarget(r.action, r.quantity.value, Goal(target, h, price), h.Quantity(), Dollars(h.cash), price)
            <==> OrderedShares(r.action, t, h, q, k) == ExactShares(r.action, t, h, q, k) as real)
  {
    hide *;
    var target, held := t as real / 10000.0, h.Quantity();
    var worth := held * price;
    CashInColumn(h, q, k, price);
    CountedExactly(t, h, q, k, price);
    GoalNonnegative(target, h, q, k, price);
    BothFloors(t, h, q, k, price, worth);
    CloseGapSized(action, Gap(target, h, price, 1.0), Goal(target, h, price), held, worth, h.cash, price,
      CountedShares(t, h, q, k),
      Floor(GapUnits(t, h, q, k), ShareUnits(k)), Floor(-GapUnits(t, h, q, k), ShareUnits(k)));
    InIntegers(t, h, q, k);
  }

  lemma CashInColumn(h: Holdings, q: int, k: int, price: real)
    requires InColumns(h, q, k, price)
    ensures var m := WholeShares(Dollars(h.cash), price);
      m >= 1 ==> m == Affordable(h.cash, k) && Covers(m, Dollars(h.cash), price)
  {
    CashShares(h.cash, price, k);
  }

  lemma PricedKeeps(s: Risk.Sizing, price: real)
    ensures Priced(s, price).action == s.action && Priced(s, price).quantity == s.quantity
  {
  }

  lemma InIntegers(t: int, h: Holdings, q: int, k: int)
    requires k > 0
    ensures OrderedShares(Buy, t, h, q, k) == LeastOf(CountedShares(t, h, q, k), Affordable(h.cash, k)) as real
    ensures OrderedShares(Sell, t, h, q, k) == Min(CountedShares(t, h, q, k) as real, h.Quantity())
    ensures ExactShares(Buy, t, h, q, k) == LeastOf(Floor(GapUnits(t, h, q, k), ShareUnits(k)), Affordable(h.cash, k))
    ensures ExactShares(Sell, t, h, q, k) == Floor(-GapUnits(t, h, q, k), ShareUnits(k))
  {
  }

  lemma EvaluatedGap(action: Action, target: real, h: Holdings, price: real)
    requires price > 0.0 && PortfolioValue(h, price) > 0.0
    ensures EvaluateTargetExposure(action, Some(target), h, price)
         == Priced(CloseGap(action, Gap(target, h, price, 1.0), h.Quantity(), h.cash, price), price)
  {
    hide PortfolioValue;
    hide Gap;
    hide CloseGap;
  }

  lemma NothingToSize(action: Action, target: real, h: Holdings, price: real)
    requires price > 0.0 && PortfolioValue(h, price) <= 0.0
    ensures EvaluateTargetExposure(action, Some(target), h, price).action == Hold
  {
    hide PortfolioValue;
  }

  lemma CloseGapSized(
    action: Action, gap: real, goal: real, held: real, worth: real, cash: Money, price: real,
    a: int, above: int, below: int
  )
    requires price > 0.0 && goal >= 0.0 && worth == held * price && a == WholeShares(Abs(gap), price)
    requires WholeShares(Dollars(cash), price) >= 1 ==> Covers(WholeShares(Dollars(cash), price), Dollars(cash), price)
    requires Covers(above, goal - worth, price) && Covers(below, worth - goal, price)
    ensures var r, b := CloseGap(action, gap, held, cash, price), WholeShares(Dollars(cash), price);
      r.action != Hold ==>
        && r.quantity.Some?
        && if r.action == Buy then
             && b >= 1 && r.quantity.value == LeastOf(a, b) as real
             && (LeastOf(a, b) == LeastOf(above, b) <==>
                 SizedToTarget(Buy, r.quantity.value, goal, held, Dollars(cash), price))
           else
             && r.action == Sell && r.quantity.value == Min(a as real, held)
             && (r.quantity.value == below as real <==>
                 SizedToTarget(Sell, r.quantity.value, goal, held, Dollars(cash), price))
  {
    hide WholeShares;
    hide SizedToTarget;
    var r, b := CloseGap(action, gap, held, cash, price), WholeShares(Dollars(cash), price);
    if r.action == Buy {
      BuySized(a, b, above, goal, held, Dollars(cash), price);
    } else if r.action == Sell {
      SellSized(a, below, goal, held, Dollars(cash), price);
    }
  }

  lemma BuySized(a: int, b: int, m: int, goal: real, held: real, cash: real, price: real)
    requires price > 0.0 && LeastOf(a, b) >= 1
    requires Covers(m, goal - held * price, price) && Covers(b, cash, price)
    ensures SizedToTarget(Buy, LeastOf(a, b) as real, goal, held, cash, price) <==> LeastOf(a, b) == LeastOf(m, b)
  {
    NextTimes(m, price);
    NextTimes(b, price);
    BoughtExactly(LeastOf(a, b), b, m, goal, held, cash, price,
      LeastOf(a, b) as real * price, b as real * price, m as real * price, held * price);
  }

  lemma BoughtExactly(
    q: int, b: int, m: int, goal: real, held: real, cash: real, price: real, x: real, xb: real, xm: real, y: real
  )
    requires price > 0.0 && 1 <= q <= b && x == q as real * price && xb == b as real * price && xm == m as real * price
    requires y == held * price && xm <= goal - y < xm + price && xb <= cash < xb + price
    ensures SizedToTarget(Buy, q as real, goal, held, cash, price) <==> q == LeastOf(m, b)
  {
    hide SizedToTarget;
    if q < b { ShareApart(q, b, price, x, xb); }
    if q < m { ShareApart(q, m, price, x, xm); }
    if m < q { ShareApart(m, q, price, xm, x); }
    if q == LeastOf(m, b) {
      BoughtRight(q as real, held, goal, cash, price, x, y);
    } else if q > m {
      BoughtTooMuch(q as real, held, goal, cash, price, x, y);
    } else {
      BoughtTooLittle(q as real, held, goal, cash, price, x, y);
    }
  }

  lemma NextTimes(m: int, price: real)
    ensures (m + 1) as real * price == m as real * price + price
  {
    Distribute(m as real, 1.0, price);
  }

  lemma ShareApart(m: int, n: int, price: real, xm: real, xn: real)
    requires price > 0.0 && m < n && xm == m as real * price && xn == n as real * price
    ensures xm + price <= xn
  {
    NextTimes(m, price);
    ScaleMonotone((m + 1) as real, n as real, price);
  }

  lemma BoughtRight(q: real, held: real, goal: real, cash: real, price: real, x: real, y: real)
    requires x == q * price && y == held * price && q >= 1.0 && Whole(q)
    requires x <= goal - y && x <= cash && (goal - y < x + price || cash < x + price)
    ensures SizedToTarget(Buy, q, goal, held, cash, price)
  {
    Distribute(held, q, price);
    Distribute(held + q, 1.0, price);
    Distribute(q, 1.0, price);
  }

  lemma BoughtTooMuch(q: real, held: real, goal: real, cash: real, price: real, x: real, y: real)
    requires x == q * price && y == held * price && goal - y < x
    ensures !SizedToTarget(Buy, q, goal, held, cash, price)
  {
    Distribute(held, q, price);
  }

  lemma BoughtTooLittle(q: real, held: real, goal: real, cash: real, price: real, x: real, y: real)
    requires x == q * price && y == held * price && goal - y >= x + price && cash >= x + price
    ensures !SizedToTarget(Buy, q, goal, held, cash, price)
  {
    Distribute(held, q, price);
    Distribute(held + q, 1.0, price);
    Distribute(q, 1.0, price);
  }

  lemma SellSized(a: int, m: int, goal: real, held: real, cash: real, price: real)
    requires price > 0.0 && goal >= 0.0 && Min(a as real, held) >= 1.0
    requires Covers(m, held * price - goal, price)
    ensures SizedToTarget(Sell, Min(a as real, held), goal, held, cash, price) <==> Min(a as real, held) == m as real
  {
    var q, y := Min(a as real, held), held * price;
    var x := q * price;
    Distribute(m as real, 1.0, price);
    if q == m as real {
      SoldRight(q, held, goal, cash, price, x, y);
    } else if SizedToTarget(Sell, q, goal, held, cash, price) {
      SoldExactly(q, m, held, goal, cash, price, x, y);
    }
  }

  lemma SoldRight(q: real, held: real, goal: real, cash: real, price: real, x: real, y: real)
    requires x == q * price && y == held * price && q >= 1.0 && q <= held && Whole(q)
    requires x <= y - goal < x + price
    ensures SizedToTarget(Sell, q, goal, held, cash, price)
  {
    Distribute(held, q, price);
  }

  lemma SoldExactly(q: real, m: int, held: real, goal: real, cash: real, price: real, x: real, y: real)
    requires price > 0.0 && x == q * price && y == held * price && SizedToTarget(Sell, q, goal, held, cash, price)
    requires Covers(m, y - goal, price)
    ensures q == m as real
  {
    Distribute(held, q, price);
    NextTimes(m, price);
    OneFloor(q.Floor, m, y - goal, price);
  }

  lemma OneFloor(n: int, m: int, amount: real, price: real)
    requires price > 0.0 && Covers(m, amount, price)
    requires n as real * price <= amount < n as real * price + price
    ensures n == m
  {
    NextTimes(m, price);
    if n < m {
      ShareApart(n, m, price, n as real * price, m as real * price);
    } else if m < n {
      ShareApart(m, n, price, m as real * price, n as real * price);
    }
  }

  lemma PositiveBefore(h: Holdings, q: int, k: int, price: real)
    requires InColumns(h, q, k, price) && PortfolioValue(h, price) > 0.0
    ensures ExactValue(h, price) > 0.0
  {
    hide Sig28;
    hide Fits19;
    if !Stored(h) {
      UnstoredValue(h, price);
      hide PortfolioValue;
      CashFits(h, q, k, price);
      RoundedSumPositive(h.cash, h.Quantity() * price);
    }
  }

  lemma UnstoredValue(h: Holdings, price: real)
    requires !Stored(h)
    ensures PortfolioValue(h, price) == Sig28(Dollars(h.cash) + Sig28(h.Quantity() * price))
  {
    hide Sig28;
    assert PortfolioValue(h, price) == Add(Dollars(h.cash), PositionValue(h, price));
  }

  lemma CashFits(h: Holdings, q: int, k: int, price: real)
    requires InColumns(h, q, k, price)
    ensures Fits19(h.cash)
  {
  }

  /** Rounding the holding's worth cannot carry a sum with representable cash across zero. */
  lemma RoundedSumPositive(cash: Money, worth: real)
    requires Fits19(cash) && Sig28(Dollars(cash) + Sig28(worth)) > 0.0
    ensures Dollars(cash) + worth > 0.0
  {
    var held := Sig28(worth);
    if Dollars(cash) + held <= 0.0 {
      SigMonotone(Dollars(cash) + held, 0.0);
    }
    if worth <= -Dollars(cash) {
      SigMonotone(worth, -Dollars(cash));
      CashIsExact(-cash);
    }
  }

  lemma CashIsExact(cash: Money)
    requires Fits19(cash)
    ensures Sig28(Dollars(cash)) == Dollars(cash)
  {
    Pow10Constants();
    SigExact(Dollars(cash), 4, cash);
  }

  lemma GoalNonnegative(target: real, h: Holdings, q: int, k: int, price: real)
    requires InColumns(h, q, k, price) && PortfolioValue(h, price) > 0.0
    ensures Goal(target, h, price) >= 0.0
  {
    PositiveBefore(h, q, k, price);
    ScaleMonotone(0.0, ExactValue(h, price), Min(Max(target, 0.0), 1.0));
  }

  lemma BothFloors(t: int, h: Holdings, q: int, k: int, price: real, worth: real)
    requires InColumns(h, q, k, price) && worth == h.Quantity() * price
    ensures k > 0
    ensures Covers(Floor(GapUnits(t, h, q, k), ShareUnits(k)), Goal(t as real / 10000.0, h, price) - worth, price)
    ensures Covers(Floor(-GapUnits(t, h, q, k), ShareUnits(k)), worth - Goal(t as real / 10000.0, h, price), price)
  {
    hide GapUnits;
    hide Goal;
    var gap := Goal(t as real / 10000.0, h, price) - worth;
    ExactGapInUnits(t, h, q, k, price);
    ShareInUnits(k, price);
    FloorCovers(gap, GapUnits(t, h, q, k), price, ShareUnits(k));
    FloorCovers(-gap, -GapUnits(t, h, q, k), price, ShareUnits(k));
  }

  // ---------- When an order is made ----------

  /**
    An order is refused only for a reason: a HOLD, no value to take a share of, a gap of
    less than one share, or cash for less than one.  Otherwise the side is the gap's sign.
  */
  lemma TargetOrders(action: Action, t: int, h: Holdings, q: int, k: int, price: real)
    requires InColumns(h, q, k, price)
    ensures var target := t as real / 10000.0;
      var gap := Gap(target, h, price, 1.0);
      EvaluateTargetExposure(action, Some(target), h, price).action
      == if action == Hold || PortfolioValue(h, price) <= 0.0 || Abs(gap) < price
            || (gap > 0.0 && Dollars(h.cash) < price)
         then Hold else if gap > 0.0 then Buy else Sell
  {
    var target := t as real / 10000.0;
    var gap := Gap(target, h, price, 1.0);
    hide *;
    PositivePrice(h, q, k, price);
    if PortfolioValue(h, price) > 0.0 {
      EvaluatedGap(action, target, h, price);
      PricedKeeps(CloseGap(action, gap, h.Quantity(), h.cash, price), price);
      CountedExactly(t, h, q, k, price);
      OneShare(FloorOf(Magnitude(GapUnits28(t, h, q, k)), ShareUnits(k)), Abs(gap), price);
      CountedAtLeast(t, h, q, k);
      CashForOne(h, q, k, price);
      HeldForOne(target, h, q, k, price);
      CloseGapSide(action, gap, h.Quantity(), h.cash, price);
    } else {
      NothingToSize(action, target, h, price);
    }
  }

  lemma CountedAtLeast(t: int, h: Holdings, q: int, k: int)
    requires k > 0
    ensures CountedShares(t, h, q, k) >= FloorOf(Magnitude(GapUnits28(t, h, q, k)), ShareUnits(k))
  {
    hide FloorOf;
    hide GapUnits28;
  }

  lemma CloseGapSide(action: Action, gap: real, held: real, cash: Money, price: real)
    requires price > 0.0
    requires Abs(gap) >= price ==> WholeShares(Abs(gap), price) >= 1
    requires WholeShares(Dollars(cash), price) >= 1 <==> Dollars(cash) >= price
    requires gap < 0.0 && Abs(gap) >= price ==> held >= 1.0
    ensures CloseGap(action, gap, held, cash, price).action
      == if action == Hold || Abs(gap) < price || (gap > 0.0 && Dollars(cash) < price) then Hold
         else if gap > 0.0 then Buy else Sell
  {
    hide WholeShares;
  }

  lemma OneShare(m: int, amount: real, price: real)
    requires price > 0.0 && Covers(m, amount, price)
    ensures m >= 1 <==> amount >= price
  {
    NextTimes(m, price);
    if m >= 1 {
      ScaleMonotone(1.0, m as real, price);
    } else {
      ScaleMonotone((m + 1) as real, 1.0, price);
    }
  }

  lemma CashForOne(h: Holdings, q: int, k: int, price: real)
    requires InColumns(h, q, k, price)
    ensures WholeShares(Dollars(h.cash), price) >= 1 <==> Dollars(h.cash) >= price
  {
    CashShares(h.cash, price, k);
    var m := WholeShares(Dollars(h.cash), price);
    if h.cash >= 0 {
      CashSharesExact(h.cash, price, k);
      OneShare(m, Dollars(h.cash), price);
    } else if m >= 1 {
      OneShare(m, Dollars(h.cash), price);
    }
    hide WholeShares;
    hide Covers;
  }

  /** A negative gap of at least one share means at least one share is held. */
  lemma HeldForOne(target: real, h: Holdings, q: int, k: int, price: real)
    requires InColumns(h, q, k, price) && PortfolioValue(h, price) > 0.0
    ensures var gap := Gap(target, h, price, 1.0);
      gap < 0.0 && Abs(gap) >= price ==> h.Quantity() >= 1.0
  {
    var value, c := PortfolioValue(h, price), Min(Max(target, 0.0), 1.0);
    ShareOfValue(value, c);
    assert Gap(target, h, price, 1.0) == Sub(Mul(value, c), Sig28(h.Quantity() * price));
    hide PortfolioValue;
    hide Gap;
    hide Sig28;
    GapAtMostHeld(Mul(value, c), h.Quantity() * price);
    if h.Quantity() < 1.0 {
      LessThanAShare(h.Quantity(), q, price, k, h.Quantity() * price);
    }
  }

  lemma ShareOfValue(value: real, c: real)
    requires value > 0.0 && c >= 0.0
    ensures Mul(value, c) >= 0.0
  {
    ScaleMonotone(0.0, value, c);
    SigMonotone(0.0, value * c);
  }

  lemma GapAtMostHeld(goal: real, worth: real)
    requires goal >= 0.0
    ensures Sub(goal, Sig28(worth)) < 0.0 ==> Abs(Sub(goal, Sig28(worth))) <= Sig28(worth)
  {
    var held := Sig28(worth);
    SigNegated(goal - held);
    SigMonotone(held - goal, held);
    SigIdempotent(worth);
    hide Sig28;
  }

  lemma LessThanAShare(held: real, q: int, price: real, k: int, worth: real)
    requires 0 < k && Fits19(k) && price * 100000000.0 == k as real && 0 <= q && held * 100000000.0 == q as real
    requires held < 1.0 && worth == held * price
    ensures Sig28(worth) < price
  {
    HoldingUnits(held, q, price, k);
    FractionFits(q, k, q * k);
    hide Sig28;
    KeptIn16(worth, q * k);
    ScaleBelowOne(held, price);
  }

  lemma FractionFits(q: nat, k: nat, n: int)
    requires q < 100000000 && Fits19(k) && n == q * k
    ensures 0 <= n && n as real <= TOP
  {
    TimesAtLeast(q, 100000000, k, 10000000000000000000);
    TimesAtLeast(0, q, 0, k);
  }

  lemma KeptIn16(x: real, n: nat)
    requires x * E16 == n as real && n as real <= TOP
    ensures Sig28(x) == x
  {
    Scales();
    hide Sig28;
    hide Pow10;
    SigExact(x, 16, n);
  }

  lemma ScaleBelowOne(held: real, price: real)
    requires price > 0.0 && held < 1.0
    ensures held * price < price
  {
    assert (1.0 - held) * price > 0.0;
  }

  // ---------- When a refusal is right ----------

  /**
    What a refusal of an order that was asked for promises, in exact values: there is nothing to
    take a share of, the gap is less than one share, or it asks for a Buy that cash cannot pay.
  */
  predicate RefusedRightly(value: real, goal: real, worth: real, cash: real, price: real) {
    value <= 0.0 || Abs(goal - worth) < price || (goal > worth && cash < price)
  }

  /** Whether it is for a portfolio, a target and a price. */
  predicate RightToRefuse(target: real, h: Holdings, price: real) {
    RefusedRightly(ExactValue(h, price), Goal(target, h, price), h.Quantity() * price, Dollars(h.cash), price)
  }

  predicate Refused(action: Action, target: real, h: Holdings, price: real) {
    EvaluateTargetExposure(action, Some(target), h, price).action == Hold
  }

  lemma RefusedIs(action: Action, target: real, h: Holdings, price: real)
    ensures Refused(action, target, h, price) <==> EvaluateTargetExposure(action, Some(target), h, price).action == Hold
  {
    hide EvaluateTargetExposure;
  }

  lemma RightIs(target: real, h: Holdings, price: real, worth: real)
    requires worth == h.Quantity() * price
    ensures RightToRefuse(target, h, price)
      <==> RefusedRightly(ExactValue(h, price), Goal(target, h, price), worth, Dollars(h.cash), price)
  {
    hide ExactValue;
    hide Goal;
  }

  /** The same in integers, from a value, a gap and a share. */
  predicate Refuses(value: int, gap: int, cash: Money, k: int) {
    value <= 0 || Magnitude(gap) < ShareUnits(k) || (gap > 0 && cash * 10000 < k)
  }

  lemma RefusesInUnits(value: real, v: int, gap: real, u: int, cash: Money, price: real, k: int)
    requires value * E16 == v as real && gap * E20 == u as real && price * 100000000.0 == k as real
    ensures Refuses(v, u, cash, k)
      <==> value <= 0.0 || Abs(gap) < price || (gap > 0.0 && Dollars(cash) < price)
  {
    MagnitudeScaled(gap, u);
    ShareInUnits(k, price);
  }

  /**
    Exactly when an order that was asked for is refused, and exactly when that is right, both
    in integers.  With a stored value every refusal is right, however the amounts are rounded.
  */
  lemma TargetRefusals(action: Action, t: int, h: Holdings, q: int, k: int, price: real)
    requires InColumns(h, q, k, price) && action != Hold
    ensures var target := t as real / 10000.0;
      && (Refused(action, target, h, price) <==> Refuses(ValueUnits28(h, q, k), GapUnits28(t, h, q, k), h.cash, k))
      && (RightToRefuse(target, h, price) <==> Refuses(ValueUnits(h, q, k), GapUnits(t, h, q, k), h.cash, k))
      && (Stored(h) && Refused(action, target, h, price) ==> RightToRefuse(target, h, price))
  {
    hide *;
    var target := t as real / 10000.0;
    PositivePrice(h, q, k, price);
    TargetOrders(action, t, h, q, k, price);
    RefusedInUnits28(t, h, q, k, price);
    RefusedInUnits(t, h, q, k, price);
    RefusedIs(action, target, h, price);
    if Stored(h) {
      StoredRefusals(t, h, q, k, price);
    }
  }

  lemma RefusedInUnits28(t: int, h: Holdings, q: int, k: int, price: real)
    requires InColumns(h, q, k, price)
    ensures var gap := Gap(t as real / 10000.0, h, price, 1.0);
      Refuses(ValueUnits28(h, q, k), GapUnits28(t, h, q, k), h.cash, k)
      <==> PortfolioValue(h, price) <= 0.0 || Abs(gap) < price || (gap > 0.0 && Dollars(h.cash) < price)
  {
    hide *;
    ValueInUnits(h, q, k, price);
    GapInUnits28(t, h, q, k, price);
    PriceInUnits(h, q, k, price);
    RefusesInUnits(PortfolioValue(h, price), ValueUnits28(h, q, k),
      Gap(t as real / 10000.0, h, price, 1.0), GapUnits28(t, h, q, k), h.cash, price, k);
  }

  /** All that is decided, in integers: whether, on which side and how much. */
  lemma DecidedInIntegers(action: Action, t: int, h: Holdings, q: int, k: int, price: real)
    requires InColumns(h, q, k, price)
    ensures k > 0
    ensures var r := EvaluateTargetExposure(action, Some(t as real / 10000.0), h, price);
      && (r.action == Hold <==> action == Hold || Refuses(ValueUnits28(h, q, k), GapUnits28(t, h, q, k), h.cash, k))
      && (r.action != Hold ==>
            && r.action == (if GapUnits28(t, h, q, k) > 0 then Buy else Sell)
            && r.quantity == Some(OrderedShares(r.action, t, h, q, k)))
  {
    hide *;
    PositivePrice(h, q, k, price);
    TargetSizing(action, t, h, q, k, price);
    TargetOrders(action, t, h, q, k, price);
    RefusedInUnits28(t, h, q, k, price);
    GapInUnits28(t, h, q, k, price);
    UnitsSign(Gap(t as real / 10000.0, h, price, 1.0), GapUnits28(t, h, q, k), price);
  }

  lemma PriceInUnits(h: Holdings, q: int, k: int, price: real)
    requires InColumns(h, q, k, price)
    ensures price * 100000000.0 == k as real && 0 < k && Fits19(k)
  {
  }

  lemma RefusedInUnits(t: int, h: Holdings, q: int, k: int, price: real)
    requires InColumns(h, q, k, price)
    ensures RightToRefuse(t as real / 10000.0, h, price)
      <==> Refuses(ValueUnits(h, q, k), GapUnits(t, h, q, k), h.cash, k)
  {
    hide *;
    var goal, worth := Goal(t as real / 10000.0, h, price), h.Quantity() * price;
    ValueExactInUnits(h, q, k, price);
    ExactGapInUnits(t, h, q, k, price);
    PriceInUnits(h, q, k, price);
    RightIs(t as real / 10000.0, h, price, worth);
    RefusesInUnits(ExactValue(h, price), ValueUnits(h, q, k), goal - worth, GapUnits(t, h, q, k), h.cash, price, k);
    SameRefusal(ExactValue(h, price), goal, worth, Dollars(h.cash), price);
  }

  lemma SameRefusal(value: real, goal: real, worth: real, cash: real, price: real)
    ensures RefusedRightly(value, goal, worth, cash, price)
      <==> value <= 0.0 || Abs(goal - worth) < price || (goal - worth > 0.0 && cash < price)
  {
  }

  /** Goal and price lie on the columns' grids, so rounding cannot take a whole share out of the gap. */
  lemma StoredRefusals(t: int, h: Holdings, q: int, k: int, price: real)
    requires InColumns(h, q, k, price) && Stored(h)
    ensures var target := t as real / 10000.0;
      var gap := Gap(target, h, price, 1.0);
      (PortfolioValue(h, price) <= 0.0 || Abs(gap) < price || (gap > 0.0 && Dollars(h.cash) < price)) ==>
        RightToRefuse(target, h, price)
  {
    var target := t as real / 10000.0;
    var goal, worth := Goal(target, h, price), h.Quantity() * price;
    RightIs(target, h, price, worth);
    PriceInUnits(h, q, k, price);
    StoredGap(t, h, q, k, price);
    ShareKept(goal, worth, price, h.value.value * Clamped(t), k);
    SameRefusal(ExactValue(h, price), goal, worth, Dollars(h.cash), price);
    assert ExactValue(h, price) == PortfolioValue(h, price);
    hide *;
  }

  lemma StoredGap(t: int, h: Holdings, q: int, k: int, price: real)
    requires InColumns(h, q, k, price) && Stored(h)
    ensures var target := t as real / 10000.0;
      var goal, n := Goal(target, h, price), h.value.value * Clamped(t);
      && goal * 100000000.0 == n as real && 0 <= n <= 100000000000000000000000
      && Gap(target, h, price, 1.0) == Sub(goal, Sig28(h.Quantity() * price))
  {
    var v, c := h.value.value, Clamped(t);
    hide *;
    OnGrids(v, t);
    ValueFits(h, q, k, price);
    GridProduct(Dollars(v), Min(Max(t as real / 10000.0, 0.0), 1.0), v, c);
    StoredBound(v, c);
    StoredSides(t as real / 10000.0, h, price);
    KeptIn8(Goal(t as real / 10000.0, h, price), v * c);
  }

  lemma StoredBound(v: int, c: int)
    requires 0 < v <= 10000000000000000000 && 0 <= c <= 10000
    ensures 0 <= v * c <= 100000000000000000000000 && Magnitude(v * c) == v * c
  {
    TimesAtLeast(v, 10000000000000000000, c, 10000);
    TimesAtLeast(0, v, 0, c);
  }

  lemma StoredSides(target: real, h: Holdings, price: real)
    requires Stored(h)
    ensures Goal(target, h, price) == Dollars(h.value.value) * Min(Max(target, 0.0), 1.0)
    ensures Gap(target, h, price, 1.0) == Sub(Sig28(Goal(target, h, price)), Sig28(h.Quantity() * price))
  {
    var value := Dollars(h.value.value);
    hide *;
    StoredValue(h, price);
    GoalIs(target, h, price, value);
    MulIs(value, Min(Max(target, 0.0), 1.0), Goal(target, h, price));
    GapSides(target, h, price);
  }

  lemma ValueFits(h: Holdings, q: int, k: int, price: real)
    requires InColumns(h, q, k, price) && Stored(h)
    ensures 0 < h.value.value <= 10000000000000000000
  {
  }

  lemma StoredValue(h: Holdings, price: real)
    requires Stored(h)
    ensures PortfolioValue(h, price) == ExactValue(h, price) == Dollars(h.value.value)
  {
  }

  lemma GoalIs(target: real, h: Holdings, price: real, value: real)
    requires value == ExactValue(h, price)
    ensures Goal(target, h, price) == value * Min(Max(target, 0.0), 1.0)
  {
    hide ExactValue;
    hide Min;
    hide Max;
  }

  lemma MulIs(x: real, y: real, z: real)
    requires z == x * y
    ensures Mul(x, y) == Sig28(z)
  {
    hide Sig28;
  }

  lemma GapSides(target: real, h: Holdings, price: real)
    ensures TargetValue(target, h, price, 1.0) == Mul(PortfolioValue(h, price), Min(Max(target, 0.0), 1.0))
    ensures Gap(target, h, price, 1.0) == Sub(TargetValue(target, h, price, 1.0), Sig28(h.Quantity() * price))
  {
    hide Sig28;
    hide PortfolioValue;
    hide Min;
    hide Max;
  }

  lemma OnGrids(v: Money, t: int)
    ensures Dollars(v) * 10000.0 == v as real
    ensures Min(Max(t as real / 10000.0, 0.0), 1.0) * 10000.0 == Clamped(t) as real
  {
  }

  lemma GridProduct(x: real, y: real, v: int, c: int)
    requires x * 10000.0 == v as real && y * 10000.0 == c as real
    ensures (x * y) * 100000000.0 == (v * c) as real
  {
    ProductCast(v, c);
    assert (x * y) * 100000000.0 == (x * 10000.0) * (y * 10000.0);
  }

  lemma KeptIn8(x: real, n: int)
    requires x * 100000000.0 == n as real && Magnitude(n) <= 1000000000000000000000000000
    ensures Sig28(x) == x
  {
    Pow10Constants();
    hide Sig28;
    hide Pow10;
    SigExact(x, 8, n);
  }

  lemma ShareKept(goal: real, worth: real, price: real, n: int, k: int)
    requires goal * 100000000.0 == n as real && 0 <= n <= 100000000000000000000000
    requires price * 100000000.0 == k as real && 0 < k && Fits19(k)
    ensures goal - worth >= price ==> Sub(goal, Sig28(worth)) >= price
    ensures worth - goal >= price ==> Sub(goal, Sig28(worth)) <= -price
  {
    hide Sig28;
    KeptIn8(price, k);
    KeptIn8(-price, -k);
    KeptIn8(goal - price, n - k);
    KeptIn8(goal + price, n + k);
    if goal - worth >= price {
      SigMonotone(worth, goal - price);
      SigMonotone(price, goal - Sig28(worth));
    }
    if worth - goal >= price {
      SigMonotone(goal + price, worth);
      SigMonotone(goal - Sig28(worth), -price);
    }
  }

  // ---------- When nothing on the way has more than 28 digits ----------

  /** Every product, sum and difference of the gap is exact. */
  predicate NothingRounded(t: int, h: Holdings, q: int, k: int) {
    && Short(q * k)
    && (Stored(h) || Short(h.cash * 1000000000000 + q * k))
    && Short(ValueUnits(h, q, k) * Clamped(t))
    && Short(GapUnits(t, h, q, k))
  }

  lemma NothingRoundedGap(t: int, h: Holdings, q: int, k: int)
    requires NothingRounded(t, h, q, k)
    ensures GapUnits28(t, h, q, k) == GapUnits(t, h, q, k)
  {
    hide Short;
    hide Round28;
    ShortIsKept(q * k);
    ShortIsKept(h.cash * 1000000000000 + q * k);
    ShortIsKept(ValueUnits(h, q, k) * Clamped(t));
    ShortIsKept(GapUnits(t, h, q, k));
  }

  /** The exact gap's quotient lies so close under a whole number of shares that its 28th digit carries. */
  predicate GapCarries(t: int, h: Holdings, q: int, k: int)
    requires k > 0
  {
    Carried(Magnitude(GapUnits(t, h, q, k)), ShareUnits(k))
  }

  /** Then the only way to miss the target is a carried quotient that neither cash nor the holding limits. */
  lemma UnroundedSizing(action: Action, t: int, h: Holdings, q: int, k: int, price: real)
    requires InColumns(h, q, k, price) && NothingRounded(t, h, q, k)
    ensures var target := t as real / 10000.0;
      var r := EvaluateTargetExposure(action, Some(target), h, price);
      r.action != Hold ==>
        && r.quantity.Some?
        && (SizedToTarget(r.action, r.quantity.value, Goal(target, h, price), h.Quantity(), Dollars(h.cash), price)
            <==> !GapCarries(t, h, q, k)
                 || (r.action == Buy && Affordable(h.cash, k) <= Floor(GapUnits(t, h, q, k), ShareUnits(k))))
  {
    hide *;
    var gap := Gap(t as real / 10000.0, h, price, 1.0);
    var r := EvaluateTargetExposure(action, Some(t as real / 10000.0), h, price);
    PositivePrice(h, q, k, price);
    TargetSizing(action, t, h, q, k, price);
    TargetOrders(action, t, h, q, k, price);
    GapInUnits28(t, h, q, k, price);
    NothingRoundedGap(t, h, q, k);
    UnitsSign(gap, GapUnits(t, h, q, k), price);
    if r.action == Buy {
      BuyCondition(t, h, q, k);
    } else if r.action == Sell {
      ValueBehind(action, t, h, price);
      GoalNonnegative(t as real / 10000.0, h, q, k, price);
      SellCondition(t, h, q, k, price);
    }
  }

  /** And every refusal is right. */
  lemma UnroundedRefusals(action: Action, t: int, h: Holdings, q: int, k: int, price: real)
    requires InColumns(h, q, k, price) && NothingRounded(t, h, q, k) && action != Hold
    ensures var target := t as real / 10000.0;
      Refused(action, target, h, price) <==> RightToRefuse(target, h, price)
  {
    hide *;
    TargetRefusals(action, t, h, q, k, price);
    NothingRoundedGap(t, h, q, k);
    NothingRoundedValue(t, h, q, k);
  }

  lemma NothingRoundedValue(t: int, h: Holdings, q: int, k: int)
    requires NothingRounded(t, h, q, k)
    ensures ValueUnits28(h, q, k) == ValueUnits(h, q, k)
  {
    hide Short;
    hide Round28;
    ShortIsKept(q * k);
    ShortIsKept(h.cash * 1000000000000 + q * k);
  }

  lemma ValueBehind(action: Action, t: int, h: Holdings, price: real)
    requires price > 0.0 && EvaluateTargetExposure(action, Some(t as real / 10000.0), h, price).action != Hold
    ensures PortfolioValue(h, price) > 0.0
  {
    hide PortfolioValue;
    hide Gap;
    hide CloseGap;
  }

  lemma UnitsSign(gap: real, u: int, price: real)
    requires gap * E20 == u as real && price > 0.0
    ensures gap > 0.0 <==> u > 0
    ensures Abs(gap) >= price && !(gap > 0.0) ==> u < 0
  {
  }

  lemma BuyCondition(t: int, h: Holdings, q: int, k: int)
    requires k > 0 && GapUnits28(t, h, q, k) == GapUnits(t, h, q, k) > 0
    ensures OrderedShares(Buy, t, h, q, k) == ExactShares(Buy, t, h, q, k) as real
      <==> !GapCarries(t, h, q, k) || Affordable(h.cash, k) <= Floor(GapUnits(t, h, q, k), ShareUnits(k))
  {
    hide GapUnits;
    hide GapUnits28;
    hide ShareUnits;
    hide Digits;
    hide Carries;
    hide Affordable;
  }

  /** A Sell of the whole holding cannot carry, because nothing is left to carry to. */
  lemma SellCondition(t: int, h: Holdings, q: int, k: int, price: real)
    requires InColumns(h, q, k, price) && GapUnits28(t, h, q, k) == GapUnits(t, h, q, k) < 0
    requires Goal(t as real / 10000.0, h, price) >= 0.0
    ensures OrderedShares(Sell, t, h, q, k) == ExactShares(Sell, t, h, q, k) as real <==> !GapCarries(t, h, q, k)
  {
    var n, p := -GapUnits(t, h, q, k), ShareUnits(k);
    var m := n / p;
    NotMoreThanHeld(t, h, q, k, price, n);
    hide InColumns;
    hide GapUnits;
    hide GapUnits28;
    if GapCarries(t, h, q, k) {
      CarriedRemainder(n, p);
      hide Carries;
    }
    hide Digits;
  }

  lemma CarriedRemainder(n: nat, p: nat)
    requires p > 0 && Digits(n / p) <= 28 && Carries(n, p)
    ensures n % p > 0
  {
    hide Digits;
    hide Pow10;
    Remainder(n, p);
    var r: nat := p - n % p;
    TimesAtLeast(1, Pow10(28 - Digits(n / p)), r, r);
  }

  lemma NotMoreThanHeld(t: int, h: Holdings, q: int, k: int, price: real, n: nat)
    requires InColumns(h, q, k, price) && n == -GapUnits(t, h, q, k) && Goal(t as real / 10000.0, h, price) >= 0.0
    ensures k > 0 && FloorOf(n, ShareUnits(k)) as real <= h.Quantity()
    ensures n % ShareUnits(k) > 0 ==> FloorOf(n, ShareUnits(k)) as real < h.Quantity()
  {
    HoldingUnits(h.Quantity(), q, price, k);
    ValueExactInUnits(h, q, k, price);
    TargetUnitsOf(ExactValue(h, price), ValueUnits(h, q, k), t);
    hide ExactValue;
    hide ValueUnits;
    hide Fits19;
    WithinHolding(n, q, k, ShareUnits(k));
  }

  lemma WithinHolding(n: nat, q: int, k: int, p: nat)
    requires 0 < k && p == ShareUnits(k) && n <= q * k * 10000
    ensures FloorOf(n, p) * 100000000 <= q
    ensures n % p > 0 ==> FloorOf(n, p) * 100000000 < q
  {
    var m := FloorOf(n, p);
    Remainder(n, p);
    assert m * p <= n;
    assert m * p == (m * 100000000) * (k * 10000) && q * k * 10000 == q * (k * 10000);
    LessFactor(m * 100000000, q, k * 10000);
  }

  lemma LessFactor(a: int, b: int, c: int)
    requires c > 0
    ensures a * c <= b * c ==> a <= b
    ensures a * c < b * c ==> a < b
  {
    if a > b {
      assert (a - b) * c > 0;
    }
  }

  lemma ValueExactInUnits(h: Holdings, q: int, k: int, price: real)
    requires InColumns(h, q, k, price)
    ensures ExactValue(h, price) * E16 == ValueUnits(h, q, k) as real
  {
    HoldingUnits(h.Quantity(), q, price, k);
    Distribute(Dollars(h.cash), h.Quantity() * price, E16);
  }

  // ---------- Accounts of whole shares ----------

  lemma TimesQuotient(n: nat, p: nat, s: nat)
    requires p > 0 && s > 0
    ensures p * s > 0 && (n * s) / (p * s) == n / p && (n * s) % (p * s) == (n % p) * s
  {
    var m, r := n / p, n % p;
    assert n == m * p + r;
    assert n * s == m * (p * s) + r * s;
    assert 0 <= r * s < p * s;
    SameFloor(n * s, p * s, m, r * s);
  }

  /** Carrying is a matter of the fraction, not of the unit it is written in. */
  lemma CarriesScaled(n: nat, p: nat, s: nat, n': nat, p': nat)
    requires p > 0 && s > 0 && p' > 0 && n' == n * s && p' == p * s && Digits(n / p) <= 28
    ensures n' / p' == n / p && (Carries(n', p') <==> Carries(n, p))
  {
    TimesQuotient(n, p, s);
    CarryScaled(n % p, p, s, n' % p', p', Pow10(28 - Digits(n / p)));
  }

  lemma CarryScaled(r: nat, p: nat, s: nat, r': nat, p': nat, u: int)
    requires s > 0 && r' == r * s && p' == p * s
    ensures 2 * ((p' - r') * u) <= p' <==> 2 * ((p - r) * u) <= p
  {
    ScaledRest(p, r, s, u);
    ScaledOrder(2 * ((p - r) * u), p, s);
  }

  lemma ScaledRest(p: int, r: int, s: int, u: int)
    ensures 2 * ((p * s - r * s) * u) == (2 * ((p - r) * u)) * s
  {
    assert (p * s - r * s) * u == ((p - r) * s) * u == ((p - r) * u) * s;
  }

  lemma ScaledOrder(c: int, p: int, s: nat)
    requires s > 0
    ensures c * s <= p * s <==> c <= p
  {
    assert (p - c) * s == p * s - c * s;
  }

  /** The value of m whole shares and the cash, or the stored value, in units of 1e-8. */
  function WholeValue(h: Holdings, m: nat, k: int): int {
    if Stored(h) then h.value.value * 10000 else h.cash * 10000 + m * k
  }

  /** m whole shares at k units of 1e-8; the position and the portfolio's value fit their columns. */
  ghost predicate WholeAccount(h: Holdings, m: nat, k: int, price: real) {
    && InColumns(h, m * 100000000, k, price) && m * k < 100000000000000000000000
    && -100000000000000000000000 < WholeValue(h, m, k) < 100000000000000000000000
  }

  /**
    Such an account always gets what target sizing promises, with a stored value or without:
    an order that is made moves it as it should, and one that is refused is refused rightly.
  */
  lemma WholeAccountsAreSized(action: Action, t: int, h: Holdings, m: nat, k: int, price: real)
    requires WholeAccount(h, m, k, price)
    ensures var target := t as real / 10000.0;
      var r, goal := EvaluateTargetExposure(action, Some(target), h, price), Goal(target, h, price);
      && (r.action != Hold ==>
            r.quantity.Some? && SizedToTarget(r.action, r.quantity.value, goal, h.Quantity(), Dollars(h.cash), price))
      && (action != Hold ==> (Refused(action, target, h, price) <==> RightToRefuse(target, h, price)))
  {
    WholeAccountShort(t, h, m, k, price);
    WholeInColumns(h, m, k, price);
    if WholeValue(h, m, k) > 0 {
      WholeAccountNeverCarries(t, h, m, k, price);
    } else {
      WholeNothing(action, t, h, m, k, price);
    }
    hide *;
    UnroundedSizing(action, t, h, m * 100000000, k, price);
    if action != Hold {
      UnroundedRefusals(action, t, h, m * 100000000, k, price);
    }
  }

  /** Without a value to take a share of, nothing is ordered. */
  lemma WholeNothing(action: Action, t: int, h: Holdings, m: nat, k: int, price: real)
    requires WholeAccount(h, m, k, price) && WholeValue(h, m, k) <= 0
    ensures EvaluateTargetExposure(action, Some(t as real / 10000.0), h, price).action == Hold
  {
    var q := m * 100000000;
    WholeAccountShort(t, h, m, k, price);
    NothingRoundedValue(t, h, q, k);
    WholeIntegers(t, h, m, k);
    ValueInUnits(h, q, k, price);
    PositivePrice(h, q, k, price);
    hide NothingRounded;
    hide InColumns;
    hide ValueUnits;
    hide ValueUnits28;
    hide PortfolioValue;
    NothingToSize(action, t as real / 10000.0, h, price);
    hide EvaluateTargetExposure;
  }

  lemma WholeInColumns(h: Holdings, m: nat, k: int, price: real)
    requires WholeAccount(h, m, k, price)
    ensures InColumns(h, m * 100000000, k, price)
  {
  }

  /** The exact integers of a whole account are multiples of 1e8. */
  lemma WholeIntegers(t: int, h: Holdings, m: nat, k: int)
    ensures ValueUnits(h, m * 100000000, k) == WholeValue(h, m, k) * 100000000
    ensures (m * 100000000) * k == (m * k) * 100000000
    ensures ValueUnits(h, m * 100000000, k) * Clamped(t) == (WholeValue(h, m, k) * Clamped(t)) * 100000000
    ensures GapUnits(t, h, m * 100000000, k) == (WholeValue(h, m, k) * Clamped(t) - m * k * 10000) * 100000000
    ensures !Stored(h) ==> h.cash * 1000000000000 + (m * 100000000) * k == WholeValue(h, m, k) * 100000000
  {
    var x, c := WholeValue(h, m, k), Clamped(t);
    assert (m * 100000000) * k == (m * k) * 100000000;
    assert (x * 100000000) * c == (x * c) * 100000000;
  }

  lemma WholeSizes(x: int, c: int, held: nat)
    requires -100000000000000000000000 < x < 100000000000000000000000 && 0 <= c <= 10000
    requires held < 100000000000000000000000
    ensures Magnitude(x * c) < 1000000000000000000000000000
    ensures Magnitude(x * c - held * 10000) < 10000000000000000000000000000
    ensures x > 0 ==> Magnitude(x * c - held * 10000) < 1000000000000000000000000000
  {
    TimesClamped(x, c, 99999999999999999999999);
    if x > 0 {
      assert x * c >= 0;
    }
  }

  lemma WholeAccountShort(t: int, h: Holdings, m: nat, k: int, price: real)
    requires WholeAccount(h, m, k, price)
    ensures NothingRounded(t, h, m * 100000000, k)
  {
    var x, c := WholeValue(h, m, k), Clamped(t);
    TimesAtLeast(0, m, 0, k);
    WholeIntegers(t, h, m, k);
    WholeSizes(x, c, m * k);
    ShortTimes(m * k);
    ShortTimes(x);
    ShortTimes(x * c);
    ShortTimes(x * c - m * k * 10000);
    hide Short;
    hide Fits19;
    hide ValueUnits;
    hide GapUnits;
  }

  lemma ShortTimes(n: int)
    requires Magnitude(n) < 10000000000000000000000000000
    ensures Short(n * 100000000)
  {
    Pow10Constants();
    hide Pow10;
    hide Short;
    TrailingZeros(Magnitude(n), 8);
    assert n * 100000000 == Magnitude(n) * 100000000 || n * 100000000 == -(Magnitude(n) * 100000000);
  }

  lemma WholeAccountNeverCarries(t: int, h: Holdings, m: nat, k: int, price: real)
    requires WholeAccount(h, m, k, price) && WholeValue(h, m, k) > 0
    ensures k > 0 && !GapCarries(t, h, m * 100000000, k)
  {
    var x, c := WholeValue(h, m, k), Clamped(t);
    var n := Magnitude(x * c - m * k * 10000);
    TimesAtLeast(0, m, 0, k);
    WholeIntegers(t, h, m, k);
    WholeSizes(x, c, m * k);
    assert Magnitude(GapUnits(t, h, m * 100000000, k)) == n * 100000000;
    hide GapUnits;
    hide WholeValue;
    FewDigits(n, k * 10000);
    SmallNeverCarries(n, k * 10000);
    CarriesScaled(n, k * 10000, 100000000, n * 100000000, ShareUnits(k));
    hide Digits;
    hide Carries;
  }

  // ---------- Accounts that miss ----------

  /** What a Buy of the whole account orders, from the integers. */
  lemma BuyOf(h: Holdings, q: int, k: int, price: real, counted: int)
    requires InColumns(h, q, k, price) && Stored(h)
    requires GapUnits28(10000, h, q, k) >= ShareUnits(k) && Dollars(h.cash) >= price
    requires CountedShares(10000, h, q, k) == Affordable(h.cash, k) == counted
    ensures var r := EvaluateTargetExposure(Buy, Some(1.0), h, price);
      r.action == Buy && r.quantity == Some(counted as real)
  {
    hide *;
    PositivePrice(h, q, k, price);
    StoredPositive(h, price);
    assert 10000 as real / 10000.0 == 1.0;
    TargetSizing(Buy, 10000, h, q, k, price);
    TargetOrders(Buy, 10000, h, q, k, price);
    GapInUnits28(10000, h, q, k, price);
    ShareInUnits(k, price);
    AtLeastAShare(Gap(1.0, h, price, 1.0), GapUnits28(10000, h, q, k), price, ShareUnits(k));
    InIntegers(10000, h, q, k);
    Least(counted);
  }

  lemma Least(a: int)
    ensures LeastOf(a, a) == a
  {
  }

  lemma StoredPositive(h: Holdings, price: real)
    requires Stored(h)
    ensures PortfolioValue(h, price) > 0.0
  {
  }

  lemma AtLeastAShare(gap: real, u: int, price: real, p: int)
    requires gap * E20 == u as real && price * E20 == p as real && u >= p && price > 0.0
    ensures gap > 0.0 && !(Abs(gap) < price)
  {
  }

  /**
    The quotient carries.  All of $200,016,000,001.0001 is in cash but for 1e-8 of a share
    at 2000.00000001, and the target is 100%: the gap pays for 100,007,999 shares and its
    quotient, 100007999.99999999999999999995, becomes 100,008,000.
  */
  lemma OvershootsByQuotient()
    ensures var h := Holdings(2000160000010001, Some(0.00000001), Some(2000160000010001));
      var r := EvaluateTargetExposure(Buy, Some(1.0), h, 2000.00000001);
      && NothingRounded(10000, h, 1, 200000000001)
      && r.action == Buy && r.quantity == Some(100008000.0)
      && (h.Quantity() + 100008000.0) * 2000.00000001 > Goal(1.0, h, 2000.00000001)
  {
    var h := Holdings(2000160000010001, Some(0.00000001), Some(2000160000010001));
    QuotientNumbers(h);
    QuotientExceeds(h);
    hide *;
    BuyOf(h, 1, 200000000001, 2000.00000001, 100008000);
  }

  lemma QuotientExceeds(h: Holdings)
    requires h == Holdings(2000160000010001, Some(0.00000001), Some(2000160000010001))
    ensures InColumns(h, 1, 200000000001, 2000.00000001) && Stored(h) && Dollars(h.cash) >= 2000.00000001
    ensures (h.Quantity() + 100008000.0) * 2000.00000001 > Goal(1.0, h, 2000.00000001)
  {
  }

  lemma QuotientNumbers(h: Holdings)
    requires h == Holdings(2000160000010001, Some(0.00000001), Some(2000160000010001))
    ensures NothingRounded(10000, h, 1, 200000000001)
    ensures GapUnits28(10000, h, 1, 200000000001) >= ShareUnits(200000000001)
    ensures CountedShares(10000, h, 1, 200000000001) == Affordable(h.cash, 200000000001) == 100008000
  {
    var k, n, p := 200000000001, 20001600000100007999999999990000, 200000000001000000000000;
    assert GapUnits(10000, h, 1, k) == n;
    QuotientShort();
    assert ValueUnits(h, 1, k) * Clamped(10000) == 20001600000100010000000000000000;
    hide Short;
    NothingRoundedGap(10000, h, 1, k);
    hide GapUnits28;
    SameFloor(n, p, 100007999, p - 10000);
    SameFloor(20001600000100010000, k, 100008000, 2000);
    NineDigits();
    hide Digits;
    hide Pow10;
  }

  lemma QuotientShort()
    ensures Short(200000000001) && Short(20001600000100010000000000000000) && Short(20001600000100007999999999990000)
  {
    Pow10Constants();
    Scales();
    hide Short;
    TrailingZeros(200000000001, 0);
    TrailingZeros(2000160000010001, 16);
    TrailingZeros(2000160000010000799999999999, 4);
    hide Pow10;
  }

  lemma NineDigits()
    ensures Digits(100007999) == 9 && Pow10(28 - 9) == 10000000000000000000
  {
    assert Digits(10000) == 5;
    assert Pow10(4) == 10000;
    assert Pow10(8) == 10000 * Pow10(4);
    assert Pow10(12) == 10000 * Pow10(8);
    assert Pow10(16) == 10000 * Pow10(12);
    assert Pow10(19) == 1000 * Pow10(16);
  }

  /**
    The difference is rounded.  With cash 1909465233051.0252 and 0.61644004 of a share at
    4.05589001 the quotient does not carry, but the gap has 29 digits and rounds up to the
    price of 470,788,218,700 shares, one more than it pays for.
  */
  lemma OvershootsByDifference()
    ensures var h := Holdings(19094652330510252, Some(0.61644004), Some(19094652330535254));
      var r := EvaluateTargetExposure(Buy, Some(1.0), h, 4.05589001);
      && !GapCarries(10000, h, 61644004, 405589001)
      && r.action == Buy && r.quantity == Some(470788218700.0)
      && (h.Quantity() + 470788218700.0) * 4.05589001 > Goal(1.0, h, 4.05589001)
  {
    var h := Holdings(19094652330510252, Some(0.61644004), Some(19094652330535254));
    DifferenceNumbers(h);
    DifferenceExceeds(h);
    hide *;
    BuyOf(h, 61644004, 405589001, 4.05589001, 470788218700);
  }

  lemma DifferenceExceeds(h: Holdings)
    requires h == Holdings(19094652330510252, Some(0.61644004), Some(19094652330535254))
    ensures InColumns(h, 61644004, 405589001, 4.05589001) && Stored(h) && Dollars(h.cash) >= 4.05589001
    ensures (h.Quantity() + 470788218700.0) * 4.05589001 > Goal(1.0, h, 4.05589001)
  {
  }

  lemma DifferenceNumbers(h: Holdings)
    requires h == Holdings(19094652330510252, Some(0.61644004), Some(19094652330535254))
    ensures GapUnits28(10000, h, 61644004, 405589001) >= ShareUnits(405589001)
    ensures CountedShares(10000, h, 61644004, 405589001) == Affordable(h.cash, 405589001) == 470788218700
    ensures !GapCarries(10000, h, 61644004, 405589001)
  {
    var q, k := 61644004, 405589001;
    DifferenceGaps(h);
    DifferenceQuotients();
    SameFloor(190946523305102520000, k, 470788218700, 190946523305102520000 - 470788218700 * k);
    hide GapUnits;
    hide GapUnits28;
    hide Carried;
  }

  lemma DifferenceGaps(h: Holdings)
    requires h == Holdings(19094652330510252, Some(0.61644004), Some(19094652330535254))
    ensures GapUnits28(10000, h, 61644004, 405589001) == 190946523305102518700000000000000
    ensures GapUnits(10000, h, 61644004, 405589001) == 190946523305102518699999999960000
  {
    DifferenceRounds();
    assert 61644004 * 405589001 == 25002130000000004;
    assert ValueUnits28(h, 61644004, 405589001) * Clamped(10000) == 190946523305352540000000000000000;
    hide Round28;
  }

  lemma DifferenceQuotients()
    ensures var p := 405589001000000000000;
      && FloorOf(190946523305102518700000000000000, p) == 470788218700
      && !Carried(190946523305102518700000000000000, p) && !Carried(190946523305102518699999999960000, p)
  {
    var p := 405589001000000000000;
    TwelveDigits();
    SameFloor(190946523305102518700000000000000, p, 470788218700, 0);
    SameFloor(190946523305102518699999999960000, p, 470788218699, p - 40000);
    hide Digits;
    hide Pow10;
  }

  lemma TwelveDigits()
    ensures Digits(470788218700) == Digits(470788218699) == 12 && Pow10(28 - 12) == 10000000000000000
  {
    assert Digits(47078) == 5;
    assert Digits(470788218) == 9;
    assert Pow10(4) == 10000;
    assert Pow10(8) == 10000 * Pow10(4);
    assert Pow10(12) == 10000 * Pow10(8);
    assert Pow10(16) == 10000 * Pow10(12);
  }

  lemma DifferenceRounds()
    ensures Round28(25002130000000004) == 25002130000000004
    ensures Round28(190946523305352540000000000000000) == 190946523305352540000000000000000
    ensures Round28(190946523305102518699999999960000) == 190946523305102518700000000000000
  {
    LongDifference();
    Pow10Constants();
    Scales();
    hide Round28;
    hide Short;
    TrailingZeros(25002130000000004, 0);
    TrailingZeros(19094652330535254, 16);
    ShortIsKept(25002130000000004);
    ShortIsKept(190946523305352540000000000000000);
    hide Pow10;
  }

  lemma LongDifference()
    ensures Round28(190946523305102518699999999960000) == 190946523305102518700000000000000
  {
    var n := 190946523305102518699999999960000;
    ThirtyThree();
    hide Pow10;
    DigitsFrom(n, 33);
    RoundLong(n, 5);
    hide Round28;
    hide Digits;
    SameFloor(n, 100000, 1909465233051025186999999999, 60000);
  }

  lemma ThirtyThree()
    ensures Pow10(5) == 100000 && Pow10(32) == 100000000000000000000000000000000 && Pow10(33) == 10 * Pow10(32)
  {
    Pow10Constants();
    assert Pow10(5) == 10 * Pow10(4);
    assert Pow10(32) == 10000 * Pow10(28);
  }

  /**
    A refusal that rounding alone causes.  With cash 100011228.7217, no stored value and
    814581299.43069422 shares at 1227.62454827, a target of 99.99% is one share away, but the sum,
    the product and so the gap come out 4e-16 short of a share's price.
  */
  lemma RefusedByRounding()
    ensures var h, price := Holdings(1000112287217, Some(814581299.43069422), None), 1227.62454827;
      && InColumns(h, 81458129943069422, 122762454827, price)
      && Refused(Buy, 0.9999, h, price) && !RightToRefuse(0.9999, h, price)
  {
    var h := Holdings(1000112287217, Some(814581299.43069422), None);
    RefusedNumbers(h);
    RefusedColumns(h, 1227.62454827);
    hide *;
    RefusedOf(9999, 0.9999, h, 81458129943069422, 122762454827, 1227.62454827);
  }

  lemma RefusedOf(t: int, target: real, h: Holdings, q: int, k: int, price: real)
    requires InColumns(h, q, k, price) && target == t as real / 10000.0
    requires Refuses(ValueUnits28(h, q, k), GapUnits28(t, h, q, k), h.cash, k)
    requires !Refuses(ValueUnits(h, q, k), GapUnits(t, h, q, k), h.cash, k)
    ensures Refused(Buy, target, h, price) && !RightToRefuse(target, h, price)
  {
    hide *;
    TargetRefusals(Buy, t, h, q, k, price);
  }

  lemma RefusedColumns(h: Holdings, price: real)
    requires h == Holdings(1000112287217, Some(814581299.43069422), None) && price == 1227.62454827
    ensures InColumns(h, 81458129943069422, 122762454827, price)
  {
  }

  lemma RefusedNumbers(h: Holdings)
    requires h == Holdings(1000112287217, Some(814581299.43069422), None)
    ensures var q, k := 81458129943069422, 122762454827;
      && Refuses(ValueUnits28(h, q, k), GapUnits28(9999, h, q, k), h.cash, k)
      && !Refuses(ValueUnits(h, q, k), GapUnits(9999, h, q, k), h.cash, k)
  {
    var q, k := 81458129943069422, 122762454827;
    RefusedRounds();
    assert q * k == 9999999997427955999999999994;
    hide Round28;
    assert ValueUnits28(h, q, k) == 10001000109715172999999999990;
    assert TargetUnits28(9999, h, q, k) == 100000000097042014826999999900000;
    assert GapUnits28(9999, h, q, k) == 122762454826999999960000;
    assert GapUnits(9999, h, q, k) == 122762454827000000000006;
  }

  lemma RefusedRounds()
    ensures Round28(9999999997427955999999999994) == 9999999997427955999999999994
    ensures Round28(10001000109715172999999999994) == 10001000109715172999999999990
    ensures Round28(100000000097042014826999999900010) == 100000000097042014826999999900000
    ensures Round28(122762454826999999960000) == 122762454826999999960000
  {
    Pow10Constants();
    hide Round28;
    hide Digits;
    RoundedSum();
    RoundedTarget();
    hide Pow10;
    DigitsAtMost(9999999997427955999999999994, 28);
    DigitsAtMost(122762454826999999960000, 28);
    RoundShort(9999999997427955999999999994);
    RoundShort(122762454826999999960000);
  }

  lemma RoundedSum()
    ensures Round28(10001000109715172999999999994) == 10001000109715172999999999990
  {
    var n := 10001000109715172999999999994;
    Pow10Constants();
    TenMore(0);
    TenMore(28);
    hide Pow10;
    DigitsFrom(n, 29);
    RoundLong(n, 1);
    hide Round28;
    hide Digits;
    SameFloor(n, 10, 1000100010971517299999999999, 4);
  }

  lemma RoundedTarget()
    ensures Round28(100000000097042014826999999900010) == 100000000097042014826999999900000
  {
    var n := 100000000097042014826999999900010;
    ThirtyThree();
    hide Pow10;
    DigitsFrom(n, 33);
    RoundLong(n, 5);
    hide Round28;
    hide Digits;
    SameFloor(n, 100000, 1000000000970420148269999999, 10);
  }

  // ---------- Order values and market values ----------

  /** An order or market value is what the code rounds to whenever the product has at most 28 digits. */
  lemma WorthUnrounded(quantity: real, q: int, price: real, k: int)
    requires 0 <= q && Fits19(q) && 0 < k && Fits19(k) && Short(q * k)
    requires quantity * 100000000.0 == q as real && price * 100000000.0 == k as real
    ensures ToMoney(Mul(quantity, price)) == Worth(quantity, price)
  {
    hide RoundHalfEven;
    hide Fits19;
    PositionOf(quantity, q, price, k);
    ShortIsKept(q * k);
    HoldingUnits(quantity, q, price, k);
    hide Short;
    hide Round28;
    hide Sig28;
    SameProduct(Mul(quantity, price), quantity * price, E16);
  }

  /** As it has for every whole-share holding whose value fits its column. */
  lemma WholeWorthUnrounded(m: nat, price: real, k: int)
    requires Fits19(m * 100000000) && 0 < k && Fits19(k) && price * 100000000.0 == k as real
    requires m * k < 100000000000000000000000
    ensures ToMoney(Mul(m as real, price)) == Worth(m as real, price)
  {
    TimesAtLeast(0, m, 0, k);
    assert (m * 100000000) * k == (m * k) * 100000000;
    ShortTimes(m * k);
    hide *;
    WorthUnrounded(m as real, m * 100000000, price, k);
  }
}
