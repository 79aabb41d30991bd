/** The three rule-based strategies, as functions of the position and what the bars show. */
module Strategies {
  import opened Common
  import opened Decimals

  /** A price in units of 1e-8. */
  type Ticks = int

  function Price(t: Ticks): real {
    t as real / 100000000.0
  }

  datatype OrbState = OrbState(high: Option<Ticks>, low: Option<Ticks>, complete: bool, finalBar: bool, roundTrip: bool)

  /** What a strategy is shown besides the position. */
  datatype Signal =
    | BuyAndHold
    | MovingAverage(price: Ticks, average: Option<Ticks>)
    | OpeningRange(close: Ticks, state: OrbState)

  const DEFAULT_WINDOW := 200

  /** A missing or zero window means the default. */
  function Window(configured: Option<nat>): (w: nat)
    ensures w > 0
  {
    if configured.None? || configured.value == 0 then DEFAULT_WINDOW else configured.value
  }

  function Sum(prices: seq<Ticks>): int {
    if prices == [] then 0 else Sum(prices[..|prices| - 1]) + prices[|prices| - 1]
  }

  function Average(prices: seq<Ticks>, window: nat): Option<Ticks>
    requires window > 0
  {
    if |prices| < window then None
    else Some(ToTick8(Div(Price(Sum(prices[|prices| - window..])), window as real)))
  }

  function Decide(signal: Signal, position: real): Action {
    match signal
    case BuyAndHold => if position == 0.0 then Buy else Hold
    case MovingAverage(price, average) =>
      if average.None? then Hold
      else if price > average.value && position <= 0.0 then Buy
      else if price < average.value && position > 0.0 then Sell
      else Hold
    case OpeningRange(close, state) => Breakout(close, state, position)
  }

  function Breakout(close: Ticks, state: OrbState, position: real): Action {
    if !state.complete then Hold
    else if state.finalBar && position > 0.0 then Sell
    else if state.roundTrip then Hold
    else if state.high.Some? && close > state.high.value then (if position > 0.0 then Hold else Buy)
    else if state.low.Some? && close < state.low.value then (if position > 0.0 then Sell else Hold)
    else Hold
  }

  /** None of them adds to a holding. */
  lemma BuysOnlyWhenFlat(signal: Signal, position: real)
    requires position >= 0.0
    ensures Decide(signal, position) == Buy ==> position == 0.0
    ensures Decide(signal, position) == Sell ==> position > 0.0
  {
  }

  /** When Moving Average acts: in above a known average when flat, out below it when holding. */
  lemma AverageDecides(price: Ticks, average: Option<Ticks>, position: real)
    ensures Decide(MovingAverage(price, average), position) == Buy <==>
      average.Some? && price > average.value && position <= 0.0
    ensures Decide(MovingAverage(price, average), position) == Sell <==>
      average.Some? && price < average.value && position > 0.0
  {
  }

  /** When the opening range is acted on: out above it when flat, out below it or at the end when holding. */
  lemma BreakoutDecides(close: Ticks, state: OrbState, position: real)
    ensures Breakout(close, state, position) == Buy <==>
      state.complete && position <= 0.0 && !state.roundTrip && state.high.Some? && close > state.high.value
    ensures Breakout(close, state, position) == Sell <==>
      && state.complete && position > 0.0
      && (state.finalBar
          || (!state.roundTrip && state.low.Some? && close < state.low.value
              && !(state.high.Some? && close > state.high.value)))
  {
  }

  lemma {:induction false} SumBetween(prices: seq<Ticks>, lo: Ticks, hi: Ticks)
    requires forall i :: 0 <= i < |prices| ==> lo <= prices[i] <= hi
    ensures |prices| * lo <= Sum(prices) <= |prices| * hi
  {
    if prices != [] {
      var k := |prices| - 1;
      SumBetween(prices[..k], lo, hi);
      assert |prices| * lo == k * lo + lo && |prices| * hi == k * hi + hi;
    }
  }

  lemma MeanAtLeast(total: int, n: nat, lo: Ticks)
    requires n > 0 && n * lo <= total
    ensures Price(lo) <= Price(total) / n as real
  {
    var q := Price(total) / n as real;
    assert q * n as real == Price(total);
    ProductCast(n, lo);
    if q < Price(lo) {
      ScaleMonotone(q, Price(lo), n as real);
      SameProduct(q, Price(lo), n as real);
    }
  }

  lemma MeanAtMost(total: int, n: nat, hi: Ticks)
    requires n > 0 && total <= n * hi
    ensures Price(total) / n as real <= Price(hi)
  {
    var q := Price(total) / n as real;
    assert q * n as real == Price(total);
    ProductCast(n, hi);
    if q > Price(hi) {
      ScaleMonotone(Price(hi), q, n as real);
      SameProduct(q, Price(hi), n as real);
    }
  }

  lemma TickIsExact(t: Ticks)
    requires -TOP <= t as real <= TOP
    ensures Sig28(Price(t)) == Price(t) && ToTick8(Price(t)) == t
  {
    assert Pow10(4) == 10000;
    assert Pow10(8) == 10000 * Pow10(4);
    SigExact(Price(t), 8, t);
    RoundExact(t);
  }

  /** The moving average is the mean of the last closes to within its two roundings, known once there are enough. */
  lemma AverageIsMean(prices: seq<Ticks>, window: nat)
    requires window > 0
    ensures Average(prices, window).Some? <==> |prices| >= window
    ensures |prices| >= window ==>
      NearTicks(Average(prices, window).value, Price(Sum(prices[|prices| - window..])) / window as real)
  {
    if |prices| >= window {
      TicksNear(Price(Sum(prices[|prices| - window..])) / window as real);
    }
    hide Sig28;
  }

  /** The rounded moving average lies between the smallest and the largest close of its window. */
  lemma AverageWithinWindow(prices: seq<Ticks>, window: nat, lo: Ticks, hi: Ticks)
    requires 0 < window <= |prices| && -TOP <= lo as real && hi as real <= TOP
    requires forall i :: |prices| - window <= i < |prices| ==> lo <= prices[i] <= hi
    ensures Average(prices, window).Some? && lo <= Average(prices, window).value <= hi
  {
    var last := prices[|prices| - window..];
    var total := Sum(last);
    SumBetween(last, lo, hi);
    var q := Price(total) / window as real;
    assert lo <= last[0] <= hi;
    MeanAtLeast(total, window, lo);
    MeanAtMost(total, window, hi);
    TickIsExact(lo);
    TickIsExact(hi);
    SigMonotone(Price(lo), q);
    SigMonotone(q, Price(hi));
    RoundMonotone(Price(lo) * 100000000.0, Sig28(q) * 100000000.0);
    RoundMonotone(Sig28(q) * 100000000.0, Price(hi) * 100000000.0);
  }
}
