/**
  One bar of a historical simulation: decision, RiskCheck, simulated execution, snapshot
  and metrics in one transaction; and the experiment rows it changes.
*/
module Simulation {
  import opened Common
  import opened Decimals
  import opened Risk
  import opened Metrics
  import opened Strategies

  datatype TradeRow = TradeRow(side: Action, quantity: real, price: Ticks, value: Money, valueAfter: Money)

  datatype Snapshot = Snapshot(cash: Money, position: real, marketValue: Money, total: Money, price: Ticks)

  /** The rows of one experiment that feed back into its run. */
  datatype Sim = Sim(
    cash: Money, position: real, mark: Option<Ticks>, positionValue: Money, value: Money,
    trades: seq<TradeRow>, snapshots: seq<Snapshot>, metrics: seq<MetricRow>)

  function NewSim(capital: Money): Sim {
    Sim(capital, 0.0, None, 0, capital, [], [], [])
  }

  function Totals(snapshots: seq<Snapshot>): seq<Money> {
    seq(|snapshots|, i requires 0 <= i < |snapshots| => snapshots[i].total)
  }

  /** Cash and position after the simulated order; a simulated SELL always empties the position. */
  function Execute(cash: Money, position: real, r: RiskResult, price: real): (Money, real) {
    if r.quantity.None? then (cash, position)
    else match r.action
      case Hold => (cash, position)
      case Buy => (cash - Worth(r.quantity.value, price), position + r.quantity.value)
      case Sell => (cash + Worth(r.quantity.value, price), 0.0)
  }

  function RiskCheck(s: Sim, action: Action, t: Ticks): RiskResult {
    Evaluate(action, Holdings(s.cash, Some(s.position), Some(s.value)), Price(t))
  }

  function Executed(s: Sim, r: RiskResult, t: Ticks): Sim {
    var (cash, position) := Execute(s.cash, s.position, r, Price(t));
    s.(cash := cash, position := position)
  }

  function Revalued(s: Sim, t: Ticks): Sim {
    var worth := Worth(s.position, Price(t));
    s.(mark := Some(t), positionValue := worth, value := s.cash + worth)
  }

  function WithTrade(trades: seq<TradeRow>, r: RiskResult, t: Ticks, valueAfter: Money): seq<TradeRow> {
    if r.action == Hold || r.quantity.None? then trades
    else trades + [TradeRow(r.action, r.quantity.value, t, Worth(r.quantity.value, Price(t)), valueAfter)]
  }

  /** The trade, snapshot and metric rows of the step. */
  function Recorded(s: Sim, r: RiskResult, t: Ticks, capital: Money): Sim
    requires capital > 0
  {
    var trades := WithTrade(s.trades, r, t, s.value);
    s.(trades := trades,
       snapshots := s.snapshots + [Snapshot(s.cash, s.position, s.positionValue, s.value, t)],
       metrics := s.metrics + [Calculate(capital, s.value, Totals(s.snapshots), |trades|)])
  }

  function Advance(s: Sim, action: Action, t: Ticks, capital: Money): Sim
    requires capital > 0
  {
    var r := RiskCheck(s, action, t);
    Recorded(Revalued(Executed(s, r, t), t), r, t, capital)
  }

  /** The numeric columns hold 19 digits; a larger value makes the transaction fail. */
  predicate Stored(s: Sim, t: Ticks) {
    && Fits19(s.cash) && Fits19(s.positionValue) && Fits19(s.value) && Fits19(t)
    && -100000000000.0 < s.position < 100000000000.0
    && (s.metrics != [] ==> Fits19(s.metrics[|s.metrics| - 1].totalReturn))
  }

  function Step(s: Sim, action: Action, t: Ticks, capital: Money): Option<Sim>
    requires capital > 0
  {
    var next := Advance(s, action, t, capital);
    if Stored(next, t) then Some(next) else None
  }

  /**
    A step fails exactly when a number it would store has more digits than its column: 19 for
    amounts of 1/10000, prices and returns, 11 before the point for the position.
  */
  lemma StepFailsExactly(s: Sim, action: Action, t: Ticks, capital: Money)
    requires capital > 0
    ensures var next, wide := Advance(s, action, t, capital), 10000000000000000000;
      && next.metrics != []
      && (Step(s, action, t, capital).None? <==>
            || !(-wide < next.cash < wide) || !(-wide < next.positionValue < wide) || !(-wide < next.value < wide)
            || !(-wide < t < wide) || !(-wide < next.metrics[|next.metrics| - 1].totalReturn < wide)
            || !(-100000000000.0 < next.position < 100000000000.0))
      && (Step(s, action, t, capital).Some? ==> Step(s, action, t, capital).value == next)
  {
    hide RiskCheck;
    hide Worth;
    hide Calculate;
  }

  // ---------- What every step keeps ----------

  /** The sum, over bars after the first, of the rounded change in value of what was held into the bar. */
  function Gains(snapshots: seq<Snapshot>): Money {
    if |snapshots| <= 1 then 0
    else
      var k := |snapshots| - 1;
      var held := snapshots[k - 1].position;
      Gains(snapshots[..k]) + Worth(held, Price(snapshots[k].price)) - Worth(held, Price(snapshots[k - 1].price))
  }

  ghost predicate LastSnapshot(s: Sim) {
    && |s.snapshots| == |s.metrics|
    && (s.snapshots == [] ==> s.position == 0.0 && s.trades == [])
    && (s.snapshots != [] ==>
          && s.mark.Some?
          && s.positionValue == Worth(s.position, Price(s.mark.value))
          && s.snapshots[|s.snapshots| - 1] == Snapshot(s.cash, s.position, s.positionValue, s.value, s.mark.value))
  }

  ghost predicate Sound(s: Sim, capital: Money) {
    && 0 <= s.cash && Fits19(s.cash)
    && s.position >= 0.0 && Whole(s.position)
    && (s.snapshots == [] ==> s.cash == capital)
    && s.value == (if s.snapshots == [] then capital else s.cash + s.positionValue)
    && LastSnapshot(s)
    && s.value == capital + Gains(s.snapshots)
    && (s.metrics != [] ==> s.metrics[|s.metrics| - 1].profitLoss == Gains(s.snapshots))
  }

  lemma WorthOfNothing(price: real)
    ensures Worth(0.0, price) == 0
  {
    assert 0.0 * price == 0.0;
    RoundExact(0);
  }

  /** Buying from flat: the order is affordable to the last tick and less than a share's price is left. */
  lemma BuyIsAffordable(s: Sim, t: Ticks)
    requires 0 <= s.cash && Fits19(s.cash) && Fits19(t)
    requires RiskCheck(s, Buy, t).action == Buy
    ensures var r := RiskCheck(s, Buy, t);
      && r.quantity.Some? && Whole(r.quantity.value) && r.quantity.value >= 1.0 && t > 0
      && 0.0 <= Dollars(s.cash - Worth(r.quantity.value, Price(t))) < Price(t) + 0.00005
  {
    assert t > 0;
    assert Price(t) * 100000000.0 == t as real;
    var h := Holdings(s.cash, Some(s.position), Some(s.value));
    BuySizing(h, Price(t), t);
    var q := RiskCheck(s, Buy, t).quantity.value;
    AllInLeaves(q, s.cash, Price(t));
  }

  lemma AllInLeaves(q: real, cash: Money, price: real)
    requires price > 0.0 && AllIn(q, Dollars(cash), price)
    ensures 0.0 <= Dollars(cash - Worth(q, price)) < price + 0.00005
  {
    var x := q * price;
    assert Worth(q, price) == ToMoney(x);
    Distribute(q, 1.0, price);
    RoundedCost(x, cash, price);
  }

  lemma RoundedCost(x: real, cash: Money, price: real)
    requires x <= Dollars(cash) < x + price
    ensures 0.0 <= Dollars(cash - ToMoney(x)) < price + 0.00005
  {
    RoundMonotone(x * 10000.0, cash as real);
    RoundExact(cash);
  }

  /** A trade from or to a flat position leaves cash plus rounded position value unchanged. */
  lemma TradeIsNeutral(s: Sim, action: Action, t: Ticks)
    requires action == Buy ==> s.position == 0.0
    ensures var (cash, position) := Execute(s.cash, s.position, RiskCheck(s, action, t), Price(t));
      cash + Worth(position, Price(t)) == s.cash + Worth(s.position, Price(t))
  {
    WorthOfNothing(Price(t));
  }

  lemma AdvanceSound(s: Sim, action: Action, t: Ticks, capital: Money)
    requires capital > 0 && Sound(s, capital) && Stored(Advance(s, action, t, capital), t)
    requires action == Buy ==> s.position == 0.0
    ensures Sound(Advance(s, action, t, capital), capital)
  {
    var next := Advance(s, action, t, capital);
    TradeIsNeutral(s, action, t);
    WorthOfNothing(Price(t));
    assert next.snapshots[..|s.snapshots|] == s.snapshots;
    if RiskCheck(s, action, t).action == Buy {
      BuyIsAffordable(s, t);
    } else if RiskCheck(s, action, t).action == Sell {
      WorthMonotone(0.0, s.position, Price(t));
    }
    assert next.value == capital + Gains(next.snapshots) by {
      GainsAppend(s, action, t, capital);
    }
  }

  lemma GainsAppend(s: Sim, action: Action, t: Ticks, capital: Money)
    requires capital > 0 && Sound(s, capital) && (action == Buy ==> s.position == 0.0)
    ensures Advance(s, action, t, capital).value == capital + Gains(Advance(s, action, t, capital).snapshots)
  {
    var next := Advance(s, action, t, capital);
    var k := |s.snapshots|;
    TradeIsNeutral(s, action, t);
    assert next.snapshots[..k] == s.snapshots;
    assert next.value == s.cash + Worth(s.position, Price(t));
    if k == 0 {
      WorthOfNothing(Price(t));
    }
  }

  // ---------- What a step trades ----------

  /** Nothing is traded. */
  predicate Kept(s: Sim, next: Sim) {
    next.trades == s.trades && next.position == s.position && next.cash == s.cash
  }

  /** Everything held is sold at the price, and the trade is on record. */
  predicate SoldAll(s: Sim, next: Sim, t: Ticks) {
    var proceeds := Worth(s.position, Price(t));
    && next.position == 0.0 && next.cash == s.cash + proceeds
    && next.trades == s.trades + [TradeRow(Sell, s.position, t, proceeds, next.value)]
  }

  /** All the whole shares that cash pays for are bought at the price, and the trade is on record. */
  predicate BoughtAll(s: Sim, next: Sim, t: Ticks) {
    var cost := Worth(next.position, Price(t));
    && AllIn(next.position, Dollars(s.cash), Price(t)) && next.cash == s.cash - cost
    && next.trades == s.trades + [TradeRow(Buy, next.position, t, cost, next.value)]
  }

  /** What an action does: a SELL of anything held, a BUY of anything that can be paid for, at the step's price. */
  lemma StepTrades(s: Sim, action: Action, t: Ticks, capital: Money)
    requires capital > 0 && Sound(s, capital) && Step(s, action, t, capital).Some?
    requires action == Buy ==> s.position == 0.0
    ensures var next := Step(s, action, t, capital).value;
      match action
      case Hold => Kept(s, next)
      case Sell => if t > 0 && s.position > 0.0 then SoldAll(s, next, t) else Kept(s, next)
      case Buy => if t > 0 && Price(t) <= Dollars(s.cash) then BoughtAll(s, next, t) else Kept(s, next)
  {
    hide Worth;
    if action == Buy && t > 0 {
      var m := WholeShares(Dollars(s.cash), Price(t));
      CashSharesExact(s.cash, Price(t), t);
      SpendAll(m, Dollars(s.cash), Price(t));
      PaysForOne(m, Dollars(s.cash), Price(t));
      hide WholeShares;
    }
  }

  lemma PaysForOne(m: int, cash: real, price: real)
    requires price > 0.0 && Covers(m, cash, price)
    ensures m >= 1 <==> price <= cash
  {
    if m >= 1 {
      ScaleMonotone(1.0, m as real, price);
    } else {
      ScaleMonotone((m + 1) as real, 1.0, price);
    }
  }

  // ---------- What is on record ----------

  /** What the trades brought in, less what they cost. */
  function Proceeds(trades: seq<TradeRow>): Money {
    if trades == [] then 0
    else
      var last := trades[|trades| - 1];
      Proceeds(trades[..|trades| - 1]) + if last.side == Buy then -last.value else last.value
  }

  /** What the trades bought, less what they sold. */
  function Bought(trades: seq<TradeRow>): real {
    if trades == [] then 0.0
    else
      var last := trades[|trades| - 1];
      Bought(trades[..|trades| - 1]) + if last.side == Buy then last.quantity else -last.quantity
  }

  /** The metric row written with snapshot i is about the values up to and including it. */
  ghost predicate MetricOf(s: Sim, i: nat, capital: Money)
    requires capital > 0 && i < |s.snapshots| == |s.metrics|
  {
    && s.metrics[i].profitLoss == s.snapshots[i].total - capital
    && NearTicks(s.metrics[i].totalReturn, Dollars(s.snapshots[i].total - capital) / Dollars(capital))
    && ((forall j :: 0 <= j <= i ==> s.snapshots[j].total >= 0) ==>
          WorstDrop(s.metrics[i].maxDrawdown, Totals(s.snapshots[..i + 1])))
  }

  /** The trades account for the cash and the position, and each is worth its quantity at its price. */
  ghost predicate Accounted(s: Sim, capital: Money) {
    && s.cash == capital + Proceeds(s.trades) && s.position == Bought(s.trades)
    && forall i :: 0 <= i < |s.trades| ==>
         s.trades[i].value == Worth(s.trades[i].quantity, Price(s.trades[i].price))
  }

  /** Every snapshot has its metric row; the last one counts the trades; no value is negative at prices that are not. */
  ghost predicate Measured(s: Sim, capital: Money)
    requires capital > 0
  {
    && |s.snapshots| == |s.metrics|
    && (forall i :: 0 <= i < |s.snapshots| ==> MetricOf(s, i, capital))
    && (forall i :: 0 <= i < |s.snapshots| && s.snapshots[i].price >= 0 ==> s.snapshots[i].total >= 0)
    && (s.metrics != [] ==> s.metrics[|s.metrics| - 1].trades == |s.trades|)
  }

  ghost predicate OnRecord(s: Sim, capital: Money)
    requires capital > 0
  {
    Accounted(s, capital) && Measured(s, capital)
  }

  /** A trade that moves cash and position by what it says. */
  lemma TradeAccounted(s: Sim, next: Sim, row: TradeRow, capital: Money)
    requires Accounted(s, capital) && next.trades == s.trades + [row]
    requires row.value == Worth(row.quantity, Price(row.price))
    requires next.cash == s.cash + if row.side == Buy then -row.value else row.value
    requires next.position == s.position + if row.side == Buy then row.quantity else -row.quantity
    ensures Accounted(next, capital)
  {
    hide Worth;
    hide Price;
    assert next.trades[..|s.trades|] == s.trades;
  }

  lemma TradesOnRecord(s: Sim, next: Sim, t: Ticks, capital: Money)
    requires Kept(s, next) || SoldAll(s, next, t) || (BoughtAll(s, next, t) && s.position == 0.0)
    requires Accounted(s, capital)
    ensures Accounted(next, capital)
  {
    hide Worth;
    hide Price;
    hide AllIn;
    if Kept(s, next) {
      SameAccounted(s, next, capital);
    } else {
      TradeAccounted(s, next, next.trades[|s.trades|], capital);
    }
    hide Accounted;
  }

  lemma SameAccounted(s: Sim, next: Sim, capital: Money)
    requires Kept(s, next) && Accounted(s, capital)
    ensures Accounted(next, capital)
  {
  }

  lemma ValueNonnegative(s: Sim, t: Ticks, capital: Money)
    requires Sound(s, capital) && s.snapshots != [] && s.mark == Some(t) && t >= 0
    ensures s.value >= 0
  {
    WorthMonotone(0.0, s.position, Price(t));
    WorthOfNothing(Price(t));
    hide Worth;
  }

  /** The snapshot and the metric row a step adds. */
  lemma RowsAppended(s: Sim, action: Action, t: Ticks, capital: Money)
    requires capital > 0 && |s.snapshots| == |s.metrics|
    ensures var next, n := Advance(s, action, t, capital), |s.snapshots|;
      && |next.snapshots| == |next.metrics| == n + 1
      && s.snapshots <= next.snapshots && s.metrics <= next.metrics
      && next.snapshots[n].total == next.value && next.snapshots[n].price == t
      && next.mark == Some(t) && next.metrics[n].trades == |next.trades|
      && MetricOf(next, n, capital)
  {
    var next, n := Advance(s, action, t, capital), |s.snapshots|;
    CalculatesExactly(capital, next.value, Totals(s.snapshots), |next.trades|);
    assert next.snapshots[..n + 1] == next.snapshots;
    assert Totals(next.snapshots) == Totals(s.snapshots) + [next.value];
    assert forall j :: 0 <= j < n ==> Totals(s.snapshots)[j] == next.snapshots[j].total;
    hide Execute;
    hide RiskCheck;
    hide Worth;
    hide WorstDrop;
    hide NearTicks;
    hide Calculate;
  }

  lemma OldMetrics(s: Sim, next: Sim, i: nat, capital: Money)
    requires capital > 0 && i < |s.snapshots| == |s.metrics| && MetricOf(s, i, capital)
    requires s.snapshots <= next.snapshots && s.metrics <= next.metrics && |next.snapshots| == |next.metrics|
    ensures MetricOf(next, i, capital) && next.snapshots[i] == s.snapshots[i]
  {
    assert next.snapshots[..i + 1] == s.snapshots[..i + 1];
    assert forall j :: 0 <= j <= i ==> next.snapshots[j] == s.snapshots[j];
    hide WorstDrop;
    hide NearTicks;
  }

  lemma MetricsOnRecord(s: Sim, action: Action, t: Ticks, capital: Money)
    requires capital > 0 && Measured(s, capital) && Sound(Advance(s, action, t, capital), capital)
    ensures Measured(Advance(s, action, t, capital), capital)
  {
    var next := Advance(s, action, t, capital);
    RowsAppended(s, action, t, capital);
    if t >= 0 {
      ValueNonnegative(next, t, capital);
    }
    hide Sound;
    hide Advance;
    hide MetricOf;
    OneMoreMeasured(s, next, capital);
    hide Measured;
  }

  lemma OneMoreMeasured(s: Sim, next: Sim, capital: Money)
    requires capital > 0 && Measured(s, capital) && |next.snapshots| == |next.metrics| == |s.snapshots| + 1
    requires s.snapshots <= next.snapshots && s.metrics <= next.metrics
    requires var n := |s.snapshots|;
      && MetricOf(next, n, capital) && next.metrics[n].trades == |next.trades|
      && (next.snapshots[n].price >= 0 ==> next.snapshots[n].total >= 0)
    ensures Measured(next, capital)
  {
    hide MetricOf;
    forall i | 0 <= i < |next.snapshots|
      ensures MetricOf(next, i, capital) && (next.snapshots[i].price >= 0 ==> next.snapshots[i].total >= 0)
    {
      if i < |s.snapshots| {
        OldMetrics(s, next, i, capital);
      }
    }
  }

  /** Every committed step keeps the records exact. */
  lemma StepOnRecord(s: Sim, action: Action, t: Ticks, capital: Money)
    requires capital > 0 && Sound(s, capital) && OnRecord(s, capital) && Step(s, action, t, capital).Some?
    requires action == Buy ==> s.position == 0.0
    ensures OnRecord(Step(s, action, t, capital).value, capital)
  {
    var next := Step(s, action, t, capital).value;
    StepTrades(s, action, t, capital);
    AdvanceSound(s, action, t, capital);
    hide Sound;
    hide Advance;
    hide Kept;
    hide SoldAll;
    hide BoughtAll;
    hide Accounted;
    hide Measured;
    hide Worth;
    TradesOnRecord(s, next, t, capital);
    MetricsOnRecord(s, action, t, capital);
  }

  // ---------- Steps and experiments ----------

  datatype StepStatus = StepRunning | StepCompleted | StepFailed

  datatype StepRow = StepRow(number: nat, stamp: int, status: StepStatus)

  datatype RunStatus = Active | Finished | RunFailed

  datatype World = World(sim: Sim, steps: seq<StepRow>, status: RunStatus)

  /** The largest number among the steps, 0 when there are none. */
  function MaxNumber(steps: seq<StepRow>): nat {
    if steps == [] then 0
    else
      var before, last := MaxNumber(steps[..|steps| - 1]), steps[|steps| - 1];
      if last.number > before then last.number else before
  }

  /** The steps are numbered 1, 2, 3 and so on. */
  ghost predicate Numbered(steps: seq<StepRow>) {
    forall k :: 0 <= k < |steps| ==> steps[k].number == k + 1
  }

  lemma {:induction false} MaxIsCount(steps: seq<StepRow>)
    requires Numbered(steps)
    ensures MaxNumber(steps) == |steps|
  {
    if steps != [] {
      MaxIsCount(steps[..|steps| - 1]);
    }
  }

  function NewWorld(capital: Money): World {
    World(NewSim(capital), [], Active)
  }

  /** One bar: a step is created, run, and left COMPLETED, or left FAILED with the experiment. */
  function ProcessBar(w: World, stamp: int, t: Ticks, signal: Signal, capital: Money): World
    requires capital > 0
  {
    var number := |w.steps| + 1;
    match Step(w.sim, Decide(signal, w.sim.position), t, capital)
    case Some(next) => World(next, w.steps + [StepRow(number, stamp, StepCompleted)], w.status)
    case None => World(w.sim, w.steps + [StepRow(number, stamp, StepFailed)], RunFailed)
  }

  ghost predicate SoundWorld(w: World, capital: Money) {
    && Sound(w.sim, capital)
    && Numbered(w.steps)
    && forall k :: 0 <= k < |w.steps| ==> w.steps[k].status != StepRunning
  }

  lemma ProcessBarSound(w: World, stamp: int, t: Ticks, signal: Signal, capital: Money)
    requires capital > 0 && SoundWorld(w, capital)
    ensures SoundWorld(ProcessBar(w, stamp, t, signal, capital), capital)
  {
    var action := Decide(signal, w.sim.position);
    BuysOnlyWhenFlat(signal, w.sim.position);
    if Step(w.sim, action, t, capital).Some? {
      AdvanceSound(w.sim, action, t, capital);
    }
  }

  /** So does every bar, a failing one included. */
  lemma ProcessBarOnRecord(w: World, stamp: int, t: Ticks, signal: Signal, capital: Money)
    requires capital > 0 && SoundWorld(w, capital) && OnRecord(w.sim, capital)
    ensures OnRecord(ProcessBar(w, stamp, t, signal, capital).sim, capital)
  {
    var action := Decide(signal, w.sim.position);
    BuysOnlyWhenFlat(signal, w.sim.position);
    if Step(w.sim, action, t, capital).Some? {
      StepOnRecord(w.sim, action, t, capital);
    }
    hide OnRecord;
    hide Step;
    hide Decide;
  }

  lemma NewOnRecord(capital: Money)
    requires capital > 0
    ensures OnRecord(NewWorld(capital).sim, capital)
  {
  }

  lemma NewWorldSound(capital: Money)
    requires 0 <= capital && Fits19(capital)
    ensures SoundWorld(NewWorld(capital), capital)
  {
  }

  class Experiment {
    const capital: Money
    var cash: Money
    var position: real
    var mark: Option<Ticks>
    var positionValue: Money
    var value: Money
    var trades: seq<TradeRow>
    var snapshots: seq<Snapshot>
    var metrics: seq<MetricRow>
    var steps: seq<StepRow>
    var status: RunStatus

    ghost function Rows(): Sim
      reads this
    {
      Sim(cash, position, mark, positionValue, value, trades, snapshots, metrics)
    }

    ghost function Contents(): World
      reads this
    {
      World(Rows(), steps, status)
    }

    constructor (initialCapital: Money)
      ensures capital == initialCapital && Contents() == NewWorld(initialCapital)
    {
      capital := initialCapital;
      cash, position, mark, positionValue, value := initialCapital, 0.0, None, 0, initialCapital;
      trades, snapshots, metrics, steps, status := [], [], [], [], Active;
    }

    method MaxSequenceNumber() returns (number: nat)
      ensures number == MaxNumber(steps)
    {
      number := 0;
      for k := 0 to |steps|
        invariant number == MaxNumber(steps[..k])
      {
        assert steps[..k + 1][..k] == steps[..k];
        if steps[k].number > number {
          number := steps[k].number;
        }
      }
      assert steps[..|steps|] == steps;
    }

    /** The new step takes a number no step has, above all of them, and the numbers stay 1, 2, 3 and so on. */
    method CreateRunningStep(stamp: int) returns (number: nat)
      requires Numbered(steps)
      modifies this`steps
      ensures steps == old(steps) + [StepRow(number, stamp, StepRunning)]
      ensures forall row :: row in old(steps) ==> row.number < number
      ensures number == |steps| && Numbered(steps)
    {
      var last := MaxSequenceNumber();
      MaxIsCount(steps);
      number := last + 1;
      steps := steps + [StepRow(number, stamp, StepRunning)];
    }

    method ExecuteIfApplicable(risk: RiskResult, t: Ticks)
      modifies this`cash, this`position
      ensures Rows() == Executed(old(Rows()), risk, t)
    {
      if risk.action == Hold || risk.quantity.None? {
        return;
      }
      var orderValue := Worth(risk.quantity.value, Price(t));
      if risk.action == Buy {
        cash := cash - orderValue;
        position := position + risk.quantity.value;
      } else {
        cash := cash + orderValue;
        position := 0.0;
      }
    }

    method MarkToMarket(t: Ticks)
      modifies this`mark, this`positionValue, this`value
      ensures Rows() == Revalued(old(Rows()), t)
    {
      mark := Some(t);
      positionValue := Worth(position, Price(t));
      value := cash + positionValue;
    }

    method Record(risk: RiskResult, t: Ticks)
      requires capital > 0
      modifies this`trades, this`snapshots, this`metrics
      ensures Rows() == Recorded(old(Rows()), risk, t, capital)
    {
      var previous := Totals(snapshots);
      trades := WithTrade(trades, risk, t, value);
      snapshots := snapshots + [Snapshot(cash, position, positionValue, value, t)];
      var drawdown := MaxDrawdown(previous + [value]);
      var profitLoss := value - capital;
      var totalReturn := ToTick8(Div(Dollars(profitLoss), Dollars(capital)));
      metrics := metrics + [MetricRow(totalReturn, profitLoss, |trades|, drawdown)];
    }

    /** The step's transaction; when a value does not fit its column everything is rolled back. */
    method RunStep(t: Ticks, signal: Signal) returns (ok: bool)
      requires capital > 0
      modifies this`cash, this`position, this`mark, this`positionValue, this`value
      modifies this`trades, this`snapshots, this`metrics
      ensures var next := Step(old(Rows()), Decide(signal, old(position)), t, capital);
        ok == next.Some? && Rows() == if ok then next.value else old(Rows())
    {
      var cash0, position0, mark0, positionValue0, value0 := cash, position, mark, positionValue, value;
      var trades0, snapshots0, metrics0 := trades, snapshots, metrics;
      var risk := Evaluate(Decide(signal, position), Holdings(cash, Some(position), Some(value)), Price(t));
      ExecuteIfApplicable(risk, t);
      MarkToMarket(t);
      Record(risk, t);
      assert Rows() == Advance(old(Rows()), Decide(signal, old(position)), t, capital);
      ok := Fits19(cash) && Fits19(positionValue) && Fits19(value) && Fits19(t)
        && -100000000000.0 < position < 100000000000.0
        && Fits19(metrics[|metrics| - 1].totalReturn);
      if !ok {
        cash, position, mark, positionValue, value := cash0, position0, mark0, positionValue0, value0;
        trades, snapshots, metrics := trades0, snapshots0, metrics0;
      }
    }

    /** Creates and runs a step for one bar; a failure marks the step and the experiment FAILED. */
    method RunBar(stamp: int, t: Ticks, signal: Signal) returns (ok: bool)
      requires capital > 0 && Numbered(steps)
      modifies this
      ensures Contents() == ProcessBar(old(Contents()), stamp, t, signal, capital)
      ensures ok == Step(old(Rows()), Decide(signal, old(position)), t, capital).Some?
      ensures status == if ok then old(status) else RunFailed
      ensures Numbered(steps)
    {
      hide Step;
      hide Decide;
      hide Sound;
      var number := CreateRunningStep(stamp);
      ok := RunStep(t, signal);
      var last := |steps| - 1;
      steps := steps[last := steps[last].(status := if ok then StepCompleted else StepFailed)];
      if !ok {
        status := RunFailed;
      }
    }
  }
}
