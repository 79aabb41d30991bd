/** Buy-and-Hold and Moving Average over daily bars: the full run and manual stepping. */
module Historical {
  import opened Common
  import opened Decimals
  import opened Risk
  import opened Strategies
  import opened Simulation

  datatype Bar = Bar(date: int, close: Ticks)

  datatype Plan = HoldPlan | AveragePlan(window: nat)

  function Closes(bars: seq<Bar>): seq<Ticks> {
    seq(|bars|, i requires 0 <= i < |bars| => bars[i].close)
  }

  function SignalFor(plan: Plan, prices: seq<Ticks>, close: Ticks): Signal {
    match plan
    case HoldPlan => BuyAndHold
    case AveragePlan(window) => MovingAverage(close, Average(prices, Window(Some(window))))
  }

  // ---------- The full run ----------

  /** The rows after the first k bars; a failed run stays where it failed. */
  function FullRun(plan: Plan, w: World, bars: seq<Bar>, k: nat, capital: Money): World
    requires capital > 0 && k <= |bars|
  {
    if k == 0 then w
    else
      var before, bar := FullRun(plan, w, bars, k - 1, capital), bars[k - 1];
      if before.status != Active then before
      else ProcessBar(before, bar.date, bar.close, SignalFor(plan, Closes(bars[..k]), bar.close), capital)
  }

  function Complete(w: World): World {
    if w.status == Active then w.(status := Finished) else w
  }

  /** The orchestrator: one pass, growing the price list bar by bar. */
  method RunAll(e: Experiment, plan: Plan, bars: seq<Bar>)
    requires e.capital > 0 && e.status == Active && Numbered(e.steps)
    modifies e
    ensures e.Contents() == Complete(FullRun(plan, old(e.Contents()), bars, |bars|, e.capital))
  {
    hide ProcessBar;
    hide SignalFor;
    var prices: seq<Ticks> := [];
    for k := 0 to |bars|
      invariant prices == Closes(bars[..k]) && e.status == Active && Numbered(e.steps)
      invariant e.Contents() == FullRun(plan, old(e.Contents()), bars, k, e.capital)
    {
      prices := prices + [bars[k].close];
      assert prices == Closes(bars[..k + 1]);
      var ok := e.RunBar(bars[k].date, bars[k].close, SignalFor(plan, prices, bars[k].close));
      if !ok {
        FailedRunStays(plan, old(e.Contents()), bars, k + 1, |bars|, e.capital);
        return;
      }
    }
    e.status := Finished;
  }

  lemma {:induction false} FailedRunStays(plan: Plan, w: World, bars: seq<Bar>, k: nat, n: nat, capital: Money)
    requires capital > 0 && k <= n <= |bars| && FullRun(plan, w, bars, k, capital).status != Active
    ensures FullRun(plan, w, bars, n, capital) == FullRun(plan, w, bars, k, capital)
  {
    if k < n {
      FailedRunStays(plan, w, bars, k, n - 1, capital);
    }
  }

  // ---------- Manual stepping ----------

  /** The closes up to and including the first bar of a date. */
  function ThroughDate(bars: seq<Bar>, date: int): seq<Ticks> {
    if bars == [] then []
    else if bars[0].date == date then [bars[0].close]
    else [bars[0].close] + ThroughDate(bars[1..], date)
  }

  method PricesThroughBar(bars: seq<Bar>, date: int) returns (prices: seq<Ticks>)
    ensures prices == ThroughDate(bars, date)
  {
    prices := [];
    for k := 0 to |bars|
      invariant ThroughDate(bars, date) == prices + ThroughDate(bars[k..], date)
    {
      prices := prices + [bars[k].close];
      if bars[k].date == date {
        return;
      }
      assert bars[k..][1..] == bars[k + 1..];
    }
  }

  predicate StepInProgress(steps: seq<StepRow>) {
    exists k :: 0 <= k < |steps| && steps[k].status == StepRunning
  }

  /** One manual step: the next bar is chosen by the number of steps, the prices are recomputed by date. */
  function Manual(plan: Plan, w: World, bars: seq<Bar>, capital: Money): World
    requires capital > 0
  {
    if w.status != Active || StepInProgress(w.steps) then w
    else if |w.steps| >= |bars| then w.(status := Finished)
    else
      var bar := bars[|w.steps|];
      var next := ProcessBar(w, bar.date, bar.close, SignalFor(plan, ThroughDate(bars, bar.date), bar.close), capital);
      if next.status == Active && |next.steps| >= |bars| then next.(status := Finished) else next
  }

  datatype Outcome = InvalidStatus | AlreadyRunning | NoRemainingBars | StepDone | StepFailure

  /** One call; `lockFree` says whether the advisory lock was acquired. */
  method RunNextStep(e: Experiment, plan: Plan, bars: seq<Bar>, lockFree: bool) returns (outcome: Outcome)
    requires e.capital > 0 && Numbered(e.steps)
    modifies e
    ensures e.Contents() == if lockFree then Manual(plan, old(e.Contents()), bars, e.capital) else old(e.Contents())
    ensures Numbered(e.steps)
    ensures outcome == InvalidStatus <==> old(e.status) != Active
    ensures outcome == AlreadyRunning <==> old(e.status) == Active && (!lockFree || StepInProgress(old(e.steps)))
    ensures outcome == NoRemainingBars <==>
      old(e.status) == Active && lockFree && !StepInProgress(old(e.steps)) && |old(e.steps)| >= |bars|
    ensures outcome == StepFailure <==> old(e.status) == Active && e.status == RunFailed
  {
    if e.status != Active {
      return InvalidStatus;
    }
    if !lockFree {
      return AlreadyRunning;
    }
    var running := HasRunningStep(e.steps);
    if running {
      return AlreadyRunning;
    }
    var next := e.MaxSequenceNumber();
    MaxIsCount(e.steps);
    if next >= |bars| {
      e.status := Finished;
      return NoRemainingBars;
    }
    var bar := bars[next];
    var prices := PricesThroughBar(bars, bar.date);
    var ok := e.RunBar(bar.date, bar.close, SignalFor(plan, prices, bar.close));
    if !ok {
      return StepFailure;
    }
    if next + 1 >= |bars| {
      e.status := Finished;
    }
    outcome := StepDone;
  }

  method HasRunningStep(steps: seq<StepRow>) returns (running: bool)
    ensures running == StepInProgress(steps)
  {
    for k := 0 to |steps|
      invariant forall i :: 0 <= i < k ==> steps[i].status != StepRunning
    {
      if steps[k].status == StepRunning {
        return true;
      }
    }
    running := false;
  }

  function ManualRun(plan: Plan, w: World, bars: seq<Bar>, k: nat, capital: Money): World
    requires capital > 0
  {
    if k == 0 then w else Manual(plan, ManualRun(plan, w, bars, k - 1, capital), bars, capital)
  }

  // ---------- Refinement ----------

  /** Recomputing the prices by date gives the prefix exactly when no earlier bar has the same date. */
  lemma {:induction false} PrefixByDate(bars: seq<Bar>, k: nat)
    requires k < |bars|
    ensures ThroughDate(bars, bars[k].date) == Closes(bars[..k + 1]) <==>
      forall j :: 0 <= j < k ==> bars[j].date != bars[k].date
  {
    var prefix := ThroughDate(bars, bars[k].date);
    if k == 0 {
      assert prefix == Closes(bars[..1]);
    } else if bars[0].date == bars[k].date {
      assert |prefix| == 1 && |Closes(bars[..k + 1])| == k + 1;
    } else {
      var rest := bars[1..];
      PrefixByDate(rest, k - 1);
      assert Closes(bars[..k + 1]) == [bars[0].close] + Closes(rest[..k]);
      assert prefix == [bars[0].close] + ThroughDate(rest, rest[k - 1].date);
      assert prefix == Closes(bars[..k + 1]) <==> ThroughDate(rest, rest[k - 1].date) == Closes(rest[..k]) by {
        if prefix == Closes(bars[..k + 1]) {
          assert prefix[1..] == ThroughDate(rest, rest[k - 1].date) && Closes(bars[..k + 1])[1..] == Closes(rest[..k]);
        }
      }
      forall j | 1 <= j < k ensures bars[j] == rest[j - 1] {}
    }
  }

  /** With a repeated date it does not, and the strategy holds where the full run buys. */
  lemma RepeatedDateHolds(date: int)
    ensures var bars, plan := [Bar(date, 1000000000), Bar(date, 2000000000)], AveragePlan(2);
      && ThroughDate(bars, bars[1].date) == [1000000000] && Closes(bars[..2]) == [1000000000, 2000000000]
      && Strategies.Decide(SignalFor(plan, ThroughDate(bars, bars[1].date), bars[1].close), 0.0) == Hold
      && Strategies.Decide(SignalFor(plan, Closes(bars[..2]), bars[1].close), 0.0) == Buy
  {
    var prices := [1000000000, 2000000000];
    assert [Bar(date, 1000000000), Bar(date, 2000000000)][..2] == [Bar(date, 1000000000), Bar(date, 2000000000)];
    assert Closes([Bar(date, 1000000000), Bar(date, 2000000000)]) == prices;
    assert prices[|prices| - 2..] == prices && prices[..1] == [1000000000] && [1000000000][..0] == [];
    assert Sum(prices) == 3000000000;
    Pow10Constants();
    SigExact(15.0, 0, 15);
    hide Sig28;
    assert Average(prices, 2) == Some(ToTick8(15.0));
  }

  ghost predicate DistinctDates(bars: seq<Bar>) {
    forall i, j :: 0 <= i < j < |bars| ==> bars[i].date != bars[j].date
  }

  lemma {:induction false} StepsCount(plan: Plan, bars: seq<Bar>, k: nat, capital: Money)
    requires capital > 0 && k <= |bars|
    ensures var w := FullRun(plan, NewWorld(capital), bars, k, capital);
      && w.status != Finished && (w.status == Active ==> |w.steps| == k)
      && !StepInProgress(w.steps)
  {
    hide ProcessBar;
    hide SignalFor;
    if k > 0 {
      StepsCount(plan, bars, k - 1, capital);
      StatusKept(FullRun(plan, NewWorld(capital), bars, k - 1, capital), bars[k - 1],
        SignalFor(plan, Closes(bars[..k]), bars[k - 1].close), capital);
    }
  }

  /** The full run after k bars, or, once the bars are used up by a step, the finished full run. */
  function AfterCalls(plan: Plan, bars: seq<Bar>, k: nat, capital: Money): World
    requires capital > 0
  {
    if k == 0 then NewWorld(capital)
    else if k < |bars| then FullRun(plan, NewWorld(capital), bars, k, capital)
    else Complete(FullRun(plan, NewWorld(capital), bars, |bars|, capital))
  }

  /**
    Manual stepping refines the full run.  On a fresh experiment, k manual steps leave
    exactly the rows the full run has after k bars, until the bars are used up; the step
    that uses them up (or the first call, when there are none) leaves exactly the rows and
    the status of the finished full run, and later calls change nothing.
  */
  lemma {:induction false} ManualRefinesFull(plan: Plan, bars: seq<Bar>, k: nat, capital: Money)
    requires capital > 0 && (plan.HoldPlan? || DistinctDates(bars))
    ensures ManualRun(plan, NewWorld(capital), bars, k, capital) == AfterCalls(plan, bars, k, capital)
  {
    hide ProcessBar;
    hide SignalFor;
    if k > 0 {
      ManualRefinesFull(plan, bars, k - 1, capital);
      if k <= |bars| {
        StepsCount(plan, bars, k - 1, capital);
        hide FullRun;
        PrefixByDate(bars, k - 1);
        OneManualStep(plan, bars, k, capital);
      } else {
        CallsAfterTheEnd(plan, bars, k, capital);
      }
    }
  }

  lemma CallsAfterTheEnd(plan: Plan, bars: seq<Bar>, k: nat, capital: Money)
    requires capital > 0 && k > |bars|
    ensures Manual(plan, AfterCalls(plan, bars, k - 1, capital), bars, capital) == AfterCalls(plan, bars, k, capital)
  {
  }

  /** Ends the run when its last bar is used up. */
  function CompleteIf(w: World, last: bool): World {
    if last then Complete(w) else w
  }

  lemma OneManualStep(plan: Plan, bars: seq<Bar>, k: nat, capital: Money)
    requires capital > 0 && 0 < k <= |bars|
    requires plan.HoldPlan? || ThroughDate(bars, bars[k - 1].date) == Closes(bars[..k])
    requires var w := FullRun(plan, NewWorld(capital), bars, k - 1, capital);
      w.status != Finished && (w.status == Active ==> |w.steps| == k - 1) && !StepInProgress(w.steps)
    ensures Manual(plan, AfterCalls(plan, bars, k - 1, capital), bars, capital) == AfterCalls(plan, bars, k, capital)
  {
    var w := FullRun(plan, NewWorld(capital), bars, k - 1, capital);
    assert AfterCalls(plan, bars, k - 1, capital) == w;
    hide ProcessBar;
    hide SignalFor;
    assert AfterCalls(plan, bars, k, capital)
        == CompleteIf(FullRun(plan, NewWorld(capital), bars, k, capital), k == |bars|);
    if w.status == Active {
      ManualProcesses(plan, w, bars, k, capital);
      hide Manual;
    }
  }

  lemma ManualProcesses(plan: Plan, w: World, bars: seq<Bar>, k: nat, capital: Money)
    requires capital > 0 && 0 < k <= |bars| && w.status == Active && |w.steps| == k - 1 && !StepInProgress(w.steps)
    requires plan.HoldPlan? || ThroughDate(bars, bars[k - 1].date) == Closes(bars[..k])
    ensures var bar := bars[k - 1];
      Manual(plan, w, bars, capital)
      == CompleteIf(
           ProcessBar(w, bar.date, bar.close, SignalFor(plan, Closes(bars[..k]), bar.close), capital), k == |bars|)
  {
    SameSignal(plan, ThroughDate(bars, bars[k - 1].date), Closes(bars[..k]), bars[k - 1].close);
    hide SignalFor;
    hide ThroughDate;
    StatusKept(w, bars[k - 1], SignalFor(plan, Closes(bars[..k]), bars[k - 1].close), capital);
    hide ProcessBar;
    hide StepInProgress;
  }

  lemma SameSignal(plan: Plan, recomputed: seq<Ticks>, grown: seq<Ticks>, close: Ticks)
    requires plan.HoldPlan? || recomputed == grown
    ensures SignalFor(plan, recomputed, close) == SignalFor(plan, grown, close)
  {
  }

  lemma StatusKept(w: World, bar: Bar, signal: Signal, capital: Money)
    requires capital > 0
    ensures var next := ProcessBar(w, bar.date, bar.close, signal, capital);
      && |next.steps| == |w.steps| + 1 && (next.status == w.status || next.status == RunFailed)
      && (!StepInProgress(w.steps) ==> !StepInProgress(next.steps))
  {
    hide Simulation.Step;
    hide Strategies.Decide;
  }

  // ---------- Solvency and profit ----------

  lemma {:induction false} FullRunSound(plan: Plan, w: World, bars: seq<Bar>, k: nat, capital: Money)
    requires capital > 0 && k <= |bars| && SoundWorld(w, capital)
    ensures SoundWorld(FullRun(plan, w, bars, k, capital), capital)
  {
    if k > 0 {
      FullRunSound(plan, w, bars, k - 1, capital);
      var before, bar := FullRun(plan, w, bars, k - 1, capital), bars[k - 1];
      ProcessBarSound(before, bar.date, bar.close, SignalFor(plan, Closes(bars[..k]), bar.close), capital);
    }
  }

  /**
    Over any bar list the run stays solvent, holds whole shares, and its recorded profit is
    exactly the sum over the bars of the rounded change in value of the position held into
    each of them: trading itself neither makes nor loses a tick.
  */
  lemma HistoricalRunSound(plan: Plan, bars: seq<Bar>, capital: Money)
    requires 0 < capital && Fits19(capital)
    ensures var s := FullRun(plan, NewWorld(capital), bars, |bars|, capital).sim;
      && s.cash >= 0 && s.position >= 0.0 && Whole(s.position)
      && s.value == capital + Gains(s.snapshots)
      && (s.metrics != [] ==> s.metrics[|s.metrics| - 1].profitLoss == Gains(s.snapshots))
  {
    NewWorldSound(capital);
    FullRunSound(plan, NewWorld(capital), bars, |bars|, capital);
  }

  /** The steps of a run: one for each bar in order, all COMPLETED but the one a run failed at. */
  ghost predicate StepsOf(w: World, bars: seq<Bar>, k: nat) {
    && |w.steps| <= k <= |bars|
    && (w.status == Active ==> |w.steps| == k)
    && (w.status != Active ==> w.status == RunFailed && w.steps != [])
    && forall i :: 0 <= i < |w.steps| ==>
         w.steps[i] == StepRow(i + 1, bars[i].date,
           if w.status == Active || i + 1 < |w.steps| then StepCompleted else StepFailed)
  }

  lemma BarStep(w: World, bars: seq<Bar>, k: nat, signal: Signal, capital: Money)
    requires capital > 0 && k < |bars| && StepsOf(w, bars, k) && w.status == Active
    ensures StepsOf(ProcessBar(w, bars[k].date, bars[k].close, signal, capital), bars, k + 1)
  {
    hide Simulation.Step;
    hide Strategies.Decide;
  }

  lemma {:induction false} FullRunSteps(plan: Plan, bars: seq<Bar>, k: nat, capital: Money)
    requires capital > 0 && k <= |bars|
    ensures StepsOf(FullRun(plan, NewWorld(capital), bars, k, capital), bars, k)
  {
    if k > 0 {
      FullRunSteps(plan, bars, k - 1, capital);
      var before := FullRun(plan, NewWorld(capital), bars, k - 1, capital);
      if before.status == Active {
        BarStep(before, bars, k - 1, SignalFor(plan, Closes(bars[..k]), bars[k - 1].close), capital);
      }
      hide ProcessBar;
    }
  }

  /** At every point of a run the trades account for cash and position, and the metrics for the snapshots. */
  lemma {:induction false} FullRunOnRecord(plan: Plan, bars: seq<Bar>, k: nat, capital: Money)
    requires 0 < capital && Fits19(capital) && k <= |bars|
    ensures OnRecord(FullRun(plan, NewWorld(capital), bars, k, capital).sim, capital)
  {
    hide OnRecord;
    if k == 0 {
      NewOnRecord(capital);
    } else {
      FullRunOnRecord(plan, bars, k - 1, capital);
      NewWorldSound(capital);
      FullRunSound(plan, NewWorld(capital), bars, k - 1, capital);
      var before, bar := FullRun(plan, NewWorld(capital), bars, k - 1, capital), bars[k - 1];
      hide SoundWorld;
      hide ProcessBar;
      ProcessBarOnRecord(before, bar.date, bar.close, SignalFor(plan, Closes(bars[..k]), bar.close), capital);
    }
  }

  /** A bar on which a BUY is executed leaves less cash than a share's price plus half a tick. */
  lemma BuyLeavesLessThanAShare(plan: Plan, bars: seq<Bar>, k: nat, capital: Money)
    requires 0 < capital && Fits19(capital) && k < |bars|
    requires FullRun(plan, NewWorld(capital), bars, k, capital).status == Active
    requires FullRun(plan, NewWorld(capital), bars, k + 1, capital).status == Active
    ensures var s := FullRun(plan, NewWorld(capital), bars, k, capital).sim;
      var t := FullRun(plan, NewWorld(capital), bars, k + 1, capital).sim;
      t.position > s.position ==> 0.0 <= Dollars(t.cash) < Price(bars[k].close) + 0.00005
  {
    NewWorldSound(capital);
    FullRunSound(plan, NewWorld(capital), bars, k, capital);
    var w := FullRun(plan, NewWorld(capital), bars, k, capital);
    var signal := SignalFor(plan, Closes(bars[..k + 1]), bars[k].close);
    StepLeavesLess(w.sim, signal, bars[k].close, capital);
  }

  lemma StepLeavesLess(s: Sim, signal: Signal, t: Ticks, capital: Money)
    requires capital > 0 && Sound(s, capital) && Step(s, Strategies.Decide(signal, s.position), t, capital).Some?
    ensures var next := Step(s, Strategies.Decide(signal, s.position), t, capital).value;
      next.position > s.position ==> 0.0 <= Dollars(next.cash) < Price(t) + 0.00005
  {
    var action := Strategies.Decide(signal, s.position);
    if RiskCheck(s, action, t).action == Buy {
      BuyIsAffordable(s, t);
    }
  }

  // ---------- What Moving Average does ----------

  /** The mean of the closes, in units of 1e-8 and to within its two roundings. */
  predicate MeanOf(mean: Ticks, closes: seq<Ticks>) {
    closes != [] && NearTicks(mean, Price(Sum(closes)) / |closes| as real)
  }

  /**
    What every bar of a Moving Average run trades.  Before the window is full, nothing.  From
    then on, everything held is sold at a close below the mean of the window's closes, and all
    that cash pays for is bought at a close above it when nothing is held; otherwise nothing.
  */
  lemma AverageRunTrades(bars: seq<Bar>, window: nat, k: nat, capital: Money) returns (mean: Ticks)
    requires 0 < capital && Fits19(capital) && k < |bars|
    requires FullRun(AveragePlan(window), NewWorld(capital), bars, k, capital).status == Active
    requires FullRun(AveragePlan(window), NewWorld(capital), bars, k + 1, capital).status == Active
    ensures var n := if window == 0 then 200 else window;
      var s := FullRun(AveragePlan(window), NewWorld(capital), bars, k, capital).sim;
      var next := FullRun(AveragePlan(window), NewWorld(capital), bars, k + 1, capital).sim;
      var close := bars[k].close;
      if k + 1 < n then Kept(s, next)
      else
        && MeanOf(mean, Closes(bars[k + 1 - n..k + 1]))
        && if s.position > 0.0 then (if 0 < close < mean then SoldAll(s, next, close) else Kept(s, next))
           else if close > mean && close > 0 && Price(close) <= Dollars(s.cash) then BoughtAll(s, next, close)
           else Kept(s, next)
  {
    hide *;
    var n := if window == 0 then 200 else window;
    var prices := Closes(bars[..k + 1]);
    var s := LastAverageStep(bars, window, k, capital);
    var next := FullRun(AveragePlan(window), NewWorld(capital), bars, k + 1, capital).sim;
    AverageStepTrades(s, next, Average(prices, n), bars[k].close, capital);
    mean := Average(prices, n).GetOr(0);
    WindowMean(bars, n, k);
    ValueOf(Average(prices, n));
  }

  lemma ValueOf(average: Option<Ticks>)
    ensures average.Some? ==> average.GetOr(0) == average.value
  {
  }

  lemma WindowMean(bars: seq<Bar>, n: nat, k: nat)
    requires 0 < n && k < |bars|
    ensures Average(Closes(bars[..k + 1]), n).Some? <==> k + 1 >= n
    ensures k + 1 >= n ==> MeanOf(Average(Closes(bars[..k + 1]), n).value, Closes(bars[k + 1 - n..k + 1]))
  {
    var prices := Closes(bars[..k + 1]);
    AverageIsMean(prices, n);
    if k + 1 >= n {
      assert prices[|prices| - n..] == Closes(bars[k + 1 - n..k + 1]);
    }
    hide Average;
    hide NearTicks;
  }

  lemma AverageStepTrades(s: Sim, next: Sim, average: Option<Ticks>, close: Ticks, capital: Money)
    requires capital > 0 && Sound(s, capital)
    requires Step(s, Strategies.Decide(MovingAverage(close, average), s.position), close, capital) == Some(next)
    ensures if average.None? then Kept(s, next)
      else if s.position > 0.0 then (if 0 < close < average.value then SoldAll(s, next, close) else Kept(s, next))
      else if close > average.value && close > 0 && Price(close) <= Dollars(s.cash) then BoughtAll(s, next, close)
      else Kept(s, next)
  {
    AverageDecides(close, average, s.position);
    StepTrades(s, Strategies.Decide(MovingAverage(close, average), s.position), close, capital);
    hide Kept;
    hide SoldAll;
    hide BoughtAll;
    hide Simulation.Step;
    hide Price;
    hide Strategies.Decide;
  }

  lemma LastAverageStep(bars: seq<Bar>, window: nat, k: nat, capital: Money) returns (s: Sim)
    requires 0 < capital && Fits19(capital) && k < |bars|
    requires FullRun(AveragePlan(window), NewWorld(capital), bars, k, capital).status == Active
    requires FullRun(AveragePlan(window), NewWorld(capital), bars, k + 1, capital).status == Active
    ensures s == FullRun(AveragePlan(window), NewWorld(capital), bars, k, capital).sim && Sound(s, capital)
    ensures var average := Average(Closes(bars[..k + 1]), if window == 0 then 200 else window);
      Step(s, Strategies.Decide(MovingAverage(bars[k].close, average), s.position), bars[k].close, capital)
      == Some(FullRun(AveragePlan(window), NewWorld(capital), bars, k + 1, capital).sim)
  {
    NewWorldSound(capital);
    FullRunSound(AveragePlan(window), NewWorld(capital), bars, k, capital);
    s := FullRun(AveragePlan(window), NewWorld(capital), bars, k, capital).sim;
    hide Strategies.Decide;
    hide Average;
    hide Simulation.Step;
  }

  // ---------- What Buy-and-Hold does ----------

  predicate Affordable(bar: Bar, cash: Money) {
    bar.close > 0 && Price(bar.close) <= Dollars(cash)
  }

  /** A BUY from flat is executed exactly when a whole share is affordable. */
  lemma FirstBuy(s: Sim, t: Ticks, capital: Money)
    requires capital > 0 && Sound(s, capital) && s.position == 0.0 && Step(s, Buy, t, capital).Some?
    ensures var next, n := Step(s, Buy, t, capital).value, |s.trades|;
      if t > 0 && Price(t) <= Dollars(s.cash) then
        && next.position > 0.0 && |next.trades| == n + 1 && next.trades[..n] == s.trades
        && next.trades[n].side == Buy && next.trades[n].price == t && next.trades[n].quantity == next.position
      else next.trades == s.trades && next.position == 0.0 && next.cash == s.cash
  {
    if t > 0 {
      BuySizing(Holdings(s.cash, Some(s.position), Some(s.value)), Price(t), t);
      AllInAffordable(RiskCheck(s, Buy, t), s.cash, Price(t));
    }
  }

  lemma AllInAffordable(r: RiskResult, cash: Money, price: real)
    requires price > 0.0
    ensures r.quantity.Some? && AllIn(r.quantity.value, Dollars(cash), price) ==> price <= Dollars(cash)
  {
    if r.quantity.Some? && AllIn(r.quantity.value, Dollars(cash), price) {
      ScaleMonotone(1.0, r.quantity.value, price);
    }
  }

  /** Bar j is the first of the bars at which a share is affordable. */
  ghost predicate FirstAffordable(bars: seq<Bar>, j: int, capital: Money) {
    0 <= j < |bars| && Affordable(bars[j], capital) && forall i :: 0 <= i < j ==> !Affordable(bars[i], capital)
  }

  /** Bought once, at the first bar a share was affordable, and held since; or nothing yet. */
  ghost predicate BoughtOnce(s: Sim, bars: seq<Bar>, capital: Money) {
    if s.trades == [] then
      s.position == 0.0 && s.cash == capital && forall i :: 0 <= i < |bars| ==> !Affordable(bars[i], capital)
    else
      && |s.trades| == 1 && s.trades[0].side == Buy && s.position == s.trades[0].quantity > 0.0
      && exists j :: FirstAffordable(bars, j, capital) && s.trades[0].price == bars[j].close
  }

  lemma HoldStep(s: Sim, bars: seq<Bar>, bar: Bar, capital: Money)
    requires capital > 0 && Sound(s, capital) && BoughtOnce(s, bars, capital)
    requires Step(s, Strategies.Decide(BuyAndHold, s.position), bar.close, capital).Some?
    ensures var next := Step(s, Strategies.Decide(BuyAndHold, s.position), bar.close, capital).value;
      BoughtOnce(next, bars + [bar], capital)
  {
    var k, all := |bars|, bars + [bar];
    var next := Step(s, Strategies.Decide(BuyAndHold, s.position), bar.close, capital).value;
    if s.trades == [] {
      FirstBuy(s, bar.close, capital);
      assert Affordable(all[k], capital) ==> FirstAffordable(all, k, capital);
    } else {
      var j :| FirstAffordable(bars, j, capital) && s.trades[0].price == bars[j].close;
      assert FirstAffordable(all, j, capital);
      assert next.trades == s.trades && next.position == s.position;
    }
  }

  /** Buy-and-Hold buys exactly once, at the first bar whose price the capital covers, and never sells. */
  lemma {:induction false} HoldBuysOnce(bars: seq<Bar>, k: nat, capital: Money)
    requires 0 < capital && Fits19(capital) && k <= |bars|
    requires FullRun(HoldPlan, NewWorld(capital), bars, k, capital).status == Active
    ensures BoughtOnce(FullRun(HoldPlan, NewWorld(capital), bars, k, capital).sim, bars[..k], capital)
  {
    hide *;
    if k == 0 {
      NothingBoughtYet(bars, capital);
    } else {
      var s, next := LastHoldStep(bars, k, capital);
      HoldBuysOnce(bars, k - 1, capital);
      HoldStep(s, bars[..k - 1], bars[k - 1], capital);
      assert bars[..k] == bars[..k - 1] + [bars[k - 1]];
    }
  }

  lemma NothingBoughtYet(bars: seq<Bar>, capital: Money)
    requires capital > 0
    ensures BoughtOnce(FullRun(HoldPlan, NewWorld(capital), bars, 0, capital).sim, bars[..0], capital)
  {
  }

  lemma LastHoldStep(bars: seq<Bar>, k: nat, capital: Money) returns (s: Sim, next: Sim)
    requires 0 < capital && Fits19(capital) && 0 < k <= |bars|
    requires FullRun(HoldPlan, NewWorld(capital), bars, k, capital).status == Active
    ensures FullRun(HoldPlan, NewWorld(capital), bars, k - 1, capital).status == Active
    ensures s == FullRun(HoldPlan, NewWorld(capital), bars, k - 1, capital).sim && Sound(s, capital)
    ensures next == FullRun(HoldPlan, NewWorld(capital), bars, k, capital).sim
    ensures Step(s, Strategies.Decide(BuyAndHold, s.position), bars[k - 1].close, capital) == Some(next)
  {
    NewWorldSound(capital);
    FullRunSound(HoldPlan, NewWorld(capital), bars, k - 1, capital);
    hide Strategies.Decide;
    hide Simulation.Step;
    hide Sound;
    s := FullRun(HoldPlan, NewWorld(capital), bars, k - 1, capital).sim;
    next := FullRun(HoldPlan, NewWorld(capital), bars, k, capital).sim;
  }
}
