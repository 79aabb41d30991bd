/** Opening Range Breakout over whole sessions of five-minute bars. */
module Orb {
  import opened Common
  import opened Decimals
  import opened Risk
  import opened Intraday
  import opened Strategies
  import opened Simulation
  import Calendar

  const SESSION_OPEN := Calendar.REGULAR_OPEN
  const OPENING_RANGE_END := 595

  /** The bars of one session, at 9:30, 9:35 and so on up to five minutes before the close. */
  ghost predicate FullSession(bars: seq<Bar>, closeMinute: int) {
    && |bars| > 6
    && closeMinute == SESSION_OPEN + 5 * |bars|
    && forall i :: 0 <= i < |bars| ==> Minute(bars[i]) == SESSION_OPEN + 5 * i && Day(bars[i]) == Day(bars[0])
  }

  /** The bars validated for a trading day are such a session. */
  lemma ValidatedSession(bars: seq<Bar>, day: int)
    requires day >= 1 && Stamps(bars) == Calendar.SessionOn(day).bars
    ensures FullSession(bars, Calendar.SessionOn(day).closeMinute)
  {
    SessionGrid(day);
    assert |bars| == |Stamps(bars)|;
    forall i | 0 <= i < |bars| ensures Minute(bars[i]) == SESSION_OPEN + 5 * i && Day(bars[i]) == day {
      assert Stamps(bars)[i] == bars[i].stamp;
      MinuteOfDay(day, SESSION_OPEN + 5 * i);
    }
  }

  lemma MinuteOfDay(day: int, minute: int)
    requires 0 <= minute < Calendar.MINUTES_PER_DAY
    ensures (day * Calendar.MINUTES_PER_DAY + minute) / Calendar.MINUTES_PER_DAY == day
    ensures (day * Calendar.MINUTES_PER_DAY + minute) % Calendar.MINUTES_PER_DAY == minute
  {
  }

  function RangeHigh(bars: seq<Bar>): Option<Ticks> {
    if bars == [] then None
    else
      var before, bar := RangeHigh(bars[..|bars| - 1]), bars[|bars| - 1];
      if Minute(bar) > OPENING_RANGE_END then before
      else if before.None? || bar.high > before.value then Some(bar.high)
      else before
  }

  function RangeLow(bars: seq<Bar>): Option<Ticks> {
    if bars == [] then None
    else
      var before, bar := RangeLow(bars[..|bars| - 1]), bars[|bars| - 1];
      if Minute(bar) > OPENING_RANGE_END then before
      else if before.None? || bar.low < before.value then Some(bar.low)
      else before
  }

  /** The range is the extreme high and low among the bars up to 9:55, and exists as soon as one is there. */
  lemma {:induction false} RangeIsExtreme(bars: seq<Bar>)
    ensures RangeHigh(bars).Some? == RangeLow(bars).Some?
    ensures RangeHigh(bars).Some? <==> exists i :: 0 <= i < |bars| && Minute(bars[i]) <= OPENING_RANGE_END
    ensures forall i :: 0 <= i < |bars| && Minute(bars[i]) <= OPENING_RANGE_END ==>
      RangeLow(bars).value <= bars[i].low && bars[i].high <= RangeHigh(bars).value
    ensures RangeHigh(bars).Some? ==>
      exists i :: 0 <= i < |bars| && Minute(bars[i]) <= OPENING_RANGE_END && bars[i].high == RangeHigh(bars).value
    ensures RangeLow(bars).Some? ==>
      exists i :: 0 <= i < |bars| && Minute(bars[i]) <= OPENING_RANGE_END && bars[i].low == RangeLow(bars).value
  {
    if bars != [] {
      var k := |bars| - 1;
      var prefix := bars[..k];
      RangeIsExtreme(prefix);
      if RangeHigh(prefix).Some? {
        var i :| 0 <= i < k && Minute(prefix[i]) <= OPENING_RANGE_END && prefix[i].high == RangeHigh(prefix).value;
        var j :| 0 <= j < k && Minute(prefix[j]) <= OPENING_RANGE_END && prefix[j].low == RangeLow(prefix).value;
        assert bars[i].high == RangeHigh(prefix).value && bars[j].low == RangeLow(prefix).value;
      }
      forall i | 0 <= i < k ensures bars[i] == prefix[i] {}
    }
  }

  /** The state the full run shows the strategy at bar i: the range is taken over the whole session. */
  function HistoricalState(session: seq<Bar>, i: nat, roundTrip: bool): OrbState
    requires i < |session|
  {
    var complete := Minute(session[i]) > OPENING_RANGE_END;
    OrbState(
      if complete then RangeHigh(session) else None,
      if complete then RangeLow(session) else None,
      complete, Stamp(session[i]) == Stamp(session[|session| - 1]), roundTrip)
  }

  /** The state a paper step computes from the bars loaded so far and the calendar's last bar. */
  function PaperState(loaded: seq<Bar>, lastExpected: int, roundTrip: bool): OrbState
    requires loaded != []
  {
    var bar := loaded[|loaded| - 1];
    var complete := Minute(bar) > OPENING_RANGE_END;
    OrbState(
      if complete then RangeHigh(loaded) else None,
      if complete then RangeLow(loaded) else None,
      complete, Stamp(bar) == lastExpected, roundTrip)
  }

  lemma {:induction false} RangeOfPrefix(session: seq<Bar>, k: nat)
    requires k <= |session|
    requires forall i :: k <= i < |session| ==> Minute(session[i]) > OPENING_RANGE_END
    ensures RangeHigh(session) == RangeHigh(session[..k])
    ensures RangeLow(session) == RangeLow(session[..k])
  {
    if k < |session| {
      var n := |session| - 1;
      RangeOfPrefix(session[..n], k);
      assert session[..n][..k] == session[..k];
    } else {
      assert session[..k] == session;
    }
  }

  lemma StatesAgreeOn(session: seq<Bar>, closeMinute: int, i: nat, roundTrip: bool)
    requires FullSession(session, closeMinute) && i < |session|
    ensures HistoricalState(session, i, roundTrip)
         == PaperState(session[..i + 1], Stamp(session[|session| - 1]), roundTrip)
  {
    if Minute(session[i]) > OPENING_RANGE_END {
      RangeOfPrefix(session, i + 1);
    }
  }

  /** On a validated trading day, full run and paper runner show the strategy the same state, bar by bar. */
  lemma StatesAgree(session: seq<Bar>, day: int, i: nat, roundTrip: bool)
    requires day >= 1 && Stamps(session) == Calendar.SessionOn(day).bars && i < |session|
    ensures |Calendar.SessionOn(day).bars| == |session|
    ensures HistoricalState(session, i, roundTrip)
         == PaperState(session[..i + 1], Calendar.SessionOn(day).bars[|session| - 1], roundTrip)
  {
    hide Calendar.SessionOn;
    hide HistoricalState;
    hide PaperState;
    ValidatedSession(session, day);
    StatesAgreeOn(session, Calendar.SessionOn(day).closeMinute, i, roundTrip);
    assert Stamp(session[|session| - 1]) == Stamps(session)[|session| - 1];
  }

  /** The scheduler's slot: the last expected bar that has ended. */
  function LatestCompletedBar(stamps: seq<int>, now: int): Option<int> {
    if stamps == [] then None
    else
      var last := stamps[|stamps| - 1];
      if last + 5 <= now then Some(last) else LatestCompletedBar(stamps[..|stamps| - 1], now)
  }

  lemma {:induction false} LatestCompletedAt(stamps: seq<int>, now: int) returns (k: nat)
    requires Increasing(stamps) && LatestCompletedBar(stamps, now).Some?
    ensures k < |stamps| && LatestCompletedBar(stamps, now) == Some(stamps[k])
    ensures forall i :: 0 <= i < |stamps| ==> (stamps[i] + 5 <= now <==> i <= k)
    ensures forall i :: 0 <= i < |stamps| ==> (stamps[i] <= stamps[k] <==> i < k + 1)
  {
    k := |stamps| - 1;
    if stamps[k] + 5 > now {
      k := LatestCompletedAt(stamps[..k], now);
    }
  }

  /** Bar k is the slot: it and the bars before it have ended, later ones have not, and it is shown as in a full run. */
  ghost predicate SlotShown(
    session: seq<Bar>, k: int, slot: int, now: int, loaded: seq<Bar>, stamps: seq<int>, roundTrip: bool
  )
    requires stamps != []
  {
    && 0 <= k < |session| && Stamp(session[k]) == slot && loaded == session[..k + 1]
    && (forall i :: 0 <= i < |session| ==> (Stamp(session[i]) + 5 <= now <==> i <= k))
    && PaperState(loaded, stamps[|stamps| - 1], roundTrip) == HistoricalState(session, k, roundTrip)
  }

  /**
    The paper path end to end.  On a day whose bars validate, the bars loaded until the due
    slot are exactly those that have ended, and the strategy is shown the state the full run
    shows it at the slot's bar.
  */
  lemma DueSlotShown(raw: seq<Bar>, day: int, now: int, roundTrip: bool)
    requires day >= 1 && Validated(raw, StampSet(Calendar.SessionOn(day).bars)).Ok?
    requires LatestCompletedBar(Calendar.SessionOn(day).bars, now).Some?
    ensures var calendar := Calendar.SessionOn(day);
      var session, slot := Validated(raw, StampSet(calendar.bars)).value, LatestCompletedBar(calendar.bars, now).value;
      var loaded := ValidatedUntil(raw, calendar, slot);
      && loaded.Ok? && |session| == |calendar.bars| > 0
      && exists k :: SlotShown(session, k, slot, now, loaded.value, calendar.bars, roundTrip)
  {
    hide *;
    var calendar := Calendar.SessionOn(day);
    SessionGrid(day);
    var session := Validated(raw, StampSet(calendar.bars)).value;
    var k := LatestCompletedAt(calendar.bars, now);
    UntilIsPrefix(raw, calendar, calendar.bars[k], k + 1);
    ValidationExact(raw, calendar.bars);
    SlotIsShown(session, day, k, now, roundTrip);
    assert SlotShown(session, k, calendar.bars[k], now, session[..k + 1], calendar.bars, roundTrip);
  }

  lemma SlotIsShown(session: seq<Bar>, day: int, k: nat, now: int, roundTrip: bool)
    requires day >= 1 && Stamps(session) == Calendar.SessionOn(day).bars && k < |Calendar.SessionOn(day).bars|
    requires var grid := Calendar.SessionOn(day).bars; forall i :: 0 <= i < |grid| ==> (grid[i] + 5 <= now <==> i <= k)
    ensures var grid := Calendar.SessionOn(day).bars;
      |session| == |grid| && SlotShown(session, k, grid[k], now, session[..k + 1], grid, roundTrip)
  {
    hide Calendar.SessionOn;
    hide HistoricalState;
    hide PaperState;
    var grid := Calendar.SessionOn(day).bars;
    assert |session| == |Stamps(session)|;
    forall i | 0 <= i < |session| ensures Stamp(session[i]) == grid[i] { assert Stamps(session)[i] == grid[i]; }
    StatesAgree(session, day, k, roundTrip);
  }

  // ---------- The full run ----------

  datatype Progress = Progress(world: World, roundTrip: bool)

  predicate SoldNow(before: Sim, after: Sim) {
    |after.trades| > |before.trades| && after.trades[|after.trades| - 1].side == Sell
  }

  /** A session without a bar up to 9:55 has no range to take the extremes of: the run fails there. */
  function Entered(w: World, session: seq<Bar>): World {
    if w.status == Active && RangeHigh(session).None? then w.(status := RunFailed) else w
  }

  /** After the first i bars of a session. */
  function SessionRun(w: World, session: seq<Bar>, i: nat, capital: Money): Progress
    requires capital > 0 && i <= |session|
  {
    if i == 0 then Progress(Entered(w, session), false)
    else
      var p := SessionRun(w, session, i - 1, capital);
      if p.world.status != Active then p else NextBar(p, session, i - 1, capital)
  }

  function NextBar(p: Progress, session: seq<Bar>, i: nat, capital: Money): Progress
    requires capital > 0 && i < |session|
  {
    var signal := OpeningRange(session[i].close, HistoricalState(session, i, p.roundTrip));
    var next := ProcessBar(p.world, Stamp(session[i]), session[i].close, signal, capital);
    Progress(next, p.roundTrip || SoldNow(p.world.sim, next.sim))
  }

  function Run(w: World, sessions: seq<seq<Bar>>, n: nat, capital: Money): World
    requires capital > 0 && n <= |sessions|
  {
    if n == 0 then w
    else
      var before := Run(w, sessions, n - 1, capital);
      SessionRun(before, sessions[n - 1], |sessions[n - 1]|, capital).world
  }

  lemma {:induction false} StoppedSession(w: World, session: seq<Bar>, i: nat, n: nat, capital: Money)
    requires capital > 0 && i <= n <= |session| && SessionRun(w, session, i, capital).world.status != Active
    ensures SessionRun(w, session, n, capital) == SessionRun(w, session, i, capital)
  {
    if i < n {
      StoppedSession(w, session, i, n - 1, capital);
    }
  }

  lemma {:induction false} StoppedRun(w: World, sessions: seq<seq<Bar>>, i: nat, n: nat, capital: Money)
    requires capital > 0 && i <= n <= |sessions| && Run(w, sessions, i, capital).status != Active
    ensures Run(w, sessions, n, capital) == Run(w, sessions, i, capital)
  {
    hide NextBar;
    hide RangeHigh;
    if i < n {
      StoppedRun(w, sessions, i, n - 1, capital);
      var before := Run(w, sessions, n - 1, capital);
      StoppedSession(before, sessions[n - 1], 0, |sessions[n - 1]|, capital);
    }
  }

  method RunSession(e: Experiment, session: seq<Bar>) returns (ok: bool)
    requires e.capital > 0 && e.status == Active && Numbered(e.steps)
    modifies e
    ensures e.Contents() == SessionRun(old(e.Contents()), session, |session|, e.capital).world
    ensures ok == (e.status == Active) && e.status != Finished && Numbered(e.steps)
  {
    ghost var start := e.Contents();
    if RangeHigh(session).None? {
      e.status := RunFailed;
      StoppedSession(start, session, 0, |session|, e.capital);
      return false;
    }
    var roundTrip := false;
    for i := 0 to |session|
      invariant e.status == Active && Numbered(e.steps)
      invariant Progress(e.Contents(), roundTrip) == SessionRun(start, session, i, e.capital)
    {
      ok, roundTrip := RunSessionBar(e, session, i, roundTrip);
      if !ok {
        StoppedSession(start, session, i + 1, |session|, e.capital);
        return;
      }
    }
    ok := true;
  }

  method RunSessionBar(e: Experiment, session: seq<Bar>, i: nat, roundTrip: bool) returns (ok: bool, completed: bool)
    requires e.capital > 0 && e.status == Active && i < |session| && Numbered(e.steps)
    modifies e
    ensures Progress(e.Contents(), completed) == NextBar(Progress(old(e.Contents()), roundTrip), session, i, e.capital)
    ensures e.status == (if ok then Active else RunFailed) && Numbered(e.steps)
  {
    var before := |e.trades|;
    ok := e.RunBar(Stamp(session[i]), session[i].close,
      OpeningRange(session[i].close, HistoricalState(session, i, roundTrip)));
    completed := roundTrip || (|e.trades| > before && e.trades[|e.trades| - 1].side == Sell);
  }

  method RunSessions(e: Experiment, sessions: seq<seq<Bar>>)
    requires e.capital > 0 && e.status == Active && Numbered(e.steps)
    modifies e
    ensures var w := Run(old(e.Contents()), sessions, |sessions|, e.capital);
      e.Contents() == if w.status == Active then w.(status := Finished) else w
  {
    ghost var start := e.Contents();
    for n := 0 to |sessions|
      invariant e.status == Active && Numbered(e.steps)
      invariant e.Contents() == Run(start, sessions, n, e.capital)
    {
      var ok := RunSession(e, sessions[n]);
      if !ok {
        StoppedRun(start, sessions, n + 1, |sessions|, e.capital);
        return;
      }
    }
    e.status := Finished;
  }

  // ---------- Grouping bars by session ----------

  /** The bars of one day, in the order given. */
  function DayBars(bars: seq<Bar>, day: int): seq<Bar> {
    if bars == [] then []
    else
      var last := bars[|bars| - 1];
      DayBars(bars[..|bars| - 1], day) + if Day(last) == day then [last] else []
  }

  /** Every day that has bars once, in order of date, each with all of its bars. */
  ghost predicate Grouped(bars: seq<Bar>, days: seq<int>, sessions: seq<seq<Bar>>) {
    && |days| == |sessions|
    && (forall i, j :: 0 <= i < j < |days| ==> days[i] < days[j])
    && (forall d :: d in days <==> HasDay(bars, d))
    && forall i :: 0 <= i < |sessions| ==> sessions[i] == DayBars(bars, days[i])
  }

  method GroupBySession(bars: seq<Bar>) returns (days: seq<int>, sessions: seq<seq<Bar>>)
    ensures Grouped(bars, days, sessions)
  {
    var grouped := GroupByDay(bars);
    days := SortedKeys(grouped.Keys);
    sessions := [];
    for n := 0 to |days|
      invariant |sessions| == n && forall i :: 0 <= i < n ==> sessions[i] == DayBars(bars, days[i])
    {
      assert days[n] in days;
      sessions := sessions + [grouped[days[n]]];
    }
    forall d ensures d in days <==> HasDay(bars, d) {}
  }

  predicate HasDay(bars: seq<Bar>, day: int) {
    exists i :: 0 <= i < |bars| && Day(bars[i]) == day
  }

  lemma HasDayLast(bars: seq<Bar>, day: int)
    requires bars != []
    ensures HasDay(bars, day) <==> HasDay(bars[..|bars| - 1], day) || Day(bars[|bars| - 1]) == day
  {
    var k := |bars| - 1;
    if HasDay(bars[..k], day) {
      var i :| 0 <= i < k && Day(bars[..k][i]) == day;
      assert Day(bars[i]) == day;
    }
    if HasDay(bars, day) {
      var i :| 0 <= i < |bars| && Day(bars[i]) == day;
      if i < k { assert Day(bars[..k][i]) == day; }
    }
  }

  /** The map holds each day's bars so far. */
  ghost predicate ByDay(grouped: map<int, seq<Bar>>, bars: seq<Bar>) {
    && (forall d :: d in grouped <==> HasDay(bars, d))
    && forall d :: d in grouped ==> grouped[d] == DayBars(bars, d)
  }

  lemma OneMoreBar(grouped: map<int, seq<Bar>>, bars: seq<Bar>, bar: Bar)
    requires ByDay(grouped, bars)
    ensures var day := Day(bar);
      ByDay(grouped[day := (if day in grouped then grouped[day] else []) + [bar]], bars + [bar])
  {
    var all, day := bars + [bar], Day(bar);
    assert all[..|all| - 1] == bars;
    forall d ensures HasDay(all, d) <==> HasDay(bars, d) || d == day {
      HasDayLast(all, d);
    }
    forall d ensures DayBars(all, d) == DayBars(bars, d) + if d == day then [bar] else [] {}
    DayBarsNone(bars, day);
    hide HasDay;
    hide DayBars;
    hide Day;
  }

  method GroupByDay(bars: seq<Bar>) returns (grouped: map<int, seq<Bar>>)
    ensures ByDay(grouped, bars)
  {
    grouped := map[];
    for n := 0 to |bars|
      invariant ByDay(grouped, bars[..n])
    {
      assert bars[..n + 1] == bars[..n] + [bars[n]];
      OneMoreBar(grouped, bars[..n], bars[n]);
      var day := Day(bars[n]);
      grouped := grouped[day := (if day in grouped then grouped[day] else []) + [bars[n]]];
    }
    assert bars[..|bars|] == bars;
  }

  ghost predicate IsLeast(d: int, keys: set<int>) {
    d in keys && forall x :: x in keys ==> d <= x
  }

  lemma LeastExists(keys: set<int>) returns (d: int)
    requires keys != {}
    ensures IsLeast(d, keys)
    decreases keys
  {
    SomeKey(keys);
    var some :| some in keys;
    var below := set x | x in keys && x < some;
    if below == {} {
      d := some;
      forall x | x in keys ensures d <= x { assert x !in below; }
    } else {
      assert some !in below;
      d := LeastExists(below);
      forall x | x in keys ensures d <= x {
        if x < some { assert x in below; }
      }
    }
  }

  lemma SomeKey(keys: set<int>)
    ensures keys == {} || exists x :: x in keys
  {
    if forall x :: x !in keys {
      assert keys == {};
    }
  }

  method SortedKeys(keys: set<int>) returns (days: seq<int>)
    ensures forall i, j :: 0 <= i < j < |days| ==> days[i] < days[j]
    ensures forall d :: d in days <==> d in keys
  {
    var rest := keys;
    days := [];
    while rest != {}
      invariant forall i, j :: 0 <= i < j < |days| ==> days[i] < days[j]
      invariant forall i, x :: 0 <= i < |days| && x in rest ==> days[i] < x
      invariant forall d :: d in keys ==> d in days || d in rest
      invariant forall d :: d in days || d in rest ==> d in keys
      decreases rest
    {
      ghost var least := LeastExists(rest);
      var d :| d in rest && forall x :: x in rest ==> d <= x;
      days := days + [d];
      rest := rest - {d};
    }
  }

  /** The whole orchestrator: the bars are grouped by session, and the sessions run one after the other. */
  method RunAll(e: Experiment, bars: seq<Bar>) returns (days: seq<int>, sessions: seq<seq<Bar>>)
    requires e.capital > 0 && e.status == Active && Numbered(e.steps)
    modifies e
    ensures Grouped(bars, days, sessions)
    ensures var w := Run(old(e.Contents()), sessions, |sessions|, e.capital);
      e.Contents() == if w.status == Active then w.(status := Finished) else w
  {
    days, sessions := GroupBySession(bars);
    RunSessions(e, sessions);
  }

  // ---------- Grouping gives back the calendar's sessions ----------

  lemma {:induction false} DayBarsJoin(a: seq<Bar>, b: seq<Bar>, day: int)
    ensures DayBars(a + b, day) == DayBars(a, day) + DayBars(b, day)
  {
    if b == [] {
      assert a + b == a;
    } else {
      DayBarsJoin(a, b[..|b| - 1], day);
      assert (a + b)[..|a + b| - 1] == a + b[..|b| - 1];
    }
  }

  lemma {:induction false} DayBarsAll(bars: seq<Bar>, day: int)
    requires forall i :: 0 <= i < |bars| ==> Day(bars[i]) == day
    ensures DayBars(bars, day) == bars
  {
    if bars != [] {
      DayBarsAll(bars[..|bars| - 1], day);
    }
  }

  lemma {:induction false} DayBarsNone(bars: seq<Bar>, day: int)
    ensures DayBars(bars, day) == [] <==> !HasDay(bars, day)
  {
    if bars != [] {
      DayBarsNone(bars[..|bars| - 1], day);
      HasDayLast(bars, day);
    }
  }

  lemma {:induction false} DayBarsGiven(bars: seq<Bar>, day: int, b: Bar)
    requires b in DayBars(bars, day)
    ensures b in bars
  {
    if bars != [] && b in DayBars(bars[..|bars| - 1], day) {
      DayBarsGiven(bars[..|bars| - 1], day, b);
    }
  }

  lemma DayOfStamp(stamp: int, day: int)
    ensures day * Calendar.MINUTES_PER_DAY <= stamp < (day + 1) * Calendar.MINUTES_PER_DAY
      <==> stamp / Calendar.MINUTES_PER_DAY == day
  {
  }

  /** The bars of the last session, and those before it. */
  lemma SplitBars(bars: seq<Bar>, sessions: seq<Calendar.Session>) returns (a: seq<Bar>, b: seq<Bar>)
    requires WellOrdered(sessions) && sessions != [] && Stamps(bars) == GridOf(sessions)
    ensures bars == a + b
    ensures Stamps(a) == GridOf(sessions[..|sessions| - 1]) && Stamps(b) == sessions[|sessions| - 1].bars
    ensures forall i :: 0 <= i < |b| ==> Day(b[i]) == sessions[|sessions| - 1].day
  {
    var grid, last := GridOf(sessions[..|sessions| - 1]), sessions[|sessions| - 1];
    assert |bars| == |Stamps(bars)| == |grid| + |last.bars|;
    assert Stamps(bars) == grid + last.bars && WithinDay(last.bars, last.day);
    hide GridOf;
    hide WellOrdered;
    a, b := bars[..|grid|], bars[|grid|..];
    forall i | 0 <= i < |bars| ensures Stamp(bars[i]) == (grid + last.bars)[i] {
      assert Stamps(bars)[i] == Stamp(bars[i]);
    }
    assert Stamps(b) == last.bars;
    DaysWithin(b, last.day);
    hide Day;
    hide WithinDay;
  }

  lemma DaysWithin(bars: seq<Bar>, day: int)
    requires WithinDay(Stamps(bars), day)
    ensures forall i :: 0 <= i < |bars| ==> Day(bars[i]) == day
  {
    forall i | 0 <= i < |bars| ensures Day(bars[i]) == day {
      assert Stamps(bars)[i] == bars[i].stamp;
      DayOfStamp(bars[i].stamp, day);
    }
  }

  /** Every earlier bar lies on an earlier day. */
  lemma EarlierDays(a: seq<Bar>, sessions: seq<Calendar.Session>)
    requires WellOrdered(sessions) && sessions != [] && Stamps(a) == GridOf(sessions[..|sessions| - 1])
    ensures forall i :: 0 <= i < |a| ==> Day(a[i]) < sessions[|sessions| - 1].day
  {
    var before := sessions[..|sessions| - 1];
    GridOfSessions(before);
    assert |a| == |Stamps(a)|;
    forall i | 0 <= i < |a| ensures Day(a[i]) < sessions[|sessions| - 1].day {
      assert Stamps(a)[i] == Stamp(a[i]);
      assert before != [];
      assert before[|before| - 1].day < sessions[|sessions| - 1].day;
    }
  }

  lemma {:induction false} GroupIsSession(bars: seq<Bar>, sessions: seq<Calendar.Session>, i: nat)
    requires WellOrdered(sessions) && Stamps(bars) == GridOf(sessions) && i < |sessions|
    ensures Stamps(DayBars(bars, sessions[i].day)) == sessions[i].bars
    decreases |sessions|
  {
    var k := |sessions| - 1;
    var a, b := SplitBars(bars, sessions);
    var day := sessions[i].day;
    DayBarsJoin(a, b, day);
    if i == k {
      EarlierDays(a, sessions);
      DayBarsNone(a, day);
      DayBarsAll(b, day);
    } else {
      GroupIsSession(a, sessions[..k], i);
      DayBarsNone(b, day);
      assert DayBars(bars, day) == DayBars(a, day);
    }
  }

  /** No other day has bars. */
  lemma {:induction false} DaysOfGrid(bars: seq<Bar>, sessions: seq<Calendar.Session>, day: int)
    requires WellOrdered(sessions) && Stamps(bars) == GridOf(sessions) && HasDay(bars, day)
    ensures exists i :: 0 <= i < |sessions| && sessions[i].day == day
    decreases |sessions|
  {
    assert |bars| == |Stamps(bars)|;
    if sessions != [] {
      var k := |sessions| - 1;
      var a, b := SplitBars(bars, sessions);
      DayBarsJoin(a, b, day);
      DayBarsNone(bars, day);
      DayBarsNone(a, day);
      DayBarsNone(b, day);
      if HasDay(a, day) {
        DaysOfGrid(a, sessions[..k], day);
        var i :| 0 <= i < k && sessions[..k][i].day == day;
        assert sessions[i].day == day;
      } else {
        assert sessions[k].day == day;
      }
    }
  }

  function DaysOf(sessions: seq<Calendar.Session>): seq<int> {
    seq(|sessions|, i requires 0 <= i < |sessions| => sessions[i].day)
  }

  /** The days of the groups are the days of the sessions. */
  lemma GroupedDays(bars: seq<Bar>, calendar: seq<Calendar.Session>, days: seq<int>, sessions: seq<seq<Bar>>)
    requires WellOrdered(calendar) && Stamps(bars) == GridOf(calendar) && Grouped(bars, days, sessions)
    requires forall i :: 0 <= i < |calendar| ==> calendar[i].bars != []
    ensures days == DaysOf(calendar)
  {
    forall d ensures d in StampSet(days) <==> d in StampSet(DaysOf(calendar)) {
      assert d in StampSet(days) <==> d in days;
      if d in days {
        DaysOfGrid(bars, calendar, d);
        var i :| 0 <= i < |calendar| && calendar[i].day == d;
        assert DaysOf(calendar)[i] == d;
      }
      if d in StampSet(DaysOf(calendar)) {
        var i :| 0 <= i < |DaysOf(calendar)| && DaysOf(calendar)[i] == d;
        GroupIsSession(bars, calendar, i);
        DayBarsNone(bars, d);
        assert |Stamps(DayBars(bars, d))| == |DayBars(bars, d)|;
      }
    }
    hide HasDay;
    hide WellOrdered;
    assert Increasing(DaysOf(calendar));
    SameIncreasing(days, DaysOf(calendar));
  }

  // ---------- The session language ----------

  /** The sides of the trades made since there were n. */
  function SidesSince(n: nat, trades: seq<TradeRow>): seq<Action>
    requires n <= |trades|
  {
    seq(|trades| - n, i requires 0 <= i < |trades| - n => trades[n + i].side)
  }

  /** Where a session can stand before its final bar. */
  predicate MidSession(enteredHolding: bool, sides: seq<Action>, holding: bool, roundTrip: bool) {
    if enteredHolding then
      (sides == [] && holding && !roundTrip) || (sides == [Sell] && !holding && roundTrip)
    else
      || (sides == [] && !holding && !roundTrip)
      || (sides == [Buy] && holding && !roundTrip)
      || (sides == [Buy, Sell] && !holding && roundTrip)
  }

  predicate Grew(before: seq<TradeRow>, after: seq<TradeRow>, side: Action) {
    |after| == |before| + 1 && after[..|before|] == before && after[|before|].side == side
  }

  /** What one bar does to the trades, given what the strategy asks for. */
  lemma BarEffect(s: Sim, signal: Signal, t: Ticks, capital: Money)
    requires capital > 0 && Sound(s, capital) && t > 0
    requires Step(s, Strategies.Decide(signal, s.position), t, capital).Some?
    ensures var next := Step(s, Strategies.Decide(signal, s.position), t, capital).value;
      match Strategies.Decide(signal, s.position)
      case Hold => next.trades == s.trades && next.position == s.position
      case Sell => next.position == 0.0 && Grew(s.trades, next.trades, Sell)
      case Buy => s.position == 0.0 && if next.position > 0.0
        then Grew(s.trades, next.trades, Buy)
        else next.trades == s.trades && next.position == 0.0
  {
    BuysOnlyWhenFlat(signal, s.position);
    var action := Strategies.Decide(signal, s.position);
    if RiskCheck(s, action, t).action == Buy {
      BuyIsAffordable(s, t);
    }
  }

  lemma SidesGrow(n: nat, before: seq<TradeRow>, after: seq<TradeRow>, side: Action)
    requires n <= |before| && Grew(before, after, side)
    ensures SidesSince(n, after) == SidesSince(n, before) + [side]
  {
    forall i | 0 <= i < |before| ensures after[i] == before[i] {
      assert after[..|before|][i] == after[i];
    }
  }

  /** The session so far, relative to the world it started in. */
  ghost predicate InSession(w: World, p: Progress, capital: Money) {
    && SoundWorld(p.world, capital)
    && |w.sim.trades| <= |p.world.sim.trades|
    && MidSession(w.sim.position > 0.0, SidesSince(|w.sim.trades|, p.world.sim.trades),
         p.world.sim.position > 0.0, p.roundTrip)
  }

  /** A bar that is not the final one keeps the session shape, and trades only outside the opening range. */
  lemma MidBar(w: World, p: Progress, session: seq<Bar>, i: nat, capital: Money)
    requires capital > 0 && i + 1 < |session|
    requires session[i].close > 0
    requires Stamp(session[i]) != Stamp(session[|session| - 1])
    requires InSession(w, p, capital)
    requires NextBar(p, session, i, capital).world.status == Active
    ensures InSession(w, NextBar(p, session, i, capital), capital)
    ensures Minute(session[i]) <= OPENING_RANGE_END ==>
      NextBar(p, session, i, capital).world.sim.trades == p.world.sim.trades
  {
    var signal := OpeningRange(session[i].close, HistoricalState(session, i, p.roundTrip));
    var s, next := p.world.sim, NextBar(p, session, i, capital).world.sim;
    ProcessBarSound(p.world, Stamp(session[i]), session[i].close, signal, capital);
    BarEffect(s, signal, session[i].close, capital);
    if |next.trades| > |s.trades| {
      SidesGrow(|w.sim.trades|, s.trades, next.trades, Strategies.Decide(signal, s.position));
    }
  }

  /** A session without a bar up to 9:55 fails an active run at once, before any step. */
  lemma MissingRangeFails(w: World, session: seq<Bar>, n: nat, capital: Money)
    requires capital > 0 && n <= |session| && w.status == Active
    requires forall i :: 0 <= i < |session| ==> Minute(session[i]) > OPENING_RANGE_END
    ensures SessionRun(w, session, n, capital).world == w.(status := RunFailed)
  {
    RangeIsExtreme(session);
    StoppedSession(w, session, 0, n, capital);
    hide RangeHigh;
    hide NextBar;
  }

  lemma LastBar(w: World, session: seq<Bar>, i: nat, capital: Money)
    requires capital > 0 && 0 < i <= |session| && SessionRun(w, session, i, capital).world.status == Active
    ensures SessionRun(w, session, i - 1, capital).world.status == Active
    ensures SessionRun(w, session, i, capital)
         == NextBar(SessionRun(w, session, i - 1, capital), session, i - 1, capital)
  {
  }

  lemma {:induction false} SessionShape(w: World, session: seq<Bar>, closeMinute: int, i: nat, capital: Money)
    requires capital > 0 && FullSession(session, closeMinute) && i < |session|
    requires forall k :: 0 <= k < |session| ==> session[k].close > 0
    requires SoundWorld(w, capital) && SessionRun(w, session, i, capital).world.status == Active
    ensures InSession(w, SessionRun(w, session, i, capital), capital)
  {
    hide NextBar;
    if i > 0 {
      var p := SessionRun(w, session, i - 1, capital);
      LastBar(w, session, i, capital);
      SessionShape(w, session, closeMinute, i - 1, capital);
      MidBar(w, p, session, i - 1, capital);
    }
  }

  lemma {:induction false} QuietOpening(w: World, session: seq<Bar>, closeMinute: int, i: nat, capital: Money)
    requires capital > 0 && FullSession(session, closeMinute) && i <= 6
    requires forall k :: 0 <= k < |session| ==> session[k].close > 0
    requires SoundWorld(w, capital) && SessionRun(w, session, i, capital).world.status == Active
    ensures SessionRun(w, session, i, capital).world.sim.trades == w.sim.trades
  {
    hide NextBar;
    if i > 0 {
      var p := SessionRun(w, session, i - 1, capital);
      LastBar(w, session, i, capital);
      QuietOpening(w, session, closeMinute, i - 1, capital);
      SessionShape(w, session, closeMinute, i - 1, capital);
      MidBar(w, p, session, i - 1, capital);
    }
  }

  /** How a session can end; `early` is the number of trades made before its final bar. */
  predicate SessionEnd(enteredHolding: bool, sides: seq<Action>, early: nat, holding: bool) {
    if enteredHolding then
      sides == [Sell] && !holding
    else
      && (sides == [] || sides == [Buy] || sides == [Buy, Sell])
      && (holding <==> sides == [Buy])
      && (sides == [Buy] ==> early == 0)
  }

  lemma FinalBar(w: World, p: Progress, session: seq<Bar>, capital: Money)
    requires capital > 0 && |session| > 6 && session[|session| - 1].close > 0
    requires Minute(session[|session| - 1]) > OPENING_RANGE_END
    requires InSession(w, p, capital)
    requires NextBar(p, session, |session| - 1, capital).world.status == Active
    ensures var last := NextBar(p, session, |session| - 1, capital).world.sim;
      && |w.sim.trades| <= |last.trades|
      && SessionEnd(w.sim.position > 0.0, SidesSince(|w.sim.trades|, last.trades),
           |p.world.sim.trades| - |w.sim.trades|, last.position > 0.0)
  {
    var i := |session| - 1;
    var signal := OpeningRange(session[i].close, HistoricalState(session, i, p.roundTrip));
    var s, next := p.world.sim, NextBar(p, session, i, capital).world.sim;
    BarEffect(s, signal, session[i].close, capital);
    if |next.trades| > |s.trades| {
      SidesGrow(|w.sim.trades|, s.trades, next.trades, Strategies.Decide(signal, s.position));
    }
  }

  /** Nothing trades in the first six bars, and the session ends as one may. */
  ghost predicate Speaks(w: World, session: seq<Bar>, capital: Money)
    requires capital > 0 && |session| > 6
  {
    var last := SessionRun(w, session, |session|, capital).world.sim;
    var late := SessionRun(w, session, |session| - 1, capital).world.sim;
    && SessionRun(w, session, 6, capital).world.sim.trades == w.sim.trades
    && |w.sim.trades| <= |late.trades| && |w.sim.trades| <= |last.trades|
    && SessionEnd(w.sim.position > 0.0, SidesSince(|w.sim.trades|, last.trades),
         |late.trades| - |w.sim.trades|, last.position > 0.0)
  }

  /**
    The session language.  A session entered holding sells exactly once and ends flat; any
    other session makes no trade, or buys and sells once, or buys on its final bar and only
    then ends holding.  Nothing trades inside the opening range (the first six bars).
  */
  lemma SessionLanguage(w: World, session: seq<Bar>, closeMinute: int, capital: Money)
    requires capital > 0 && FullSession(session, closeMinute)
    requires forall k :: 0 <= k < |session| ==> session[k].close > 0
    requires SoundWorld(w, capital) && SessionRun(w, session, |session|, capital).world.status == Active
    ensures Speaks(w, session, capital)
  {
    var n := |session|;
    SessionShape(w, session, closeMinute, n - 1, capital);
    StillActive(w, session, 6, n, capital);
    QuietOpening(w, session, closeMinute, 6, capital);
    FinalBar(w, SessionRun(w, session, n - 1, capital), session, capital);
  }

  lemma {:induction false} StillActive(w: World, session: seq<Bar>, i: nat, n: nat, capital: Money)
    requires capital > 0 && i <= n <= |session| && SessionRun(w, session, n, capital).world.status == Active
    ensures SessionRun(w, session, i, capital).world.status == Active
  {
    hide NextBar;
    if i < n {
      LastBar(w, session, n, capital);
      StillActive(w, session, i, n - 1, capital);
    }
  }

  /** An active bar adds one COMPLETED step with its stamp and the next number. */
  lemma BarAddsStep(p: Progress, session: seq<Bar>, i: nat, capital: Money)
    requires capital > 0 && i < |session| && NextBar(p, session, i, capital).world.status == Active
    ensures NextBar(p, session, i, capital).world.steps
         == p.world.steps + [StepRow(|p.world.steps| + 1, Stamp(session[i]), StepCompleted)]
  {
    hide Simulation.Step;
    hide Strategies.Decide;
    hide HistoricalState;
    hide SoldNow;
  }

  /** One COMPLETED step for each of the first i bars, with the bar's stamp, numbered on from n. */
  function StepsFor(session: seq<Bar>, i: nat, n: nat): seq<StepRow>
    requires i <= |session|
  {
    if i == 0 then [] else StepsFor(session, i - 1, n) + [StepRow(n + i, Stamp(session[i - 1]), StepCompleted)]
  }

  lemma {:induction false} StepsForLength(session: seq<Bar>, i: nat, n: nat)
    requires i <= |session|
    ensures |StepsFor(session, i, n)| == i
  {
    if i > 0 {
      StepsForLength(session, i - 1, n);
    }
  }

  lemma {:induction false} SessionSteps(w: World, session: seq<Bar>, i: nat, capital: Money)
    requires capital > 0 && i <= |session| && SessionRun(w, session, i, capital).world.status == Active
    ensures SessionRun(w, session, i, capital).world.steps == w.steps + StepsFor(session, i, |w.steps|)
  {
    hide *;
    if i == 0 {
      NoStepsYet(w, session, capital);
    } else {
      LastBar(w, session, i, capital);
      SessionSteps(w, session, i - 1, capital);
      BarAddsStep(SessionRun(w, session, i - 1, capital), session, i - 1, capital);
      OneMoreStep(w.steps, session, i);
    }
  }

  lemma NoStepsYet(w: World, session: seq<Bar>, capital: Money)
    requires capital > 0
    ensures SessionRun(w, session, 0, capital).world.steps == w.steps + StepsFor(session, 0, |w.steps|)
  {
    assert w.steps + [] == w.steps;
  }

  lemma OneMoreStep(steps: seq<StepRow>, session: seq<Bar>, i: nat)
    requires 0 < i <= |session|
    ensures var before := steps + StepsFor(session, i - 1, |steps|);
      before + [StepRow(|before| + 1, Stamp(session[i - 1]), StepCompleted)] == steps + StepsFor(session, i, |steps|)
  {
    StepsForLength(session, i - 1, |steps|);
  }

  // ---------- Which bars trade ----------

  /** After 9:55 the bar closes above every high of the bars up to 9:55. */
  ghost predicate BreaksOut(session: seq<Bar>, i: nat)
    requires i < |session|
  {
    && Minute(session[i]) > 595
    && forall j :: 0 <= j < |session| && Minute(session[j]) <= 595 ==> session[j].high < session[i].close
  }

  /** After 9:55 the bar closes below every low of the bars up to 9:55. */
  ghost predicate BreaksDown(session: seq<Bar>, i: nat)
    requires i < |session|
  {
    && Minute(session[i]) > 595
    && forall j :: 0 <= j < |session| && Minute(session[j]) <= 595 ==> session[i].close < session[j].low
  }

  /** A flat account with this cash enters here: a breakout, and a share can be paid for. */
  ghost predicate EntersAt(session: seq<Bar>, cash: Money, i: nat)
    requires i < |session|
  {
    BreaksOut(session, i) && Price(session[i].close) <= Dollars(cash)
  }

  /** A holding is given up here: at the final bar, or at a close below the range. */
  ghost predicate ExitsAt(session: seq<Bar>, i: nat)
    requires i < |session|
  {
    i == |session| - 1 || (BreaksDown(session, i) && !BreaksOut(session, i))
  }

  ghost predicate FirstEntry(session: seq<Bar>, cash: Money, i: nat) {
    i < |session| && EntersAt(session, cash, i) && forall j :: 0 <= j < i ==> !EntersAt(session, cash, j)
  }

  ghost predicate FirstExit(session: seq<Bar>, start: nat, j: nat) {
    start <= j < |session| && ExitsAt(session, j) && forall n :: start <= n < j ==> !ExitsAt(session, n)
  }

  /** The range decides as the bars do. */
  lemma RangeByBars(session: seq<Bar>, closeMinute: int, i: nat)
    requires FullSession(session, closeMinute) && i < |session|
    ensures RangeHigh(session).Some? && RangeLow(session).Some?
    ensures Minute(session[i]) > OPENING_RANGE_END ==>
      && (BreaksOut(session, i) <==> session[i].close > RangeHigh(session).value)
      && (BreaksDown(session, i) <==> session[i].close < RangeLow(session).value)
  {
    RangeIsExtreme(session);
    assert Minute(session[0]) <= OPENING_RANGE_END;
    hide RangeHigh;
    hide RangeLow;
  }

  lemma FinalByBars(session: seq<Bar>, closeMinute: int, i: nat)
    requires FullSession(session, closeMinute) && i < |session|
    ensures Stamp(session[i]) == Stamp(session[|session| - 1]) <==> i == |session| - 1
    ensures i == |session| - 1 ==> Minute(session[i]) > OPENING_RANGE_END
  {
  }

  /** What the strategy asks for at bar i of a session, from the bars. */
  lemma AskedAt(session: seq<Bar>, closeMinute: int, i: nat, roundTrip: bool, position: real)
    requires FullSession(session, closeMinute) && i < |session| && position >= 0.0
    ensures var action := Strategies.Decide(
        OpeningRange(session[i].close, HistoricalState(session, i, roundTrip)), position);
      && (position > 0.0 && !roundTrip ==> action == if ExitsAt(session, i) then Sell else Hold)
      && (position == 0.0 ==> action == if !roundTrip && BreaksOut(session, i) then Buy else Hold)
  {
    RangeByBars(session, closeMinute, i);
    FinalByBars(session, closeMinute, i);
    var state := HistoricalState(session, i, roundTrip);
    BreakoutDecides(session[i].close, state, position);
    StateAt(session, i, roundTrip);
    hide FullSession;
    hide RangeHigh;
    hide RangeLow;
    hide Breakout;
    hide HistoricalState;
  }

  lemma StateAt(session: seq<Bar>, i: nat, roundTrip: bool)
    requires i < |session|
    ensures var state, complete := HistoricalState(session, i, roundTrip), Minute(session[i]) > OPENING_RANGE_END;
      && state.complete == complete && state.roundTrip == roundTrip
      && state.finalBar == (Stamp(session[i]) == Stamp(session[|session| - 1]))
      && (complete ==> state.high == RangeHigh(session) && state.low == RangeLow(session))
  {
    hide RangeHigh;
    hide RangeLow;
  }

  /** What bar i does in a session of positive closes, from what is held and whether a round trip is over. */
  lemma BarTrades(p: Progress, session: seq<Bar>, closeMinute: int, i: nat, capital: Money)
    requires capital > 0 && FullSession(session, closeMinute) && i < |session| && session[i].close > 0
    requires SoundWorld(p.world, capital) && NextBar(p, session, i, capital).world.status == Active
    ensures var s, q := p.world.sim, NextBar(p, session, i, capital);
      var next, close := q.world.sim, session[i].close;
      && SoundWorld(q.world, capital) && s.position >= 0.0
      && (s.position > 0.0 && !p.roundTrip ==>
            if ExitsAt(session, i) then SoldAll(s, next, close) && q.roundTrip else Kept(s, next) && !q.roundTrip)
      && (s.position == 0.0 ==>
            && q.roundTrip == p.roundTrip
            && if !p.roundTrip && EntersAt(session, s.cash, i)
               then BoughtAll(s, next, close) && next.position > 0.0 else Kept(s, next))
  {
    var s := p.world.sim;
    var signal := OpeningRange(session[i].close, HistoricalState(session, i, p.roundTrip));
    var action := Strategies.Decide(signal, s.position);
    var q := NextBar(p, session, i, capital);
    ProcessBarSound(p.world, Stamp(session[i]), session[i].close, signal, capital);
    BuysOnlyWhenFlat(signal, s.position);
    BarProcessed(p, session, i, capital);
    AskedAt(session, closeMinute, i, p.roundTrip, s.position);
    StepTrades(s, action, session[i].close, capital);
    SoldNowIs(s, q.world.sim, session[i].close);
    hide Strategies.Decide;
    hide Simulation.Step;
    hide HistoricalState;
    hide NextBar;
    hide FullSession;
    hide BreaksOut;
    hide ExitsAt;
    hide Kept;
    hide SoldAll;
    hide BoughtAll;
    hide SoldNow;
    hide Price;
  }

  lemma BarProcessed(p: Progress, session: seq<Bar>, i: nat, capital: Money)
    requires capital > 0 && i < |session| && NextBar(p, session, i, capital).world.status == Active
    ensures var signal := OpeningRange(session[i].close, HistoricalState(session, i, p.roundTrip));
      var q := NextBar(p, session, i, capital);
      && Simulation.Step(p.world.sim, Strategies.Decide(signal, p.world.sim.position), session[i].close, capital)
         == Some(q.world.sim)
      && q.world == ProcessBar(p.world, Stamp(session[i]), session[i].close, signal, capital)
      && q.roundTrip == (p.roundTrip || SoldNow(p.world.sim, q.world.sim))
  {
    hide Strategies.Decide;
    hide Simulation.Step;
    hide HistoricalState;
    hide SoldNow;
  }

  lemma SoldNowIs(s: Sim, next: Sim, t: Ticks)
    ensures Kept(s, next) || BoughtAll(s, next, t) ==> !SoldNow(s, next)
    ensures SoldAll(s, next, t) ==> SoldNow(s, next)
    ensures BoughtAll(s, next, t) ==> next.position > 0.0
  {
    hide Worth;
  }

  /** A session of positive closes that runs through. */
  ghost predicate RunsThrough(w: World, session: seq<Bar>, closeMinute: int, capital: Money) {
    && capital > 0 && FullSession(session, closeMinute) && SoundWorld(w, capital)
    && (forall k :: 0 <= k < |session| ==> session[k].close > 0)
    && SessionRun(w, session, |session|, capital).world.status == Active
  }

  /** One more bar of such a session. */
  lemma NextTrades(w: World, session: seq<Bar>, closeMinute: int, i: nat, capital: Money)
    requires RunsThrough(w, session, closeMinute, capital) && i < |session|
    ensures var p := SessionRun(w, session, i, capital);
      var q := SessionRun(w, session, i + 1, capital);
      var s, next, close := p.world.sim, q.world.sim, session[i].close;
      && s.position >= 0.0
      && (s.position > 0.0 && !p.roundTrip ==>
            if ExitsAt(session, i) then SoldAll(s, next, close) && q.roundTrip else Kept(s, next) && !q.roundTrip)
      && (s.position == 0.0 ==>
            && q.roundTrip == p.roundTrip
            && if !p.roundTrip && EntersAt(session, s.cash, i)
               then BoughtAll(s, next, close) && next.position > 0.0 else Kept(s, next))
  {
    StillActive(w, session, i + 1, |session|, capital);
    LastBar(w, session, i + 1, capital);
    SessionSound(w, session, i, capital);
    BarTrades(SessionRun(w, session, i, capital), session, closeMinute, i, capital);
    hide NextBar;
    hide SessionRun;
    hide SoundWorld;
    hide FullSession;
    hide ExitsAt;
    hide EntersAt;
    hide Kept;
    hide SoldAll;
    hide BoughtAll;
  }

  lemma StartOf(w: World, session: seq<Bar>, closeMinute: int, capital: Money)
    requires RunsThrough(w, session, closeMinute, capital)
    ensures capital > 0 && |session| > 0 && w.sim.position >= 0.0
    ensures SessionRun(w, session, 0, capital).world.sim == w.sim && !SessionRun(w, session, 0, capital).roundTrip
  {
  }

  /** Entered flat, nothing is traded before the first entry. */
  lemma {:induction false} FlatUntil(w: World, session: seq<Bar>, closeMinute: int, i: nat, capital: Money)
    requires RunsThrough(w, session, closeMinute, capital) && i <= |session| && w.sim.position == 0.0
    requires forall j :: 0 <= j < i ==> !EntersAt(session, w.sim.cash, j)
    ensures var p := SessionRun(w, session, i, capital); Kept(w.sim, p.world.sim) && !p.roundTrip
  {
    hide *;
    StartOf(w, session, closeMinute, capital);
    if i == 0 {
      KeptItself(w.sim);
    } else {
      FlatUntil(w, session, closeMinute, i - 1, capital);
      var s := SessionRun(w, session, i - 1, capital).world.sim;
      SameColumns(w.sim, s);
      NextTrades(w, session, closeMinute, i - 1, capital);
      KeptTwice(w.sim, s, SessionRun(w, session, i, capital).world.sim);
    }
  }

  lemma KeptItself(s: Sim)
    ensures Kept(s, s)
  {
  }

  lemma KeptTwice(s: Sim, t: Sim, u: Sim)
    requires Kept(s, t) && Kept(t, u)
    ensures Kept(s, u)
  {
  }

  lemma SoldIsFlat(s: Sim, next: Sim, t: Ticks)
    requires SoldAll(s, next, t)
    ensures next.position == 0.0
  {
    hide Worth;
  }

  lemma SameColumns(s: Sim, t: Sim)
    requires Kept(s, t)
    ensures t.cash == s.cash && t.position == s.position
  {
  }

  /** A holding is kept until the first exit. */
  lemma {:induction false} HeldUntil(
    w: World, session: seq<Bar>, closeMinute: int, start: nat, i: nat, capital: Money
  )
    requires RunsThrough(w, session, closeMinute, capital) && start <= i <= |session|
    requires var p := SessionRun(w, session, start, capital); p.world.sim.position > 0.0 && !p.roundTrip
    requires forall j :: start <= j < i ==> !ExitsAt(session, j)
    ensures var p, q := SessionRun(w, session, start, capital), SessionRun(w, session, i, capital);
      Kept(p.world.sim, q.world.sim) && !q.roundTrip
  {
    hide SessionRun;
    hide RunsThrough;
    hide EntersAt;
    hide ExitsAt;
    hide SoldAll;
    hide BoughtAll;
    if i > start {
      HeldUntil(w, session, closeMinute, start, i - 1, capital);
      NextTrades(w, session, closeMinute, i - 1, capital);
    }
  }

  /** After a round trip nothing is traded. */
  lemma {:induction false} DoneUntil(
    w: World, session: seq<Bar>, closeMinute: int, start: nat, i: nat, capital: Money
  )
    requires RunsThrough(w, session, closeMinute, capital) && start <= i <= |session|
    requires var p := SessionRun(w, session, start, capital); p.world.sim.position == 0.0 && p.roundTrip
    ensures var p, q := SessionRun(w, session, start, capital), SessionRun(w, session, i, capital);
      Kept(p.world.sim, q.world.sim) && q.roundTrip
  {
    hide SessionRun;
    hide RunsThrough;
    hide EntersAt;
    hide ExitsAt;
    hide SoldAll;
    hide BoughtAll;
    if i > start {
      DoneUntil(w, session, closeMinute, start, i - 1, capital);
      NextTrades(w, session, closeMinute, i - 1, capital);
    }
  }

  /** From bar `start` on, a holding is kept to the first exit, sold there, and nothing follows. */
  ghost predicate SoldOnce(w: World, session: seq<Bar>, start: nat, j: nat, capital: Money)
    requires capital > 0 && start <= |session|
  {
    && FirstExit(session, start, j)
    && Kept(SessionRun(w, session, start, capital).world.sim, SessionRun(w, session, j, capital).world.sim)
    && SoldAll(SessionRun(w, session, j, capital).world.sim, SessionRun(w, session, j + 1, capital).world.sim,
         session[j].close)
    && Kept(SessionRun(w, session, j + 1, capital).world.sim, SessionRun(w, session, |session|, capital).world.sim)
  }

  lemma ExitExists(session: seq<Bar>, start: nat) returns (j: nat)
    requires start < |session|
    ensures FirstExit(session, start, j)
    decreases |session| - start
  {
    j := start;
    if !ExitsAt(session, start) {
      j := ExitExists(session, start + 1);
    }
  }

  lemma HeldIsSold(w: World, session: seq<Bar>, closeMinute: int, start: nat, capital: Money) returns (j: nat)
    requires RunsThrough(w, session, closeMinute, capital) && start < |session|
    requires var p := SessionRun(w, session, start, capital); p.world.sim.position > 0.0 && !p.roundTrip
    ensures capital > 0 && SoldOnce(w, session, start, j, capital)
  {
    hide *;
    StartOf(w, session, closeMinute, capital);
    j := ExitExists(session, start);
    ExitIs(session, start, j);
    HeldUntil(w, session, closeMinute, start, j, capital);
    var held, sold := SessionRun(w, session, j, capital).world.sim, SessionRun(w, session, j + 1, capital).world.sim;
    SameColumns(SessionRun(w, session, start, capital).world.sim, held);
    NextTrades(w, session, closeMinute, j, capital);
    SoldIsFlat(held, sold, session[j].close);
    DoneUntil(w, session, closeMinute, j + 1, |session|, capital);
    SoldOnceIs(w, session, start, j, capital);
  }

  lemma ExitIs(session: seq<Bar>, start: nat, j: nat)
    requires FirstExit(session, start, j)
    ensures start <= j < |session| && ExitsAt(session, j) && forall n :: start <= n < j ==> !ExitsAt(session, n)
  {
  }

  lemma SoldOnceIs(w: World, session: seq<Bar>, start: nat, j: nat, capital: Money)
    requires capital > 0 && start <= j < |session| && FirstExit(session, start, j)
    requires Kept(SessionRun(w, session, start, capital).world.sim, SessionRun(w, session, j, capital).world.sim)
    requires SoldAll(SessionRun(w, session, j, capital).world.sim, SessionRun(w, session, j + 1, capital).world.sim,
      session[j].close)
    requires Kept(SessionRun(w, session, j + 1, capital).world.sim,
      SessionRun(w, session, |session|, capital).world.sim)
    ensures SoldOnce(w, session, start, j, capital)
  {
    hide SessionRun;
    hide Kept;
    hide SoldAll;
    hide FirstExit;
  }

  /** Bar i buys all that cash pays for at its close, after nothing else was traded; and that is sold once. */
  ghost predicate EntryTraded(w: World, session: seq<Bar>, i: nat, capital: Money)
    requires capital > 0 && i < |session|
  {
    && Kept(w.sim, SessionRun(w, session, i, capital).world.sim)
    && BoughtAll(w.sim, SessionRun(w, session, i + 1, capital).world.sim, session[i].close)
    && (i + 1 < |session| ==> SoldFrom(w, session, i + 1, capital))
  }

  ghost predicate SoldFrom(w: World, session: seq<Bar>, start: nat, capital: Money)
    requires capital > 0 && start <= |session|
  {
    exists j :: SoldOnce(w, session, start, j, capital)
  }

  ghost predicate NoEntry(session: seq<Bar>, cash: Money) {
    forall i :: 0 <= i < |session| ==> !EntersAt(session, cash, i)
  }

  /**
    Exactly what a session trades, in terms of its bars.  Entered holding, everything is sold at
    the first exit.  Entered flat, nothing is traded unless some bar is an entry; at the first
    one all that cash pays for is bought at its close, and that is sold at the first exit after
    it, if a bar is left.  Nothing else is traded.
  */
  ghost predicate TradesExactly(w: World, session: seq<Bar>, capital: Money)
    requires capital > 0
  {
    if w.sim.position > 0.0 then SoldFrom(w, session, 0, capital)
    else
      && (NoEntry(session, w.sim.cash) ==> Kept(w.sim, SessionRun(w, session, |session|, capital).world.sim))
      && forall i :: FirstEntry(session, w.sim.cash, i) ==> EntryTraded(w, session, i, capital)
  }

  lemma EntryIsBought(w: World, session: seq<Bar>, closeMinute: int, i: nat, capital: Money)
    requires RunsThrough(w, session, closeMinute, capital) && w.sim.position == 0.0
    requires FirstEntry(session, w.sim.cash, i)
    ensures var p, q := SessionRun(w, session, i, capital), SessionRun(w, session, i + 1, capital);
      && Kept(w.sim, p.world.sim) && BoughtAll(w.sim, q.world.sim, session[i].close)
      && q.world.sim.position > 0.0 && !q.roundTrip
  {
    FlatUntil(w, session, closeMinute, i, capital);
    NextTrades(w, session, closeMinute, i, capital);
    hide SessionRun;
    hide RunsThrough;
    hide EntersAt;
    hide ExitsAt;
    hide Worth;
  }

  lemma EntryIsTraded(w: World, session: seq<Bar>, closeMinute: int, i: nat, capital: Money)
    requires RunsThrough(w, session, closeMinute, capital) && w.sim.position == 0.0
    requires FirstEntry(session, w.sim.cash, i)
    ensures capital > 0 && EntryTraded(w, session, i, capital)
  {
    hide SessionRun;
    hide SoldOnce;
    hide EntersAt;
    hide Kept;
    hide BoughtAll;
    hide SoundWorld;
    hide FullSession;
    EntryIsBought(w, session, closeMinute, i, capital);
    if i + 1 < |session| {
      var j := HeldIsSold(w, session, closeMinute, i + 1, capital);
    }
  }

  lemma SessionTrades(w: World, session: seq<Bar>, closeMinute: int, capital: Money)
    requires RunsThrough(w, session, closeMinute, capital)
    ensures capital > 0 && TradesExactly(w, session, capital)
  {
    StartOf(w, session, closeMinute, capital);
    if w.sim.position > 0.0 {
      var j := HeldIsSold(w, session, closeMinute, 0, capital);
    } else {
      if NoEntry(session, w.sim.cash) {
        FlatUntil(w, session, closeMinute, |session|, capital);
      }
      forall i | FirstEntry(session, w.sim.cash, i) ensures EntryTraded(w, session, i, capital) {
        EntryIsTraded(w, session, closeMinute, i, capital);
      }
    }
    hide SessionRun;
    hide RunsThrough;
    hide SoldOnce;
    hide EntersAt;
    hide FirstEntry;
    hide EntryTraded;
    hide Kept;
  }

  // ---------- Solvency and profit over the whole run ----------

  lemma {:induction false} SessionSound(w: World, session: seq<Bar>, i: nat, capital: Money)
    requires capital > 0 && i <= |session| && SoundWorld(w, capital)
    ensures SoundWorld(SessionRun(w, session, i, capital).world, capital)
  {
    if i > 0 {
      SessionSound(w, session, i - 1, capital);
      var p := SessionRun(w, session, i - 1, capital);
      ProcessBarSound(p.world, Stamp(session[i - 1]), session[i - 1].close,
        OpeningRange(session[i - 1].close, HistoricalState(session, i - 1, p.roundTrip)), capital);
    }
  }

  lemma {:induction false} RunSound(w: World, sessions: seq<seq<Bar>>, n: nat, capital: Money)
    requires capital > 0 && n <= |sessions| && SoundWorld(w, capital)
    ensures SoundWorld(Run(w, sessions, n, capital), capital)
  {
    if n > 0 {
      RunSound(w, sessions, n - 1, capital);
      SessionSound(Run(w, sessions, n - 1, capital), sessions[n - 1], |sessions[n - 1]|, capital);
    }
  }

  lemma {:induction false} SessionOnRecord(w: World, session: seq<Bar>, i: nat, capital: Money)
    requires capital > 0 && i <= |session| && SoundWorld(w, capital) && OnRecord(w.sim, capital)
    ensures OnRecord(SessionRun(w, session, i, capital).world.sim, capital)
  {
    hide OnRecord;
    hide SoundWorld;
    if i > 0 {
      SessionOnRecord(w, session, i - 1, capital);
      SessionSound(w, session, i - 1, capital);
      hide ProcessBar;
      hide SoldNow;
      var p := SessionRun(w, session, i - 1, capital);
      ProcessBarOnRecord(p.world, Stamp(session[i - 1]), session[i - 1].close,
        OpeningRange(session[i - 1].close, HistoricalState(session, i - 1, p.roundTrip)), capital);
    }
  }

  /** At every point of an ORB run too, trades account for cash and position, and metrics for snapshots. */
  lemma {:induction false} OrbRunOnRecord(sessions: seq<seq<Bar>>, n: nat, capital: Money)
    requires 0 < capital && Fits19(capital) && n <= |sessions|
    ensures OnRecord(Run(NewWorld(capital), sessions, n, capital).sim, capital)
  {
    hide OnRecord;
    hide SoundWorld;
    hide SessionRun;
    if n == 0 {
      NewOnRecord(capital);
    } else {
      OrbRunOnRecord(sessions, n - 1, capital);
      NewWorldSound(capital);
      RunSound(NewWorld(capital), sessions, n - 1, capital);
      SessionOnRecord(Run(NewWorld(capital), sessions, n - 1, capital), sessions[n - 1], |sessions[n - 1]|, capital);
    }
  }

  /** Any historical run over sessions is solvent and its profit is the sum of the held positions' gains. */
  lemma OrbRunSound(sessions: seq<seq<Bar>>, capital: Money)
    requires 0 < capital && Fits19(capital)
    ensures var s := Run(NewWorld(capital), sessions, |sessions|, capital).sim;
      && s.cash >= 0 && s.position >= 0.0 && Whole(s.position)
      && s.value == capital + Gains(s.snapshots)
      && (s.metrics != [] ==> s.metrics[|s.metrics| - 1].profitLoss == Gains(s.snapshots))
  {
    NewWorldSound(capital);
    RunSound(NewWorld(capital), sessions, |sessions|, capital);
  }

  /** Along a whole run every session speaks the language and trades exactly as its bars say. */
  lemma EverySessionSpeaks(sessions: seq<seq<Bar>>, n: nat, closeMinute: int, capital: Money)
    requires 0 < capital && Fits19(capital) && n < |sessions|
    requires FullSession(sessions[n], closeMinute) && forall k :: 0 <= k < |sessions[n]| ==> sessions[n][k].close > 0
    requires Run(NewWorld(capital), sessions, n + 1, capital).status == Active
    ensures Speaks(Run(NewWorld(capital), sessions, n, capital), sessions[n], capital)
    ensures TradesExactly(Run(NewWorld(capital), sessions, n, capital), sessions[n], capital)
    ensures Run(NewWorld(capital), sessions, n + 1, capital)
         == SessionRun(Run(NewWorld(capital), sessions, n, capital), sessions[n], |sessions[n]|, capital).world
  {
    LastSession(sessions, n, capital);
    hide SessionRun;
    hide SoundWorld;
    hide Run;
    hide FullSession;
    hide TradesExactly;
    SessionLanguage(Run(NewWorld(capital), sessions, n, capital), sessions[n], closeMinute, capital);
    SessionTrades(Run(NewWorld(capital), sessions, n, capital), sessions[n], closeMinute, capital);
    hide Speaks;
  }

  lemma LoadedStamps(raw: seq<Bar>, first: int, last: int)
    requires first >= 1 && Validated(raw, ExpectedOf(Calendar.Sessions(first, last))).Ok?
    ensures var calendar := Calendar.Sessions(first, last);
      && WellOrdered(calendar)
      && Stamps(Validated(raw, ExpectedOf(calendar)).value) == GridOf(calendar)
      && forall b :: b in Validated(raw, ExpectedOf(calendar)).value ==> b in raw
  {
    var calendar := Calendar.Sessions(first, last);
    CalendarOrdered(first, last);
    GridOfSessions(calendar);
    ValidationExact(raw, GridOf(calendar));
    hide Validated;
    hide WellOrdered;
  }

  /**
    Grouping undoes the joining of the calendar's grids: bars validated for a date range fall
    into exactly the range's trading days, each a full session of bars that were given.
  */
  lemma ValidatedGroups(raw: seq<Bar>, first: int, last: int, days: seq<int>, sessions: seq<seq<Bar>>)
    requires first >= 1 && Validated(raw, ExpectedOf(Calendar.Sessions(first, last))).Ok?
    requires Grouped(Validated(raw, ExpectedOf(Calendar.Sessions(first, last))).value, days, sessions)
    ensures var calendar := Calendar.Sessions(first, last);
      && days == DaysOf(calendar) && |sessions| == |calendar|
      && forall n :: 0 <= n < |sessions| ==>
           && Stamps(sessions[n]) == calendar[n].bars
           && FullSession(sessions[n], calendar[n].closeMinute)
           && forall b :: b in sessions[n] ==> b in raw
  {
    var calendar := Calendar.Sessions(first, last);
    var bars := Validated(raw, ExpectedOf(calendar)).value;
    LoadedStamps(raw, first, last);
    Calendar.SessionsComplete(first, last);
    hide Validated;
    hide WellOrdered;
    hide FullSession;
    hide Calendar.SessionOn;
    forall n | 0 <= n < |calendar| ensures calendar[n].bars != [] {
      SessionGrid(calendar[n].day);
    }
    GroupedDays(bars, calendar, days, sessions);
    forall n | 0 <= n < |sessions|
      ensures Stamps(sessions[n]) == calendar[n].bars && FullSession(sessions[n], calendar[n].closeMinute)
      ensures forall b :: b in sessions[n] ==> b in raw
    {
      assert days[n] == calendar[n].day;
      GroupIsSession(bars, calendar, n);
      ValidatedSession(sessions[n], calendar[n].day);
      forall b | b in sessions[n] ensures b in raw {
        DayBarsGiven(bars, days[n], b);
      }
    }
  }

  /**
    The whole historical path.  Over bars validated for any date range, the run goes through
    one session for each trading day, in order, and every session it finishes speaks the
    session language and trades exactly as its bars say.
  */
  lemma ValidatedRunSpeaks(
    raw: seq<Bar>, first: int, last: int, days: seq<int>, sessions: seq<seq<Bar>>, n: nat, capital: Money
  )
    requires first >= 1 && Validated(raw, ExpectedOf(Calendar.Sessions(first, last))).Ok?
    requires Grouped(Validated(raw, ExpectedOf(Calendar.Sessions(first, last))).value, days, sessions)
    requires forall b :: b in raw ==> b.close > 0
    requires 0 < capital && Fits19(capital) && n < |sessions|
    requires Run(NewWorld(capital), sessions, n + 1, capital).status == Active
    ensures |sessions| == |Calendar.Sessions(first, last)| && days == DaysOf(Calendar.Sessions(first, last))
    ensures |sessions[n]| > 6 && Speaks(Run(NewWorld(capital), sessions, n, capital), sessions[n], capital)
    ensures TradesExactly(Run(NewWorld(capital), sessions, n, capital), sessions[n], capital)
  {
    ValidatedGroups(raw, first, last, days, sessions);
    var closeMinute := Calendar.Sessions(first, last)[n].closeMinute;
    assert forall k :: 0 <= k < |sessions[n]| ==> sessions[n][k] in sessions[n];
    hide Run;
    hide Grouped;
    hide Validated;
    hide Speaks;
    hide TradesExactly;
    EverySessionSpeaks(sessions, n, closeMinute, capital);
  }

  lemma LastSession(sessions: seq<seq<Bar>>, n: nat, capital: Money)
    requires 0 < capital && Fits19(capital) && n < |sessions|
    ensures SoundWorld(Run(NewWorld(capital), sessions, n, capital), capital)
    ensures Run(NewWorld(capital), sessions, n + 1, capital)
         == SessionRun(Run(NewWorld(capital), sessions, n, capital), sessions[n], |sessions[n]|, capital).world
  {
    NewWorldSound(capital);
    RunSound(NewWorld(capital), sessions, n, capital);
    hide SessionRun;
    hide SoundWorld;
  }
}
