/** Five-minute bars: exact validation against the calendar's grid, and hourly aggregation. */
module Intraday {
  import opened Common
  import opened Strategies
  import Calendar

  /** A five-minute bar; its stamp counts minutes of local time. */
  datatype Bar = Bar(stamp: int, open: Ticks, high: Ticks, low: Ticks, close: Ticks, volume: nat)

  function Stamp(bar: Bar): int {
    bar.stamp
  }

  function Day(bar: Bar): int {
    bar.stamp / Calendar.MINUTES_PER_DAY
  }

  /** Minutes since local midnight. */
  function Minute(bar: Bar): int {
    bar.stamp % Calendar.MINUTES_PER_DAY
  }

  function Stamps(bars: seq<Bar>): seq<int> {
    seq(|bars|, i requires 0 <= i < |bars| => Stamp(bars[i]))
  }

  datatype Failure = DuplicateBar(stamp: int) | MissingBars(stamps: set<int>)

  // ---------- Validation ----------

  function Keep(bars: seq<Bar>, expected: set<int>): seq<Bar> {
    if bars == [] then []
    else (if Stamp(bars[0]) in expected then [bars[0]] else []) + Keep(bars[1..], expected)
  }

  function Count(bars: seq<Bar>, stamp: int): nat {
    if bars == [] then 0
    else (if Stamp(bars[0]) == stamp then 1 else 0) + Count(bars[1..], stamp)
  }

  /** The first stamp that occurs again later. */
  function FirstDuplicate(bars: seq<Bar>): Option<int> {
    if bars == [] then None
    else if Count(bars[1..], Stamp(bars[0])) > 0 then Some(Stamp(bars[0]))
    else FirstDuplicate(bars[1..])
  }

  function Insert(bar: Bar, sorted: seq<Bar>): seq<Bar> {
    if sorted == [] || Stamp(bar) <= Stamp(sorted[0]) then [bar] + sorted
    else [sorted[0]] + Insert(bar, sorted[1..])
  }

  function SortByStamp(bars: seq<Bar>): seq<Bar> {
    if bars == [] then [] else Insert(bars[0], SortByStamp(bars[1..]))
  }

  function Actual(bars: seq<Bar>): set<int> {
    set i | 0 <= i < |bars| :: Stamp(bars[i])
  }

  function Validated(bars: seq<Bar>, expected: set<int>): Result<seq<Bar>, Failure> {
    var kept := Keep(bars, expected);
    if FirstDuplicate(kept).Some? then Err(DuplicateBar(FirstDuplicate(kept).value))
    else if expected - Actual(kept) != {} then Err(MissingBars(expected - Actual(kept)))
    else Ok(SortByStamp(kept))
  }

  function StampSet(stamps: seq<int>): set<int> {
    set i | 0 <= i < |stamps| :: stamps[i]
  }

  function ExpectedOf(sessions: seq<Calendar.Session>): set<int> {
    if sessions == [] then {}
    else ExpectedOf(sessions[..|sessions| - 1]) + StampSet(sessions[|sessions| - 1].bars)
  }

  method ValidateIntradayBars(bars: seq<Bar>, sessions: seq<Calendar.Session>) returns (r: Result<seq<Bar>, Failure>)
    ensures r == Validated(bars, ExpectedOf(sessions))
  {
    if sessions == [] {
      KeepNothing(bars);
      return Ok([]);
    }
    var expected: set<int> := {};
    for n := 0 to |sessions|
      invariant expected == ExpectedOf(sessions[..n])
    {
      assert sessions[..n + 1][..n] == sessions[..n];
      var stamps := sessions[n].bars;
      for k := 0 to |stamps|
        invariant expected == ExpectedOf(sessions[..n]) + StampSet(stamps[..k])
      {
        assert stamps[..k + 1] == stamps[..k] + [stamps[k]];
        expected := expected + {stamps[k]};
      }
      assert stamps[..|stamps|] == stamps;
    }
    assert sessions[..|sessions|] == sessions;
    r := Validated(bars, expected);
  }

  lemma KeepNothing(bars: seq<Bar>)
    ensures Validated(bars, {}) == Ok([])
  {
    if bars != [] { KeepNothing(bars[1..]); }
  }

  function ThroughStamp(stamps: seq<int>, through: int): set<int> {
    set i | 0 <= i < |stamps| && stamps[i] <= through :: stamps[i]
  }

  /** The same check for one session, up to a bar. */
  function ValidatedUntil(bars: seq<Bar>, session: Calendar.Session, through: int): Result<seq<Bar>, Failure> {
    Validated(bars, ThroughStamp(session.bars, through))
  }

  ghost predicate Increasing(stamps: seq<int>) {
    forall i, j :: 0 <= i < j < |stamps| ==> stamps[i] < stamps[j]
  }

  ghost predicate SortedBars(bars: seq<Bar>) {
    forall i, j :: 0 <= i < j < |bars| ==> Stamp(bars[i]) <= Stamp(bars[j])
  }

  lemma CountCons(bar: Bar, rest: seq<Bar>, t: int)
    ensures Count([bar] + rest, t) == (if Stamp(bar) == t then 1 else 0) + Count(rest, t)
  {
    assert ([bar] + rest)[1..] == rest;
  }

  lemma {:induction false} InsertContents(bar: Bar, sorted: seq<Bar>)
    ensures multiset(Insert(bar, sorted)) == multiset(sorted) + multiset{bar}
  {
    if sorted != [] && Stamp(bar) > Stamp(sorted[0]) {
      InsertContents(bar, sorted[1..]);
      assert sorted == [sorted[0]] + sorted[1..];
    }
  }

  lemma {:induction false} InsertFacts(bar: Bar, sorted: seq<Bar>)
    requires SortedBars(sorted)
    ensures SortedBars(Insert(bar, sorted))
    ensures multiset(Insert(bar, sorted)) == multiset(sorted) + multiset{bar}
  {
    InsertContents(bar, sorted);
    if sorted != [] && Stamp(bar) > Stamp(sorted[0]) {
      var rest := Insert(bar, sorted[1..]);
      InsertFacts(bar, sorted[1..]);
      forall k | 0 <= k < |rest| ensures Stamp(sorted[0]) <= Stamp(rest[k]) {
        InsertContents(bar, sorted[1..]);
        assert rest[k] in multiset(rest);
        assert rest[k] == bar || rest[k] in sorted[1..];
      }
    }
  }

  lemma {:induction false} InsertCount(bar: Bar, sorted: seq<Bar>, t: int)
    ensures Count(Insert(bar, sorted), t) == Count(sorted, t) + if Stamp(bar) == t then 1 else 0
  {
    if sorted == [] || Stamp(bar) <= Stamp(sorted[0]) {
      CountCons(bar, sorted, t);
    } else {
      InsertCount(bar, sorted[1..], t);
      CountCons(sorted[0], Insert(bar, sorted[1..]), t);
    }
  }

  lemma {:induction false} SortFacts(bars: seq<Bar>)
    ensures SortedBars(SortByStamp(bars))
    ensures multiset(SortByStamp(bars)) == multiset(bars)
  {
    if bars != [] {
      SortFacts(bars[1..]);
      InsertFacts(bars[0], SortByStamp(bars[1..]));
      assert bars == [bars[0]] + bars[1..];
    }
  }

  lemma {:induction false} SortCount(bars: seq<Bar>, t: int)
    ensures Count(SortByStamp(bars), t) == Count(bars, t)
  {
    if bars != [] {
      SortCount(bars[1..], t);
      InsertCount(bars[0], SortByStamp(bars[1..]), t);
    }
  }

  lemma {:induction false} KeepCount(bars: seq<Bar>, expected: set<int>, t: int)
    ensures Count(Keep(bars, expected), t) == if t in expected then Count(bars, t) else 0
  {
    if bars != [] {
      KeepCount(bars[1..], expected, t);
      if Stamp(bars[0]) in expected {
        CountCons(bars[0], Keep(bars[1..], expected), t);
      } else {
        assert [] + Keep(bars[1..], expected) == Keep(bars[1..], expected);
      }
    }
  }

  lemma {:induction false} KeepMembers(bars: seq<Bar>, expected: set<int>, b: Bar)
    ensures b in Keep(bars, expected) <==> b in bars && Stamp(b) in expected
  {
    if bars != [] {
      KeepMembers(bars[1..], expected, b);
    }
  }

  lemma {:induction false} CountZero(bars: seq<Bar>, t: int)
    ensures Count(bars, t) > 0 <==> exists i :: 0 <= i < |bars| && Stamp(bars[i]) == t
  {
    if bars != [] {
      CountZero(bars[1..], t);
      if Count(bars[1..], t) > 0 {
        var i :| 0 <= i < |bars[1..]| && Stamp(bars[1..][i]) == t;
        assert Stamp(bars[i + 1]) == t;
      }
      if exists i :: 0 <= i < |bars| && Stamp(bars[i]) == t {
        var i :| 0 <= i < |bars| && Stamp(bars[i]) == t;
        if i > 0 { assert Stamp(bars[1..][i - 1]) == t; }
      }
    }
  }

  ghost predicate AtMostOnce(bars: seq<Bar>) {
    forall t :: Count(bars, t) <= 1
  }

  lemma {:induction false} NoDuplicateMeans(bars: seq<Bar>)
    ensures FirstDuplicate(bars).None? <==> AtMostOnce(bars)
  {
    if bars != [] {
      var first := Stamp(bars[0]);
      NoDuplicateMeans(bars[1..]);
      assert Count(bars, first) == 1 + Count(bars[1..], first);
      if AtMostOnce(bars) {
        assert Count(bars, first) <= 1;
        forall t ensures Count(bars[1..], t) <= 1 { assert Count(bars, t) <= 1; }
      } else if FirstDuplicate(bars).None? {
        forall t ensures Count(bars, t) <= 1 {
          assert Count(bars[1..], t) <= 1;
        }
      }
    }
  }

  /** Bars are accepted exactly when every expected stamp has exactly one bar. */
  lemma AcceptedExactly(bars: seq<Bar>, expected: set<int>)
    ensures Validated(bars, expected).Ok? <==> forall t :: t in expected ==> Count(bars, t) == 1
  {
    var kept := Keep(bars, expected);
    forall t ensures Count(kept, t) == if t in expected then Count(bars, t) else 0 { KeepCount(bars, expected, t); }
    forall t ensures t in Actual(kept) <==> Count(kept, t) > 0 { CountZero(kept, t); }
    NoDuplicateMeans(kept);
    if Validated(bars, expected).Ok? {
      forall t | t in expected ensures Count(bars, t) == 1 {
        assert t !in expected - Actual(kept);
        assert Count(kept, t) <= 1;
      }
    } else if forall t :: t in expected ==> Count(bars, t) == 1 {
      assert AtMostOnce(kept);
      assert forall t :: t in expected ==> t in Actual(kept);
    }
  }

  lemma {:induction false} DuplicateOccurs(bars: seq<Bar>)
    requires FirstDuplicate(bars).Some?
    ensures Count(bars, FirstDuplicate(bars).value) >= 2
  {
    if Count(bars[1..], Stamp(bars[0])) == 0 {
      DuplicateOccurs(bars[1..]);
    }
  }

  /** What a refusal says: an expected stamp that several bars have, or else exactly the stamps that none has. */
  lemma RejectedExactly(bars: seq<Bar>, expected: set<int>)
    requires Validated(bars, expected).Err?
    ensures var e := Validated(bars, expected).error;
      if e.DuplicateBar? then e.stamp in expected && Count(bars, e.stamp) >= 2
      else
        && e.stamps != {} && (forall t :: t in e.stamps <==> t in expected && Count(bars, t) == 0)
        && forall t :: t in expected ==> Count(bars, t) <= 1
  {
    var kept := Keep(bars, expected);
    forall t ensures Count(kept, t) == if t in expected then Count(bars, t) else 0 { KeepCount(bars, expected, t); }
    forall t ensures t in Actual(kept) <==> Count(kept, t) > 0 { CountZero(kept, t); }
    NoDuplicateMeans(kept);
    if FirstDuplicate(kept).Some? {
      DuplicateOccurs(kept);
    } else {
      forall t | t in expected ensures Count(bars, t) <= 1 {
        assert Count(kept, t) <= 1;
      }
    }
    hide Keep;
    hide FirstDuplicate;
  }

  lemma EmptyStampSet(a: seq<int>)
    ensures a == [] <==> StampSet(a) == {}
  {
    if a != [] { assert a[0] in StampSet(a); }
  }

  lemma {:induction false} SameIncreasing(a: seq<int>, b: seq<int>)
    requires Increasing(a) && Increasing(b) && StampSet(a) == StampSet(b)
    ensures a == b
  {
    EmptyStampSet(a);
    EmptyStampSet(b);
    if a != [] {
      var m, n := |a| - 1, |b| - 1;
      assert a[m] in StampSet(b);
      assert b[n] in StampSet(a);
      assert a[m] == b[n];
      forall t ensures t in StampSet(a[..m]) <==> t in StampSet(b[..n]) {
        InPrefix(a, t);
        InPrefix(b, t);
      }
      SameIncreasing(a[..m], b[..n]);
      assert a == a[..m] + [a[m]] && b == b[..n] + [b[n]];
    }
  }

  lemma InPrefix(a: seq<int>, t: int)
    requires a != [] && Increasing(a)
    ensures t in StampSet(a[..|a| - 1]) <==> t in StampSet(a) && t != a[|a| - 1]
  {
    var k := |a| - 1;
    if t in StampSet(a[..k]) {
      var i :| 0 <= i < k && a[..k][i] == t;
      assert a[i] == t && a[i] < a[k];
    }
    if t in StampSet(a) && t != a[k] {
      var i :| 0 <= i < |a| && a[i] == t;
      assert a[..k][i] == t;
    }
  }

  lemma {:induction false} UniqueBar(bars: seq<Bar>, b: Bar, c: Bar)
    requires b in bars && c in bars && Stamp(b) == Stamp(c) && Count(bars, Stamp(b)) == 1
    ensures b == c
  {
    var t := Stamp(b);
    if Stamp(bars[0]) == t {
      CountZero(bars[1..], t);
      forall i | 1 <= i < |bars| ensures Stamp(bars[i]) != t { assert bars[i] == bars[1..][i - 1]; }
    } else {
      UniqueBar(bars[1..], b, c);
    }
  }

  lemma {:induction false} TwiceCounted(bars: seq<Bar>, i: nat, j: nat)
    requires i < j < |bars|
    ensures Stamp(bars[i]) == Stamp(bars[j]) ==> Count(bars, Stamp(bars[j])) >= 2
  {
    if i == 0 {
      CountZero(bars[1..], Stamp(bars[j]));
      assert bars[1..][j - 1] == bars[j];
    } else {
      TwiceCounted(bars[1..], i - 1, j - 1);
    }
  }

  /** The stamps of sorted bars that hold every expected stamp once and no other. */
  lemma SortedOnce(out: seq<Bar>, expected: set<int>)
    requires SortedBars(out)
    requires forall t :: Count(out, t) == if t in expected then 1 else 0
    ensures Increasing(Stamps(out)) && StampSet(Stamps(out)) == expected
  {
    forall i, j | 0 <= i < j < |out| ensures Stamp(out[i]) < Stamp(out[j]) {
      assert Count(out, Stamp(out[j])) <= 1;
      TwiceCounted(out, i, j);
    }
    forall t ensures t in StampSet(Stamps(out)) <==> t in expected {
      CountZero(out, t);
      assert Count(out, t) == if t in expected then 1 else 0;
      if t in expected {
        var i :| 0 <= i < |out| && Stamp(out[i]) == t;
        assert Stamps(out)[i] == t;
      }
      if t in StampSet(Stamps(out)) {
        var i :| 0 <= i < |Stamps(out)| && Stamps(out)[i] == t;
        assert Stamp(out[i]) == t;
      }
    }
  }

  /**
    Validation is exact: the accepted bars are bars that were given, one per expected stamp
    and in time order, so their stamps are precisely the expected grid.
  */
  lemma ValidationExact(bars: seq<Bar>, grid: seq<int>)
    requires Increasing(grid) && Validated(bars, StampSet(grid)).Ok?
    ensures Stamps(Validated(bars, StampSet(grid)).value) == grid
    ensures forall b :: b in Validated(bars, StampSet(grid)).value <==> b in bars && Stamp(b) in StampSet(grid)
  {
    var expected := StampSet(grid);
    var kept := Keep(bars, expected);
    var out := SortByStamp(kept);
    AcceptedExactly(bars, expected);
    SortFacts(kept);
    forall b ensures b in out <==> b in bars && Stamp(b) in expected {
      KeepMembers(bars, expected, b);
      assert b in out <==> b in multiset(out);
    }
    forall t ensures Count(out, t) == if t in expected then 1 else 0 {
      SortCount(kept, t);
      KeepCount(bars, expected, t);
    }
    SortedOnce(out, expected);
    SameIncreasing(Stamps(out), grid);
  }

  lemma ThroughIsPrefix(grid: seq<int>, through: int, k: nat)
    requires k <= |grid| && forall i :: 0 <= i < |grid| ==> (grid[i] <= through <==> i < k)
    ensures ThroughStamp(grid, through) == StampSet(grid[..k]) <= StampSet(grid)
  {
    var prefix := grid[..k];
    forall t | t in StampSet(prefix) ensures t in ThroughStamp(grid, through) && t in StampSet(grid) {
      var i :| 0 <= i < |prefix| && prefix[i] == t;
      assert grid[i] == t;
    }
    forall t | t in ThroughStamp(grid, through) ensures t in StampSet(prefix) {
      var i :| 0 <= i < |grid| && grid[i] <= through && grid[i] == t;
      assert prefix[i] == t;
    }
  }

  /** Bars accepted for a whole session are accepted up to any stamp, and give the matching prefix. */
  lemma UntilIsPrefix(bars: seq<Bar>, session: Calendar.Session, through: int, k: nat)
    requires Increasing(session.bars) && k <= |session.bars|
    requires forall i :: 0 <= i < |session.bars| ==> (session.bars[i] <= through <==> i < k)
    requires Validated(bars, StampSet(session.bars)).Ok?
    ensures ValidatedUntil(bars, session, through).Ok?
    ensures |Validated(bars, StampSet(session.bars)).value| == |session.bars|
    ensures ValidatedUntil(bars, session, through).value == Validated(bars, StampSet(session.bars)).value[..k]
  {
    var grid := session.bars;
    var prefix := grid[..k];
    ThroughIsPrefix(grid, through, k);
    AcceptedExactly(bars, StampSet(grid));
    AcceptedExactly(bars, StampSet(prefix));
    ValidationExact(bars, grid);
    ValidationExact(bars, prefix);
    var all, some := Validated(bars, StampSet(grid)).value, Validated(bars, StampSet(prefix)).value;
    assert |Stamps(all)| == |all| && |Stamps(some)| == |some|;
    forall i | 0 <= i < k ensures some[i] == all[i] {
      assert Stamps(some)[i] == prefix[i] == grid[i] == Stamps(all)[i];
      assert some[i] in some && all[i] in all;
      assert Stamp(some[i]) in StampSet(grid);
      UniqueBar(bars, some[i], all[i]);
    }
  }

  // ---------- Calendar sessions ----------

  function GridOf(sessions: seq<Calendar.Session>): seq<int> {
    if sessions == [] then [] else GridOf(sessions[..|sessions| - 1]) + sessions[|sessions| - 1].bars
  }

  /** Days in order, each with its bars inside the day and in order. */
  ghost predicate WellOrdered(sessions: seq<Calendar.Session>) {
    && (forall i, j :: 0 <= i < j < |sessions| ==> sessions[i].day < sessions[j].day)
    && forall i :: 0 <= i < |sessions| ==> Increasing(sessions[i].bars) && WithinDay(sessions[i].bars, sessions[i].day)
  }

  ghost predicate WithinDay(stamps: seq<int>, day: int) {
    forall k :: 0 <= k < |stamps| ==>
      day * Calendar.MINUTES_PER_DAY <= stamps[k] < (day + 1) * Calendar.MINUTES_PER_DAY
  }

  lemma {:induction false} GridOfSessions(sessions: seq<Calendar.Session>)
    requires WellOrdered(sessions)
    ensures Increasing(GridOf(sessions))
    ensures StampSet(GridOf(sessions)) == ExpectedOf(sessions)
    ensures sessions != [] ==> forall k :: 0 <= k < |GridOf(sessions)| ==>
      GridOf(sessions)[k] < (sessions[|sessions| - 1].day + 1) * Calendar.MINUTES_PER_DAY
  {
    if sessions != [] {
      var n := |sessions| - 1;
      var before, last := sessions[..n], sessions[n];
      GridOfSessions(before);
      var a, b := GridOf(before), last.bars;
      assert WithinDay(b, last.day) && Increasing(b);
      if n > 0 {
        assert before[n - 1].day < last.day;
        assert (before[n - 1].day + 1) * Calendar.MINUTES_PER_DAY <= last.day * Calendar.MINUTES_PER_DAY;
      }
      SetOfJoin(a, b);
    }
  }

  lemma SetOfJoin(a: seq<int>, b: seq<int>)
    ensures StampSet(a + b) == StampSet(a) + StampSet(b)
  {
    forall t ensures t in StampSet(a + b) <==> t in StampSet(a) + StampSet(b) {
      if t in StampSet(a) {
        var i :| 0 <= i < |a| && a[i] == t;
        assert (a + b)[i] == t;
      }
      if t in StampSet(b) {
        var i :| 0 <= i < |b| && b[i] == t;
        assert (a + b)[|a| + i] == t;
      }
    }
  }

  /** A calendar session has 78 bars, or 42 on an early close, five minutes apart. */
  lemma SessionGrid(day: int)
    requires day >= 1
    ensures var s := Calendar.SessionOn(day);
      && |s.bars| == (if s.early then 42 else 78)
      && Increasing(s.bars) && WithinDay(s.bars, day)
      && forall i :: 0 <= i < |s.bars| ==> s.bars[i] == day * Calendar.MINUTES_PER_DAY + Calendar.REGULAR_OPEN + 5 * i
  {
    Calendar.GridShape(day, Calendar.REGULAR_OPEN, 78);
    Calendar.GridShape(day, Calendar.REGULAR_OPEN, 42);
  }

  lemma CalendarOrdered(first: int, last: int)
    requires first >= 1
    ensures WellOrdered(Calendar.Sessions(first, last))
  {
    var sessions := Calendar.Sessions(first, last);
    Calendar.SessionsComplete(first, last);
    forall i | 0 <= i < |sessions|
      ensures Increasing(sessions[i].bars) && WithinDay(sessions[i].bars, sessions[i].day)
    {
      SessionGrid(sessions[i].day);
    }
  }

  /**
    For any calendar range, bars pass exactly when each expected stamp has one bar, and then
    the output's stamps are the sessions' grids one after the other.
  */
  lemma CalendarValidation(bars: seq<Bar>, first: int, last: int)
    requires first >= 1
    ensures var sessions := Calendar.Sessions(first, last);
      && (Validated(bars, ExpectedOf(sessions)).Ok? <==> forall t :: t in GridOf(sessions) ==> Count(bars, t) == 1)
      && (Validated(bars, ExpectedOf(sessions)).Ok? ==>
            Stamps(Validated(bars, ExpectedOf(sessions)).value) == GridOf(sessions))
  {
    var sessions := Calendar.Sessions(first, last);
    CalendarOrdered(first, last);
    GridOfSessions(sessions);
    AcceptedExactly(bars, ExpectedOf(sessions));
    forall t ensures t in ExpectedOf(sessions) <==> t in GridOf(sessions) {
      assert t in GridOf(sessions) <==> t in StampSet(GridOf(sessions));
    }
    if Validated(bars, ExpectedOf(sessions)).Ok? {
      ValidationExact(bars, GridOf(sessions));
    }
  }

  // ---------- Hourly windows ----------

  const PER_HOUR := 12

  datatype Window = Window(start: int, end: int)

  function Windows(stamps: seq<int>): seq<Window> {
    if |stamps| < PER_HOUR then []
    else [Window(stamps[0], stamps[PER_HOUR - 1])] + Windows(stamps[PER_HOUR..])
  }

  method HourlyWindowsForSession(session: Calendar.Session) returns (windows: seq<Window>)
    ensures windows == Windows(session.bars) && |windows| == |session.bars| / 12
  {
    WindowCount(session.bars);
    var expected := session.bars;
    windows := [];
    var index := 0;
    while index < |expected|
      invariant 0 <= index <= |expected|
      invariant Windows(expected) == windows + Windows(expected[index..])
    {
      var chunk := expected[index..if index + PER_HOUR <= |expected| then index + PER_HOUR else |expected|];
      if |chunk| < PER_HOUR {
        return;
      }
      windows := windows + [Window(chunk[0], chunk[PER_HOUR - 1])];
      assert expected[index..][PER_HOUR..] == expected[index + PER_HOUR..];
      index := index + PER_HOUR;
    }
  }

  lemma {:induction false} WindowAt(stamps: seq<int>, k: nat)
    requires k < |Windows(stamps)|
    ensures PER_HOUR * k + PER_HOUR <= |stamps|
    ensures Windows(stamps)[k] == Window(stamps[PER_HOUR * k], stamps[PER_HOUR * k + PER_HOUR - 1])
  {
    if k > 0 {
      WindowAt(stamps[PER_HOUR..], k - 1);
    }
  }

  /** There is a window for every full hour of bars. */
  lemma {:induction false} WindowCount(stamps: seq<int>)
    ensures |Windows(stamps)| == |stamps| / 12
  {
    if |stamps| >= PER_HOUR {
      WindowCount(stamps[PER_HOUR..]);
    }
  }

  function LatestCompleted(windows: seq<Window>, now: int): Option<Window> {
    if windows == [] then None
    else
      var last := windows[|windows| - 1];
      if last.end + 5 <= now then Some(last) else LatestCompleted(windows[..|windows| - 1], now)
  }

  /** Window k is completed, with every bar up to its end, and no later one of the first n is. */
  ghost predicate IsDue(stamps: seq<int>, n: nat, now: int, k: int, due: Window)
    requires n <= |Windows(stamps)|
  {
    && 0 <= k < n && due == Windows(stamps)[k]
    && PER_HOUR * k + PER_HOUR <= |stamps|
    && (forall i :: 0 <= i < PER_HOUR * k + PER_HOUR ==> stamps[i] + 5 <= now)
    && (forall j :: k < j < n ==> Windows(stamps)[j].end + 5 > now)
  }

  /** A due hourly slot is the last window of the session whose five-minute bars have all completed. */
  lemma {:induction false} DueSlotIsComplete(stamps: seq<int>, n: nat, now: int)
    requires Increasing(stamps) && n <= |Windows(stamps)|
    ensures var due := LatestCompleted(Windows(stamps)[..n], now);
      if due.None? then forall k :: 0 <= k < n ==> Windows(stamps)[k].end + 5 > now
      else exists k :: IsDue(stamps, n, now, k, due.value)
  {
    if n > 0 {
      var all := Windows(stamps);
      assert all[..n][..n - 1] == all[..n - 1];
      WindowAt(stamps, n - 1);
      DueSlotIsComplete(stamps, n - 1, now);
      if all[n - 1].end + 5 <= now {
        assert IsDue(stamps, n, now, n - 1, all[n - 1]);
      } else {
        var due := LatestCompleted(all[..n - 1], now);
        if due.Some? {
          var k :| IsDue(stamps, n - 1, now, k, due.value);
          assert IsDue(stamps, n, now, k, due.value);
        }
      }
    }
  }

  // ---------- Aggregation ----------

  datatype HourBar = HourBar(open: Ticks, high: Ticks, low: Ticks, close: Ticks, volume: nat)

  datatype HourFailure = NotASessionWindow | HourIncomplete

  function InWindow(bars: seq<Bar>, w: Window): seq<Bar> {
    if bars == [] then []
    else if w.start <= Stamp(bars[0]) <= w.end then [bars[0]] + InWindow(bars[1..], w)
    else InWindow(bars[1..], w)
  }

  function FindWindow(windows: seq<Window>, start: int): Option<Window> {
    if windows == [] then None
    else if windows[0].start == start then Some(windows[0])
    else FindWindow(windows[1..], start)
  }

  function MaxHigh(bars: seq<Bar>): Ticks
    requires bars != []
  {
    if |bars| == 1 then bars[0].high
    else if bars[0].high > MaxHigh(bars[1..]) then bars[0].high else MaxHigh(bars[1..])
  }

  function MinLow(bars: seq<Bar>): Ticks
    requires bars != []
  {
    if |bars| == 1 then bars[0].low
    else if bars[0].low < MinLow(bars[1..]) then bars[0].low else MinLow(bars[1..])
  }

  function Volume(bars: seq<Bar>): nat {
    if bars == [] then 0 else bars[0].volume + Volume(bars[1..])
  }

  function Folded(bars: seq<Bar>): HourBar
    requires bars != []
  {
    HourBar(bars[0].open, MaxHigh(bars), MinLow(bars), bars[|bars| - 1].close, Volume(bars))
  }

  function Aggregate(session: Calendar.Session, bars: seq<Bar>, windowStart: int): Result<HourBar, HourFailure> {
    var w := FindWindow(Windows(session.bars), windowStart);
    if w.None? then Err(NotASessionWindow)
    else
      var inside := InWindow(bars, w.value);
      if |inside| != PER_HOUR then Err(HourIncomplete) else Ok(Folded(inside))
  }

  /** Every high is at most the aggregate high, every low at least the aggregate low, and both occur. */
  lemma {:induction false} FoldedRange(bars: seq<Bar>)
    requires bars != []
    ensures forall b :: b in bars ==> MinLow(bars) <= b.low && b.high <= MaxHigh(bars)
    ensures exists b :: b in bars && b.high == MaxHigh(bars)
    ensures exists b :: b in bars && b.low == MinLow(bars)
  {
    if |bars| > 1 {
      FoldedRange(bars[1..]);
      assert bars == [bars[0]] + bars[1..];
      assert bars[0] in bars;
    } else {
      assert bars[0] in bars;
    }
  }

  /** When exactly the bars from lo to hi are inside, the filter is that slice. */
  lemma {:induction false} InWindowSlice(bars: seq<Bar>, lo: nat, hi: nat, w: Window)
    requires lo <= hi <= |bars|
    requires forall i :: 0 <= i < |bars| ==> (w.start <= Stamp(bars[i]) <= w.end <==> lo <= i < hi)
    ensures InWindow(bars, w) == bars[lo..hi]
  {
    if bars != [] {
      var rest := bars[1..];
      var lo', hi' := if lo > 0 then lo - 1 else 0, if hi > 0 then hi - 1 else 0;
      forall i | 0 <= i < |rest| ensures w.start <= Stamp(rest[i]) <= w.end <==> lo' <= i < hi' {
        assert rest[i] == bars[i + 1];
      }
      InWindowSlice(rest, lo', hi', w);
      assert w.start <= Stamp(bars[0]) <= w.end <==> lo <= 0 < hi;
      if lo == 0 < hi {
        assert bars[0..hi] == [bars[0]] + rest[0..hi - 1];
      } else if lo > 0 {
        assert bars[lo..hi] == rest[lo - 1..hi - 1];
      }
    }
  }

  lemma {:induction false} FindWindowAt(windows: seq<Window>, k: nat)
    requires k < |windows| && forall j :: 0 <= j < k ==> windows[j].start != windows[k].start
    ensures FindWindow(windows, windows[k].start) == Some(windows[k])
  {
    if k > 0 {
      FindWindowAt(windows[1..], k - 1);
    }
  }

  lemma WindowFound(grid: seq<int>, k: nat)
    requires Increasing(grid) && k < |Windows(grid)|
    ensures FindWindow(Windows(grid), Windows(grid)[k].start) == Some(Windows(grid)[k])
  {
    WindowAt(grid, k);
    forall j | 0 <= j < k ensures Windows(grid)[j].start != Windows(grid)[k].start { WindowAt(grid, j); }
    FindWindowAt(Windows(grid), k);
  }

  /**
    Aggregating window k over bars validated at least through its end never fails, and uses
    exactly the twelve bars of that hour.
  */
  lemma AggregateValidated(session: Calendar.Session, bars: seq<Bar>, n: nat, k: nat)
    requires Increasing(session.bars) && n <= |session.bars| && Stamps(bars) == session.bars[..n]
    requires k < |Windows(session.bars)| && PER_HOUR * k + PER_HOUR <= n
    ensures |bars| == n
    ensures Aggregate(session, bars, Windows(session.bars)[k].start)
         == Ok(Folded(bars[PER_HOUR * k..PER_HOUR * k + PER_HOUR]))
  {
    var grid, lo, hi := session.bars, PER_HOUR * k, PER_HOUR * k + PER_HOUR;
    assert |bars| == |Stamps(bars)| == n;
    forall i | 0 <= i < n ensures Stamp(bars[i]) == grid[i] { assert Stamps(bars)[i] == grid[..n][i]; }
    WindowAt(grid, k);
    WindowFound(grid, k);
    InWindowSlice(bars, lo, hi, Windows(grid)[k]);
  }

  /** So the hour's bar opens with the first of them, closes with the last, and spans their highs, lows and volume. */
  lemma HourIs(session: Calendar.Session, bars: seq<Bar>, n: nat, k: nat)
    requires Increasing(session.bars) && n <= |session.bars| && Stamps(bars) == session.bars[..n]
    requires k < |Windows(session.bars)| && PER_HOUR * k + PER_HOUR <= n
    ensures |bars| == n
    ensures var r, first, last := Aggregate(session, bars, Windows(session.bars)[k].start), 12 * k, 12 * k + 11;
      && r.Ok?
      && r.value.open == bars[first].open && r.value.close == bars[last].close
      && (forall i :: first <= i <= last ==> r.value.low <= bars[i].low && bars[i].high <= r.value.high)
      && (exists i :: first <= i <= last && bars[i].high == r.value.high)
      && (exists i :: first <= i <= last && bars[i].low == r.value.low)
      && r.value.volume == Volume(bars[first..last + 1])
  {
    AggregateValidated(session, bars, n, k);
    var hour := bars[12 * k..12 * k + 12];
    FoldedRange(hour);
    forall i | 12 * k <= i <= 12 * k + 11 ensures MinLow(hour) <= bars[i].low && bars[i].high <= MaxHigh(hour) {
      assert hour[i - 12 * k] in hour;
    }
    var b :| b in hour && b.high == MaxHigh(hour);
    var i :| 0 <= i < 12 && hour[i] == b;
    assert bars[12 * k + i].high == MaxHigh(hour);
    var c :| c in hour && c.low == MinLow(hour);
    var j :| 0 <= j < 12 && hour[j] == c;
    assert bars[12 * k + j].low == MinLow(hour);
    hide MaxHigh;
    hide MinLow;
    hide Volume;
    hide Aggregate;
    hide Windows;
  }

  /** Some full hour of the session begins at a stamp. */
  ghost predicate Begins(windows: seq<Window>, start: int) {
    exists k :: 0 <= k < |windows| && windows[k].start == start
  }

  lemma {:induction false} FindWindowExactly(windows: seq<Window>, start: int)
    ensures FindWindow(windows, start).Some? <==> Begins(windows, start)
    ensures FindWindow(windows, start).Some? ==>
      FindWindow(windows, start).value in windows && FindWindow(windows, start).value.start == start
  {
    if windows != [] {
      var rest := windows[1..];
      FindWindowExactly(rest, start);
      assert windows == [windows[0]] + rest;
      if windows[0].start != start {
        if Begins(rest, start) {
          var k :| 0 <= k < |rest| && rest[k].start == start;
          assert windows[k + 1].start == start;
        }
        if Begins(windows, start) {
          var k :| 0 <= k < |windows| && windows[k].start == start;
          assert rest[k - 1].start == start;
        }
      }
    }
  }

  /** Aggregation refuses a start that begins no full hour of the session, and an hour without exactly twelve bars. */
  lemma AggregateRefuses(session: Calendar.Session, bars: seq<Bar>, start: int)
    ensures var r, windows := Aggregate(session, bars, start), Windows(session.bars);
      && (r.Err? && r.error.NotASessionWindow? <==> !Begins(windows, start))
      && (r.Err? && r.error.HourIncomplete? ==>
            exists w :: w in windows && w.start == start && |InWindow(bars, w)| != 12)
  {
    FindWindowExactly(Windows(session.bars), start);
    hide Windows;
    hide InWindow;
    hide Begins;
  }

  lemma {:induction false} VolumeJoin(a: seq<Bar>, b: seq<Bar>)
    ensures Volume(a + b) == Volume(a) + Volume(b)
  {
    if a == [] {
      assert a + b == b;
    } else {
      VolumeJoin(a[1..], b);
      assert (a + b)[1..] == a[1..] + b;
    }
  }

  function HourVolumes(session: Calendar.Session, bars: seq<Bar>, hours: nat): nat
    requires hours <= |Windows(session.bars)|
  {
    if hours == 0 then 0
    else
      var r := Aggregate(session, bars, Windows(session.bars)[hours - 1].start);
      HourVolumes(session, bars, hours - 1) + if r.Ok? then r.value.volume else 0
  }

  /** The hourly bars of a validated session account for every share traded in its full hours, once. */
  lemma {:induction false} VolumeConserved(session: Calendar.Session, bars: seq<Bar>, hours: nat)
    requires Increasing(session.bars) && Stamps(bars) == session.bars && hours <= |Windows(session.bars)|
    ensures PER_HOUR * hours <= |bars|
    ensures HourVolumes(session, bars, hours) == Volume(bars[..PER_HOUR * hours])
  {
    assert |bars| == |Stamps(bars)|;
    if hours > 0 {
      var k := hours - 1;
      VolumeConserved(session, bars, k);
      WindowAt(session.bars, k);
      assert session.bars[..|session.bars|] == session.bars;
      AggregateValidated(session, bars, |bars|, k);
      var a, b := bars[..PER_HOUR * k], bars[PER_HOUR * k..PER_HOUR * hours];
      assert bars[..PER_HOUR * hours] == a + b;
      VolumeJoin(a, b);
    }
  }

  /** An hourly window of a calendar session spans 55 minutes between its first and last bar. */
  lemma WindowSpan(day: int, k: nat)
    requires day >= 1 && k < |Windows(Calendar.SessionOn(day).bars)|
    ensures var w := Windows(Calendar.SessionOn(day).bars)[k]; w.end == w.start + 55
  {
    SessionGrid(day);
    WindowAt(Calendar.SessionOn(day).bars, k);
    hide Calendar.SessionOn;
    hide Windows;
  }

  /**
    The hourly path end to end: when a slot is due, the session's bars loaded through 55
    minutes after it aggregate without failure into that hour's bar.
  */
  lemma DueSlotAggregates(bars: seq<Bar>, day: int, now: int)
    requires day >= 1 && Validated(bars, StampSet(Calendar.SessionOn(day).bars)).Ok?
    requires LatestCompleted(Windows(Calendar.SessionOn(day).bars), now).Some?
    ensures var session := Calendar.SessionOn(day);
      var slot := LatestCompleted(Windows(session.bars), now).value.start;
      var loaded := ValidatedUntil(bars, session, slot + 55);
      loaded.Ok? && Aggregate(session, loaded.value, slot).Ok?
  {
    var session := Calendar.SessionOn(day);
    SessionGrid(day);
    var all := Windows(session.bars);
    assert all[..|all|] == all;
    DueSlotIsComplete(session.bars, |all|, now);
    var w := LatestCompleted(all, now).value;
    var k :| IsDue(session.bars, |all|, now, k, w);
    hide *;
    DueWindow(session.bars, |all|, now, k, w);
    WindowSpan(day, k);
    LoadedThroughWindow(bars, session, k);
  }

  lemma DueWindow(grid: seq<int>, n: nat, now: int, k: int, w: Window)
    requires n <= |Windows(grid)| && IsDue(grid, n, now, k, w)
    ensures 0 <= k < |Windows(grid)| && w == Windows(grid)[k]
  {
  }

  lemma LoadedThroughWindow(bars: seq<Bar>, session: Calendar.Session, k: nat)
    requires Increasing(session.bars) && Validated(bars, StampSet(session.bars)).Ok? && k < |Windows(session.bars)|
    ensures var w := Windows(session.bars)[k];
      var loaded := ValidatedUntil(bars, session, w.end);
      loaded.Ok? && Aggregate(session, loaded.value, w.start).Ok?
  {
    var grid := session.bars;
    hide Validated;
    hide ValidatedUntil;
    hide Aggregate;
    hide StampSet;
    WindowAt(grid, k);
    hide Windows;
    var n := PER_HOUR * k + PER_HOUR;
    UntilIsPrefix(bars, session, Windows(grid)[k].end, n);
    ValidationExact(bars, grid);
    var full := Validated(bars, StampSet(grid)).value;
    assert Stamps(full[..n]) == Stamps(full)[..n];
    AggregateValidated(session, full[..n], n, k);
  }
}
