/**
  Step creation as a state machine.  Any number of workers go through the two step runners,
  interleaved at every statement that reads or changes shared state: the status read, the
  advisory try-lock, the RUNNING check, the slot check, the row built on the largest number
  (`Insert`), its flush and commit (`Commit`), the release of the transaction's lock, and the
  later transaction that finishes the step.  Beside them the full-run orchestrator inserts and
  finishes steps without any of these.  Of two rows with one number the database rejects the
  one flushed last: a worker's in `Commit`; a full run's changes nothing and is no act here.
*/
module StepProtocol {
  import opened Common

  type Exp = nat
  type Slot = int

  datatype Trigger = Manual | Scheduled | EventTrigger | Historical

  datatype StepStatus = Running | Completed | Failed

  datatype ExpStatus = Active | Paused | Ended

  /** A paper experiment, or a historical one over so many bars. */
  datatype Kind = Paper | Simulation(bars: nat)

  /** The columns of a step that never change after the insert; the status is kept beside them. */
  datatype Row = Row(exp: Exp, number: int, trigger: Trigger, slot: Slot)

  datatype Job = Job(exp: Exp, trigger: Trigger, slot: Slot)

  /** Where a worker is. */
  datatype Pc =
    | Idle
    | Validated(job: Job)
    | Locked(job: Job)
    | NoneRunning(job: Job)
    | SlotFree(job: Job)
    | Inserted(job: Job, row: Row)
    | Visible(job: Job, step: nat)
    | Working(step: nat)

  datatype State = State(
    kinds: Exp -> Kind,
    status: map<Exp, ExpStatus>,
    rows: seq<Row>, states: seq<StepStatus>,
    locks: map<Exp, nat>,
    workers: seq<Pc>)

  datatype Act =
    | Validate(w: nat, job: Job)
    | TryLock(w: nat)
    | CheckRunning(w: nat)
    | CheckSlot(w: nat)
    | Insert(w: nat)
    | Commit(w: nat)
    | Unlock(w: nat)
    | Finish(w: nat, ok: bool)
    | Crash(w: nat)
    | SetStatus(exp: Exp, to: ExpStatus)
    | FullRunInsert(exp: Exp)
    | FullRunFinish(step: nat, ok: bool)

  // ---------- Repository queries ----------

  predicate HasRunning(s: State, e: Exp) {
    exists i :: 0 <= i < |s.rows| && i < |s.states| && s.rows[i].exp == e && s.states[i] == Running
  }

  predicate HasSlot(rows: seq<Row>, e: Exp, slot: Slot) {
    exists i :: 0 <= i < |rows| && rows[i].exp == e && rows[i].trigger == Scheduled && rows[i].slot == slot
  }

  predicate HasNumber(rows: seq<Row>, e: Exp, number: int) {
    exists i :: 0 <= i < |rows| && rows[i].exp == e && rows[i].number == number
  }

  function MaxNumber(rows: seq<Row>, e: Exp): int {
    if rows == [] then 0
    else
      var last := rows[|rows| - 1];
      var before := MaxNumber(rows[..|rows| - 1], e);
      if last.exp == e && last.number > before then last.number else before
  }

  function Count(rows: seq<Row>, e: Exp): nat {
    if rows == [] then 0
    else Count(rows[..|rows| - 1], e) + if rows[|rows| - 1].exp == e then 1 else 0
  }

  /** A slot not yet taken, or a bar not yet stepped. */
  predicate SomethingLeft(s: State, job: Job) {
    match s.kinds(job.exp)
    case Paper => !(job.trigger == Scheduled && HasSlot(s.rows, job.exp, job.slot))
    case Simulation(bars) => MaxNumber(s.rows, job.exp) < bars
  }

  // ---------- Transitions ----------

  function Release(s: State, w: nat, e: Exp): State
    requires w < |s.workers|
  {
    s.(workers := s.workers[w := Idle],
       locks := if e in s.locks && s.locks[e] == w then s.locks - {e} else s.locks)
  }

  function Goto(s: State, w: nat, pc: Pc): State
    requires w < |s.workers|
  {
    s.(workers := s.workers[w := pc])
  }

  function Append(s: State, row: Row): State {
    s.(rows := s.rows + [row], states := s.states + [Running])
  }

  /** The effect of an act; an act that is not enabled changes nothing. */
  function Apply(s: State, a: Act): State {
    match a
    case Validate(w, job) =>
      if w < |s.workers| && s.workers[w].Idle? && job.exp in s.status && s.status[job.exp] == Active
      then Goto(s, w, Validated(job)) else s
    case TryLock(w) =>
      if w < |s.workers| && s.workers[w].Validated? then
        var job := s.workers[w].job;
        if job.exp in s.locks then Goto(s, w, Idle)
        else Goto(s, w, Locked(job)).(locks := s.locks[job.exp := w])
      else s
    case CheckRunning(w) =>
      if w < |s.workers| && s.workers[w].Locked? then
        var job := s.workers[w].job;
        if HasRunning(s, job.exp) then Release(s, w, job.exp) else Goto(s, w, NoneRunning(job))
      else s
    case CheckSlot(w) =>
      if w < |s.workers| && s.workers[w].NoneRunning? then
        var job := s.workers[w].job;
        match s.kinds(job.exp)
        case Paper =>
          if job.trigger == Scheduled && HasSlot(s.rows, job.exp, job.slot) then Release(s, w, job.exp)
          else Goto(s, w, SlotFree(job))
        case Simulation(bars) =>
          if MaxNumber(s.rows, job.exp) >= bars then Release(s.(status := s.status[job.exp := Ended]), w, job.exp)
          else Goto(s, w, SlotFree(job))
      else s
    case Insert(w) =>
      if w < |s.workers| && s.workers[w].SlotFree? then
        var job := s.workers[w].job;
        Goto(s, w, Inserted(job, Row(job.exp, MaxNumber(s.rows, job.exp) + 1, job.trigger, job.slot)))
      else s
    case Commit(w) =>
      if w < |s.workers| && s.workers[w].Inserted? then
        var Inserted(job, row) := s.workers[w];
        if HasNumber(s.rows, row.exp, row.number) then Release(s, w, job.exp)
        else Goto(Append(s, row), w, Visible(job, |s.rows|))
      else s
    case Unlock(w) =>
      if w < |s.workers| && s.workers[w].Visible? then
        var Visible(job, step) := s.workers[w];
        Goto(Release(s, w, job.exp), w, Working(step))
      else s
    case Finish(w, ok) =>
      if w < |s.workers| && s.workers[w].Working? && s.workers[w].step < |s.states| then
        Goto(s.(states := s.states[s.workers[w].step := if ok then Completed else Failed]), w, Idle)
      else s
    case Crash(w) =>
      if w < |s.workers| then
        match s.workers[w]
        case Idle => s
        case Working(_) => Goto(s, w, Idle)
        case Validated(_) => Goto(s, w, Idle)
        case _ => Release(s, w, s.workers[w].job.exp)
      else s
    case SetStatus(e, to) => s.(status := s.status[e := to])
    case FullRunInsert(e) =>
      Append(s, Row(e, MaxNumber(s.rows, e) + 1, Historical, 0))
    case FullRunFinish(step, ok) =>
      if step < |s.rows| && step < |s.states| && s.rows[step].trigger == Historical
      then s.(states := s.states[step := if ok then Completed else Failed]) else s
  }

  function Run(s: State, acts: seq<Act>): State {
    if acts == [] then s else Apply(Run(s, acts[..|acts| - 1]), acts[|acts| - 1])
  }

  // ---------- Safety ----------

  ghost predicate OneRunning(s: State) {
    && |s.states| == |s.rows|
    && forall i, j :: 0 <= i < j < |s.rows| && s.rows[i].exp == s.rows[j].exp ==>
         s.states[i] != Running || s.states[j] != Running
  }

  ghost predicate SlotsOnce(s: State) {
    forall i, j ::
      (0 <= i < j < |s.rows| && s.rows[i].exp == s.rows[j].exp && s.kinds(s.rows[i].exp) == Paper
       && s.rows[i].trigger == Scheduled && s.rows[j].trigger == Scheduled) ==> s.rows[i].slot != s.rows[j].slot
  }

  /** Each step's number is its place among the steps of its experiment. */
  ghost predicate Numbered(rows: seq<Row>) {
    forall i :: 0 <= i < |rows| ==> rows[i].number == Count(rows[..i], rows[i].exp) + 1
  }

  ghost predicate Holds(s: State, w: nat, e: Exp) {
    e in s.locks && s.locks[e] == w
  }

  /** What a worker at a given point may rely on. */
  ghost predicate WorkerOk(s: State, w: nat)
    requires w < |s.workers|
  {
    match s.workers[w]
    case Idle => true
    case Validated(_) => true
    case Locked(job) => Holds(s, w, job.exp)
    case NoneRunning(job) => Holds(s, w, job.exp) && (HasRunning(s, job.exp) ==> !SomethingLeft(s, job))
    case SlotFree(job) =>
      Holds(s, w, job.exp) && !HasRunning(s, job.exp) && SlotUnused(s, job)
    case Inserted(job, row) =>
      && Holds(s, w, job.exp) && row.exp == job.exp
      && (HasNumber(s.rows, row.exp, row.number) || MayCommit(s, job, row))
    case Visible(job, step) => Holds(s, w, job.exp) && step < |s.rows| && s.rows[step].exp == job.exp
    case Working(step) => step < |s.rows|
  }

  /** A row whose number is still free keeps everything when it becomes visible. */
  ghost predicate MayCommit(s: State, job: Job, row: Row) {
    && !HasRunning(s, job.exp) && SlotUnused(s, job)
    && row == Row(job.exp, Count(s.rows, job.exp) + 1, job.trigger, job.slot)
  }

  ghost predicate SlotUnused(s: State, job: Job) {
    s.kinds(job.exp) == Paper && job.trigger == Scheduled ==> !HasSlot(s.rows, job.exp, job.slot)
  }

  ghost predicate Inv(s: State) {
    && OneRunning(s)
    && SlotsOnce(s)
    && Numbered(s.rows)
    && forall w :: 0 <= w < |s.workers| ==> WorkerOk(s, w)
  }

  lemma {:induction false} MaxIsCount(rows: seq<Row>, e: Exp)
    requires Numbered(rows)
    ensures MaxNumber(rows, e) == Count(rows, e)
  {
    if rows != [] {
      var k := |rows| - 1;
      forall i | 0 <= i < k ensures rows[..k][..i] == rows[..i] {}
      MaxIsCount(rows[..k], e);
      assert rows[k].number == Count(rows[..k], rows[k].exp) + 1;
    }
  }

  lemma {:induction false} NumbersBelow(rows: seq<Row>, e: Exp)
    requires Numbered(rows)
    ensures forall i :: 0 <= i < |rows| && rows[i].exp == e ==> 1 <= rows[i].number <= Count(rows, e)
  {
    if rows != [] {
      var k := |rows| - 1;
      forall i | 0 <= i < k ensures rows[..k][..i] == rows[..i] {}
      NumbersBelow(rows[..k], e);
    }
  }

  /** So the numbers of an experiment's steps are exactly 1..n ... */
  lemma {:induction false} NumbersExact(rows: seq<Row>, e: Exp, number: int)
    requires Numbered(rows)
    ensures HasNumber(rows, e, number) <==> 1 <= number <= Count(rows, e)
  {
    if rows != [] {
      var k := |rows| - 1;
      var prefix := rows[..k];
      forall i | 0 <= i < k ensures prefix[..i] == rows[..i] {}
      NumbersExact(prefix, e, number);
      HasNumberSplit(rows, e, number);
      assert rows[k].number == Count(prefix, rows[k].exp) + 1;
    }
  }

  lemma HasNumberSplit(rows: seq<Row>, e: Exp, number: int)
    requires rows != []
    ensures var k := |rows| - 1;
      HasNumber(rows, e, number) <==> HasNumber(rows[..k], e, number) || (rows[k].exp == e && rows[k].number == number)
  {
    var k := |rows| - 1;
    var prefix := rows[..k];
    if HasNumber(prefix, e, number) {
      var i :| 0 <= i < k && prefix[i].exp == e && prefix[i].number == number;
      assert rows[i].exp == e && rows[i].number == number;
    }
  }

  /** ... and each is used once, in order. */
  lemma NumbersIncrease(rows: seq<Row>, i: nat, j: nat)
    requires Numbered(rows) && i < j < |rows| && rows[i].exp == rows[j].exp
    ensures rows[i].number < rows[j].number
  {
    var prefix := rows[..j];
    forall k | 0 <= k < j ensures prefix[..k] == rows[..k] {}
    NumbersBelow(prefix, rows[j].exp);
    assert prefix[i] == rows[i];
  }

  // ---------- Every act keeps the invariant ----------

  /** A step that leaves rows alone and takes nobody else's lock leaves other workers as they were. */
  ghost predicate OthersKept(s: State, t: State, w: nat) {
    && t.rows == s.rows && t.states == s.states && t.kinds == s.kinds && |t.workers| == |s.workers|
    && (forall v :: 0 <= v < |s.workers| && v != w ==> t.workers[v] == s.workers[v])
    && (forall v, e :: v != w && Holds(s, v, e) ==> Holds(t, v, e))
  }

  lemma QuietKeeps(s: State, t: State, w: nat)
    requires Inv(s) && OthersKept(s, t, w) && w < |s.workers| && WorkerOk(t, w)
    ensures Inv(t)
  {
    forall v | 0 <= v < |t.workers| ensures WorkerOk(t, v) {
      if v != w {
        assert WorkerOk(s, v);
        assert forall e :: HasRunning(t, e) == HasRunning(s, e);
      }
    }
  }

  /** A row of one experiment changes nothing that is asked about another. */
  lemma AppendOther(s: State, row: Row, e: Exp)
    requires |s.states| == |s.rows| && row.exp != e
    ensures HasRunning(Append(s, row), e) == HasRunning(s, e)
    ensures forall slot :: HasSlot(Append(s, row).rows, e, slot) == HasSlot(s.rows, e, slot)
    ensures Count(Append(s, row).rows, e) == Count(s.rows, e)
    ensures MaxNumber(Append(s, row).rows, e) == MaxNumber(s.rows, e)
    ensures forall number :: HasNumber(Append(s, row).rows, e, number) == HasNumber(s.rows, e, number)
  {
    var t := Append(s, row);
    assert t.rows[..|s.rows|] == s.rows;
    forall number ensures HasNumber(t.rows, e, number) == HasNumber(s.rows, e, number) {
      HasNumberSplit(t.rows, e, number);
    }
    if HasRunning(s, e) {
      var i :| 0 <= i < |s.rows| && i < |s.states| && s.rows[i].exp == e && s.states[i] == Running;
      assert t.rows[i].exp == e && t.states[i] == Running;
    }
    forall slot ensures HasSlot(t.rows, e, slot) == HasSlot(s.rows, e, slot) {
      if HasSlot(s.rows, e, slot) {
        var i :| 0 <= i < |s.rows| && s.rows[i].exp == e && s.rows[i].trigger == Scheduled && s.rows[i].slot == slot;
        assert t.rows[i] == s.rows[i];
      }
    }
  }

  lemma AppendOneRunning(s: State, row: Row)
    requires OneRunning(s) && !HasRunning(s, row.exp)
    ensures OneRunning(Append(s, row))
  {
    forall i | 0 <= i < |s.rows| && s.rows[i].exp == row.exp ensures s.states[i] != Running {}
  }

  lemma AppendSlotsOnce(s: State, job: Job, row: Row)
    requires SlotsOnce(s) && SlotUnused(s, job)
    requires row.exp == job.exp && row.trigger == job.trigger && row.slot == job.slot
    ensures SlotsOnce(Append(s, row))
  {
    if s.kinds(job.exp) == Paper && job.trigger == Scheduled {
      forall i | 0 <= i < |s.rows| && s.rows[i].exp == row.exp && s.rows[i].trigger == Scheduled
        ensures s.rows[i].slot != row.slot
      {
      }
    }
  }

  lemma AppendNumbered(rows: seq<Row>, row: Row)
    requires Numbered(rows) && row.number == Count(rows, row.exp) + 1
    ensures Numbered(rows + [row])
  {
    var next := rows + [row];
    forall i | 0 <= i <= |rows| ensures next[..i] == rows[..i] {}
    assert rows[..|rows|] == rows;
  }

  lemma CommitKeeps(s: State, w: nat)
    requires Inv(s)
    ensures Inv(Apply(s, Commit(w)))
  {
    if w < |s.workers| && s.workers[w].Inserted? {
      assert WorkerOk(s, w);
      var row := s.workers[w].row;
      if HasNumber(s.rows, row.exp, row.number) {
        QuietKeeps(s, Apply(s, Commit(w)), w);
      } else {
        VisibleKeeps(s, w);
      }
    }
  }

  lemma VisibleKeeps(s: State, w: nat)
    requires Inv(s) && w < |s.workers| && s.workers[w].Inserted?
    requires MayCommit(s, s.workers[w].job, s.workers[w].row)
    requires !HasNumber(s.rows, s.workers[w].row.exp, s.workers[w].row.number)
    ensures Inv(Apply(s, Commit(w)))
  {
    assert WorkerOk(s, w);
    var Inserted(job, row) := s.workers[w];
    var t := Append(s, row);
    AppendOneRunning(s, row);
    AppendSlotsOnce(s, job, row);
    AppendNumbered(s.rows, row);
    var u := Goto(t, w, Visible(job, |s.rows|));
    assert Apply(s, Commit(w)) == u;
    forall v | 0 <= v < |u.workers| ensures WorkerOk(u, v) {
      if v != w {
        assert WorkerOk(s, v);
        OtherAfterAppend(s, u, row, w, v);
      }
    }
  }

  lemma OtherAfterAppend(s: State, u: State, row: Row, w: nat, v: nat)
    requires |s.states| == |s.rows| && w < |s.workers| && v < |s.workers| && v != w && WorkerOk(s, v)
    requires Holds(s, w, row.exp)
    requires u.rows == Append(s, row).rows && u.states == Append(s, row).states
    requires u.locks == s.locks && u.kinds == s.kinds && |u.workers| == |s.workers| && u.workers[v] == s.workers[v]
    ensures WorkerOk(u, v)
  {
    match s.workers[v] {
      case Idle =>
      case Validated(_) =>
      case Working(_) =>
      case _ =>
        var e := s.workers[v].job.exp;
        AppendOther(s, row, e);
        assert HasRunning(u, e) == HasRunning(Append(s, row), e);
        hide HasRunning;
        hide HasSlot;
        hide HasNumber;
        hide MaxNumber;
        hide Count;
    }
  }

  lemma FinishKeeps(s: State, w: nat, ok: bool)
    requires Inv(s)
    ensures Inv(Apply(s, Finish(w, ok)))
  {
    var t := Apply(s, Finish(w, ok));
    forall e | HasRunning(t, e) ensures HasRunning(s, e) {
      var i :| 0 <= i < |t.rows| && i < |t.states| && t.rows[i].exp == e && t.states[i] == Running;
      assert s.rows[i].exp == e && s.states[i] == Running;
    }
    forall v | 0 <= v < |t.workers| ensures WorkerOk(t, v) {
      assert WorkerOk(s, v);
    }
  }

  lemma FullRunFinishKeeps(s: State, step: nat, ok: bool)
    requires Inv(s)
    ensures Inv(Apply(s, FullRunFinish(step, ok)))
  {
    var t := Apply(s, FullRunFinish(step, ok));
    forall e | HasRunning(t, e) ensures HasRunning(s, e) {
      var i :| 0 <= i < |t.rows| && i < |t.states| && t.rows[i].exp == e && t.states[i] == Running;
      assert s.rows[i].exp == e && s.states[i] == Running;
    }
    forall v | 0 <= v < |t.workers| ensures WorkerOk(t, v) {
      assert WorkerOk(s, v);
    }
  }

  lemma StatusKeeps(s: State, e: Exp, to: ExpStatus)
    requires Inv(s)
    ensures Inv(Apply(s, SetStatus(e, to)))
  {
    var t := Apply(s, SetStatus(e, to));
    forall v | 0 <= v < |t.workers| ensures WorkerOk(t, v) {
      assert WorkerOk(s, v);
    }
  }

  lemma LockKeeps(s: State, w: nat)
    requires Inv(s)
    ensures Inv(Apply(s, TryLock(w)))
  {
    if w < |s.workers| {
      QuietKeeps(s, Apply(s, TryLock(w)), w);
    }
  }

  lemma CheckRunningKeeps(s: State, w: nat)
    requires Inv(s)
    ensures Inv(Apply(s, CheckRunning(w)))
  {
    if w < |s.workers| && s.workers[w].Locked? {
      assert WorkerOk(s, w);
      var t := Apply(s, CheckRunning(w));
      assert HasRunning(t, s.workers[w].job.exp) == HasRunning(s, s.workers[w].job.exp);
      QuietKeeps(s, t, w);
    }
  }

  lemma CheckSlotKeeps(s: State, w: nat)
    requires Inv(s)
    ensures Inv(Apply(s, CheckSlot(w)))
  {
    if w < |s.workers| && s.workers[w].NoneRunning? {
      assert WorkerOk(s, w);
      var t := Apply(s, CheckSlot(w));
      assert HasRunning(t, s.workers[w].job.exp) == HasRunning(s, s.workers[w].job.exp);
      QuietKeeps(s, t, w);
    }
  }

  lemma InsertKeeps(s: State, w: nat)
    requires Inv(s)
    ensures Inv(Apply(s, Insert(w)))
  {
    if w < |s.workers| && s.workers[w].SlotFree? {
      assert WorkerOk(s, w);
      var t := Apply(s, Insert(w));
      MaxIsCount(s.rows, s.workers[w].job.exp);
      assert HasRunning(t, s.workers[w].job.exp) == HasRunning(s, s.workers[w].job.exp);
      QuietKeeps(s, t, w);
    }
  }

  lemma LeaveKeeps(s: State, w: nat, a: Act)
    requires Inv(s) && (a == Unlock(w) || a == Crash(w) || (a.Validate? && a.w == w))
    ensures Inv(Apply(s, a))
  {
    if w < |s.workers| {
      assert WorkerOk(s, w);
      QuietKeeps(s, Apply(s, a), w);
    }
  }

  lemma ActKeeps(s: State, a: Act)
    requires Inv(s) && !a.FullRunInsert?
    ensures Inv(Apply(s, a))
  {
    match a {
      case Commit(w) => CommitKeeps(s, w);
      case Finish(w, ok) => FinishKeeps(s, w, ok);
      case SetStatus(e, to) => StatusKeeps(s, e, to);
      case TryLock(w) => LockKeeps(s, w);
      case CheckRunning(w) => CheckRunningKeeps(s, w);
      case CheckSlot(w) => CheckSlotKeeps(s, w);
      case Insert(w) => InsertKeeps(s, w);
      case Validate(w, _) => LeaveKeeps(s, w, a);
      case Unlock(w) => LeaveKeeps(s, w, a);
      case Crash(w) => LeaveKeeps(s, w, a);
      case FullRunFinish(step, ok) => FullRunFinishKeeps(s, step, ok);
    }
  }

  /** While the runners alone insert, the unique number of every pending insert is free. */
  ghost predicate NumbersFree(s: State) {
    forall w :: 0 <= w < |s.workers| && s.workers[w].Inserted? ==>
      !HasNumber(s.rows, s.workers[w].row.exp, s.workers[w].row.number)
  }

  lemma ActKeepsFree(s: State, a: Act)
    requires Inv(s) && NumbersFree(s) && !a.FullRunInsert?
    ensures NumbersFree(Apply(s, a))
  {
    match a {
      case Insert(w) => InsertKeepsFree(s, w);
      case Commit(w) => CommitKeepsFree(s, w);
      case _ => QuietKeepsFree(s, a);
    }
  }

  lemma QuietKeepsFree(s: State, a: Act)
    requires NumbersFree(s) && !a.FullRunInsert? && !a.Insert? && !a.Commit?
    ensures NumbersFree(Apply(s, a))
  {
    var t := Apply(s, a);
    assert t.rows == s.rows;
    forall w | 0 <= w < |t.workers| && t.workers[w].Inserted? ensures w < |s.workers| && t.workers[w] == s.workers[w] {}
    hide HasNumber;
  }

  lemma InsertKeepsFree(s: State, w: nat)
    requires Inv(s) && NumbersFree(s)
    ensures NumbersFree(Apply(s, Insert(w)))
  {
    if w < |s.workers| && s.workers[w].SlotFree? {
      var e := s.workers[w].job.exp;
      MaxIsCount(s.rows, e);
      NumbersExact(s.rows, e, MaxNumber(s.rows, e) + 1);
    }
    hide HasNumber;
    hide MaxNumber;
    hide Count;
    hide Inv;
  }

  lemma CommitKeepsFree(s: State, w: nat)
    requires Inv(s) && NumbersFree(s)
    ensures NumbersFree(Apply(s, Commit(w)))
  {
    var t := Apply(s, Commit(w));
    if w < |s.workers| && s.workers[w].Inserted? {
      assert !HasNumber(s.rows, s.workers[w].row.exp, s.workers[w].row.number);
      forall v | 0 <= v < |t.workers| && t.workers[v].Inserted?
        ensures !HasNumber(t.rows, t.workers[v].row.exp, t.workers[v].row.number)
      {
        assert WorkerOk(s, v) && WorkerOk(s, w);
        AppendOther(s, s.workers[w].row, s.workers[v].row.exp);
      }
    }
    hide HasNumber;
  }

  ghost predicate Initial(s: State) {
    && s.rows == [] && s.states == [] && s.locks == map[]
    && forall w :: 0 <= w < |s.workers| ==> s.workers[w] == Idle
  }

  ghost predicate ThroughRunners(acts: seq<Act>) {
    forall i :: 0 <= i < |acts| ==> !acts[i].FullRunInsert?
  }

  lemma {:induction false} RunKeeps(s: State, acts: seq<Act>)
    requires Inv(s) && ThroughRunners(acts)
    ensures Inv(Run(s, acts))
    ensures NumbersFree(s) ==> NumbersFree(Run(s, acts))
  {
    if acts != [] {
      var before := Run(s, acts[..|acts| - 1]);
      RunKeeps(s, acts[..|acts| - 1]);
      ActKeeps(before, acts[|acts| - 1]);
      if NumbersFree(s) {
        ActKeepsFree(before, acts[|acts| - 1]);
      }
      hide Inv;
      hide NumbersFree;
      hide Apply;
    }
  }

  /**
    Mutual exclusion and numbering, for any number of workers and any interleaving: at most
    one RUNNING step per experiment, at most one SCHEDULED paper step per experiment and
    slot, step numbers exactly 1..n in order of creation, and the unique constraint on
    (experiment, number) never rejects an insert.
  */
  lemma StepsAreSafe(s: State, acts: seq<Act>)
    requires Initial(s) && ThroughRunners(acts)
    ensures var t := Run(s, acts);
      && OneRunning(t)
      && SlotsOnce(t)
      && (forall e, number :: HasNumber(t.rows, e, number) <==> 1 <= number <= Count(t.rows, e))
      && (forall i, j :: 0 <= i < j < |t.rows| && t.rows[i].exp == t.rows[j].exp ==>
            t.rows[i].number < t.rows[j].number)
      && (forall w :: 0 <= w < |t.workers| && t.workers[w].Inserted? ==>
            !HasNumber(t.rows, t.workers[w].row.exp, t.workers[w].row.number))
  {
    RunKeeps(s, acts);
    var t := Run(s, acts);
    forall e, number ensures HasNumber(t.rows, e, number) <==> 1 <= number <= Count(t.rows, e) {
      NumbersExact(t.rows, e, number);
    }
    forall i, j | 0 <= i < j < |t.rows| && t.rows[i].exp == t.rows[j].exp ensures t.rows[i].number < t.rows[j].number {
      NumbersIncrease(t.rows, i, j);
    }
  }

  // ---------- Progress ----------

  predicate Lockable(s: State, job: Job) {
    job.exp in s.status && s.status[job.exp] == Active && job.exp !in s.locks
  }

  /** What a runner asks for before it creates a step. */
  predicate MayStart(s: State, job: Job) {
    Lockable(s, job) && !HasRunning(s, job.exp) && SomethingLeft(s, job)
  }

  /** The acts of one worker that nobody interrupts. */
  function Creation(w: nat, job: Job): seq<Act> {
    [Validate(w, job), TryLock(w), CheckRunning(w), CheckSlot(w), Insert(w), Commit(w), Unlock(w)]
  }

  /** Rows are as in s, and the worker holds the lock at a given point, or has given up and holds nothing. */
  ghost predicate Reached(s: State, t: State, w: nat, e: Exp, ok: bool, pc: Pc) {
    && t.rows == s.rows && t.states == s.states && t.kinds == s.kinds
    && w < |t.workers| && (ok ==> e !in s.locks)
    && t.workers[w] == (if ok then pc else Idle)
    && t.locks == (if ok then s.locks[e := w] else s.locks)
  }

  lemma LockStage(s: State, w: nat, job: Job)
    requires w < |s.workers| && s.workers[w].Idle?
    ensures Reached(s, Apply(Apply(s, Validate(w, job)), TryLock(w)), w, job.exp, Lockable(s, job), Locked(job))
  {
  }

  lemma RunningStage(s: State, t: State, w: nat, job: Job, ok: bool)
    requires Reached(s, t, w, job.exp, ok, Locked(job))
    ensures Reached(s, Apply(t, CheckRunning(w)), w, job.exp, ok && !HasRunning(s, job.exp), NoneRunning(job))
  {
    assert HasRunning(t, job.exp) == HasRunning(s, job.exp);
    assert ok ==> s.locks[job.exp := w] - {job.exp} == s.locks;
  }

  lemma SlotStage(s: State, t: State, w: nat, job: Job, ok: bool)
    requires Reached(s, t, w, job.exp, ok, NoneRunning(job))
    ensures Reached(s, Apply(t, CheckSlot(w)), w, job.exp, ok && SomethingLeft(s, job), SlotFree(job))
  {
    assert ok ==> s.locks[job.exp := w] - {job.exp} == s.locks;
  }

  function NextRow(s: State, job: Job): Row {
    Row(job.exp, MaxNumber(s.rows, job.exp) + 1, job.trigger, job.slot)
  }

  lemma InsertStage(s: State, t: State, w: nat, job: Job, ok: bool)
    requires Reached(s, t, w, job.exp, ok, SlotFree(job))
    ensures Reached(s, Apply(t, Insert(w)), w, job.exp, ok, Inserted(job, NextRow(s, job)))
  {
  }

  lemma CommitStage(s: State, t: State, w: nat, job: Job, ok: bool)
    requires Reached(s, t, w, job.exp, ok, Inserted(job, NextRow(s, job))) && Numbered(s.rows)
    ensures var u := Apply(Apply(t, Commit(w)), Unlock(w));
      && u.locks == s.locks && w < |u.workers|
      && u.rows == (if ok then s.rows + [NextRow(s, job)] else s.rows)
      && u.states == (if ok then s.states + [Running] else s.states)
      && u.workers[w] == if ok then Working(|s.rows|) else Idle
  {
    MaxIsCount(s.rows, job.exp);
    NumbersExact(s.rows, job.exp, NextRow(s, job).number);
    assert ok ==> s.locks[job.exp := w] - {job.exp} == s.locks;
  }

  lemma FirstActs(s: State, w: nat, job: Job)
    ensures var acts := [Validate(w, job), TryLock(w), CheckRunning(w), CheckSlot(w)];
      && ThroughRunners(acts)
      && Run(s, acts) == Apply(Apply(Apply(Apply(s, Validate(w, job)), TryLock(w)), CheckRunning(w)), CheckSlot(w))
  {
    assert Run(s, []) == s && ThroughRunners([]);
    hide Apply;
    hide Run;
    hide ThroughRunners;
    var acts, t := [], s;
    acts, t := Then(s, acts, t, Validate(w, job));
    acts, t := Then(s, acts, t, TryLock(w));
    acts, t := Then(s, acts, t, CheckRunning(w));
    acts, t := Then(s, acts, t, CheckSlot(w));
    assert acts == [Validate(w, job), TryLock(w), CheckRunning(w), CheckSlot(w)];
  }

  lemma SeveralActs(s: State, w: nat, job: Job)
    ensures Run(s, Creation(w, job))
      == Apply(Apply(Apply(Apply(Apply(Apply(Apply(
           s, Validate(w, job)), TryLock(w)), CheckRunning(w)), CheckSlot(w)), Insert(w)), Commit(w)), Unlock(w))
  {
    hide Apply;
    hide Run;
    hide ThroughRunners;
    FirstActs(s, w, job);
    var acts := [Validate(w, job), TryLock(w), CheckRunning(w), CheckSlot(w)];
    var t := Run(s, acts);
    acts, t := Then(s, acts, t, Insert(w));
    acts, t := Then(s, acts, t, Commit(w));
    acts, t := Then(s, acts, t, Unlock(w));
    assert acts == Creation(w, job);
  }

  /**
    An idle worker that runs undisturbed creates a step if and only if the experiment is
    active and not locked, has no RUNNING step, and a slot (or a bar) is left; the step takes
    the next number, and in any case the locks are as they were.
  */
  lemma UndisturbedWorker(s: State, w: nat, job: Job)
    requires Inv(s) && w < |s.workers| && s.workers[w].Idle?
    ensures var t := Run(s, Creation(w, job));
      && t.locks == s.locks && w < |t.workers|
      && if MayStart(s, job) then
           && t.rows == s.rows + [Row(job.exp, Count(s.rows, job.exp) + 1, job.trigger, job.slot)]
           && t.states == s.states + [Running]
           && t.workers[w] == Working(|s.rows|)
         else t.rows == s.rows && t.states == s.states && t.workers[w] == Idle
  {
    SeveralActs(s, w, job);
    assert Numbered(s.rows);
    hide *;
    NextRowCounts(s, job);
    AllStages(s, w, job);
  }

  /** No step of the experiment is RUNNING. */
  ghost predicate AtRest(s: State, e: Exp)
    requires |s.states| == |s.rows|
  {
    forall i :: 0 <= i < |s.rows| && s.rows[i].exp == e ==> s.states[i] != Running
  }

  /** No scheduled step of the experiment has the slot; other slots, triggers and experiments do not matter. */
  ghost predicate SlotOpen(rows: seq<Row>, e: Exp, slot: Slot) {
    forall i :: 0 <= i < |rows| && rows[i].exp == e && rows[i].trigger == Scheduled ==> rows[i].slot != slot
  }

  /**
    The same from the rows themselves.  An undisturbed worker for a paper experiment adds its
    row if and only if the experiment is active and not locked, none of its steps is RUNNING
    and, for a scheduled job, no scheduled step of it has that very slot; one for a historical
    experiment if and only if, instead of the slot, fewer steps exist than bars.
  */
  lemma CreatesExactly(s: State, w: nat, job: Job)
    requires Inv(s) && w < |s.workers| && s.workers[w].Idle?
    ensures |s.states| == |s.rows|
    ensures var t := Run(s, Creation(w, job));
      var row := Row(job.exp, Count(s.rows, job.exp) + 1, job.trigger, job.slot);
      var creates :=
        && job.exp in s.status && s.status[job.exp] == Active && job.exp !in s.locks
        && AtRest(s, job.exp)
        && match s.kinds(job.exp)
           case Paper => job.trigger == Scheduled ==> SlotOpen(s.rows, job.exp, job.slot)
           case Simulation(bars) => Count(s.rows, job.exp) < bars;
      t.rows == if creates then s.rows + [row] else s.rows
  {
    UndisturbedWorker(s, w, job);
    MaxIsCount(s.rows, job.exp);
    hide Run;
    hide Count;
    hide MaxNumber;
    SlotOpenIs(s.rows, job.exp, job.slot);
    AtRestIs(s, job.exp);
    hide HasRunning;
    hide HasSlot;
    hide WorkerOk;
  }

  lemma SlotOpenIs(rows: seq<Row>, e: Exp, slot: Slot)
    ensures SlotOpen(rows, e, slot) <==> !HasSlot(rows, e, slot)
  {
  }

  lemma AtRestIs(s: State, e: Exp)
    requires |s.states| == |s.rows|
    ensures AtRest(s, e) <==> !HasRunning(s, e)
  {
  }

  lemma NextRowCounts(s: State, job: Job)
    requires Numbered(s.rows)
    ensures NextRow(s, job) == Row(job.exp, Count(s.rows, job.exp) + 1, job.trigger, job.slot)
  {
    MaxIsCount(s.rows, job.exp);
  }

  lemma AllStages(s: State, w: nat, job: Job)
    requires w < |s.workers| && s.workers[w].Idle? && Numbered(s.rows)
    ensures var u := Apply(Apply(Apply(Apply(Apply(Apply(Apply(
        s, Validate(w, job)), TryLock(w)), CheckRunning(w)), CheckSlot(w)), Insert(w)), Commit(w)), Unlock(w));
      && u.locks == s.locks && w < |u.workers|
      && u.rows == (if MayStart(s, job) then s.rows + [NextRow(s, job)] else s.rows)
      && u.states == (if MayStart(s, job) then s.states + [Running] else s.states)
      && u.workers[w] == if MayStart(s, job) then Working(|s.rows|) else Idle
  {
    hide Apply;
    hide Reached;
    hide Numbered;
    hide HasRunning;
    hide SomethingLeft;
    hide Lockable;
    LockStage(s, w, job);
    LaterStages(s, Apply(Apply(s, Validate(w, job)), TryLock(w)), w, job, Lockable(s, job));
  }

  lemma LaterStages(s: State, t: State, w: nat, job: Job, ok: bool)
    requires Reached(s, t, w, job.exp, ok, Locked(job)) && Numbered(s.rows)
    ensures var u := Apply(Apply(Apply(Apply(Apply(
        t, CheckRunning(w)), CheckSlot(w)), Insert(w)), Commit(w)), Unlock(w));
      var made := ok && !HasRunning(s, job.exp) && SomethingLeft(s, job);
      && u.locks == s.locks && w < |u.workers|
      && u.rows == (if made then s.rows + [NextRow(s, job)] else s.rows)
      && u.states == (if made then s.states + [Running] else s.states)
      && u.workers[w] == if made then Working(|s.rows|) else Idle
  {
    hide Apply;
    hide Reached;
    hide Numbered;
    hide HasRunning;
    hide SomethingLeft;
    RunningStage(s, t, w, job, ok);
    var t3 := Apply(t, CheckRunning(w));
    SlotStage(s, t3, w, job, ok && !HasRunning(s, job.exp));
    var t4 := Apply(t3, CheckSlot(w));
    InsertStage(s, t4, w, job, ok && !HasRunning(s, job.exp) && SomethingLeft(s, job));
    CommitStage(s, Apply(t4, Insert(w)), w, job, ok && !HasRunning(s, job.exp) && SomethingLeft(s, job));
  }

  /** The worker is in the transaction that holds the experiment's advisory lock. */
  predicate InSection(pc: Pc, e: Exp) {
    match pc
    case Locked(job) => job.exp == e
    case NoneRunning(job) => job.exp == e
    case SlotFree(job) => job.exp == e
    case Inserted(job, _) => job.exp == e
    case Visible(job, _) => job.exp == e
    case _ => false
  }

  /** A lock is held by a worker in its section, and such a worker holds it. */
  ghost predicate LocksMatch(s: State) {
    && (forall e :: e in s.locks ==> s.locks[e] < |s.workers| && InSection(s.workers[s.locks[e]], e))
    && (forall w, e :: 0 <= w < |s.workers| && InSection(s.workers[w], e) ==> Holds(s, w, e))
  }

  /** Leaving the section releases its lock. */
  lemma ReleaseMatches(s: State, w: nat, e: Exp)
    requires LocksMatch(s) && w < |s.workers| && InSection(s.workers[w], e)
    ensures LocksMatch(Release(s, w, e))
  {
    assert Holds(s, w, e);
    var t := Release(s, w, e);
    forall v, x | 0 <= v < |t.workers| && InSection(t.workers[v], x) ensures Holds(t, v, x) {
      assert v != w && Holds(s, v, x);
    }
  }

  /** Moving on within the section, or outside it, keeps the locks. */
  lemma GotoMatches(s: State, w: nat, pc: Pc)
    requires LocksMatch(s) && w < |s.workers| && forall e :: InSection(pc, e) <==> InSection(s.workers[w], e)
    ensures LocksMatch(Goto(s, w, pc))
  {
    var t := Goto(s, w, pc);
    forall v, x | 0 <= v < |t.workers| && InSection(t.workers[v], x) ensures Holds(t, v, x) {
      assert InSection(s.workers[v], x) && Holds(s, v, x);
    }
  }

  lemma EnterMatches(s: State, w: nat, job: Job)
    requires LocksMatch(s) && w < |s.workers| && s.workers[w].Validated? && job.exp !in s.locks
    ensures LocksMatch(Goto(s, w, Locked(job)).(locks := s.locks[job.exp := w]))
  {
    var t := Goto(s, w, Locked(job)).(locks := s.locks[job.exp := w]);
    forall v, x | 0 <= v < |t.workers| && InSection(t.workers[v], x) ensures Holds(t, v, x) {
      assert v != w ==> Holds(s, v, x);
    }
  }

  /** Only workers and locks matter. */
  lemma SameLocksMatch(s: State, t: State)
    requires LocksMatch(s) && t.workers == s.workers && t.locks == s.locks
    ensures LocksMatch(t)
  {
    forall v, x | 0 <= v < |t.workers| && InSection(t.workers[v], x) ensures Holds(t, v, x) {
      assert Holds(s, v, x);
    }
  }

  lemma LocksMatchStep(s: State, a: Act)
    requires LocksMatch(s)
    ensures LocksMatch(Apply(s, a))
  {
    match a {
      case Commit(w) => CommitMatches(s, w);
      case TryLock(w) =>
        if w < |s.workers| && s.workers[w].Validated? {
          if s.workers[w].job.exp in s.locks {
            GotoMatches(s, w, Idle);
          } else {
            EnterMatches(s, w, s.workers[w].job);
          }
        }
      case CheckRunning(w) =>
        if w < |s.workers| && s.workers[w].Locked? {
          ReleaseMatches(s, w, s.workers[w].job.exp);
          GotoMatches(s, w, NoneRunning(s.workers[w].job));
        }
      case CheckSlot(w) => CheckSlotMatches(s, w);
      case Insert(w) =>
        if w < |s.workers| && s.workers[w].SlotFree? {
          var job := s.workers[w].job;
          GotoMatches(s, w, Inserted(job, Row(job.exp, MaxNumber(s.rows, job.exp) + 1, job.trigger, job.slot)));
        }
      case Unlock(w) =>
        if w < |s.workers| && s.workers[w].Visible? {
          ReleaseMatches(s, w, s.workers[w].job.exp);
          GotoMatches(Release(s, w, s.workers[w].job.exp), w, Working(s.workers[w].step));
        }
      case Finish(w, ok) =>
        if w < |s.workers| && s.workers[w].Working? && s.workers[w].step < |s.states| {
          var t := s.(states := s.states[s.workers[w].step := if ok then Completed else Failed]);
          SameLocksMatch(s, t);
          GotoMatches(t, w, Idle);
        }
      case Crash(w) => CrashMatches(s, w);
      case Validate(w, job) =>
        if w < |s.workers| && s.workers[w].Idle? {
          GotoMatches(s, w, Validated(job));
        }
      case _ => SameLocksMatch(s, Apply(s, a));
    }
    hide LocksMatch;
    hide InSection;
    hide Release;
    hide Goto;
    hide HasRunning;
  }

  lemma CommitMatches(s: State, w: nat)
    requires LocksMatch(s)
    ensures LocksMatch(Apply(s, Commit(w)))
  {
    if w < |s.workers| && s.workers[w].Inserted? {
      var Inserted(job, row) := s.workers[w];
      ReleaseMatches(s, w, job.exp);
      SameLocksMatch(s, Append(s, row));
      GotoMatches(Append(s, row), w, Visible(job, |s.rows|));
      hide LocksMatch;
      hide HasNumber;
    }
  }

  lemma CheckSlotMatches(s: State, w: nat)
    requires LocksMatch(s)
    ensures LocksMatch(Apply(s, CheckSlot(w)))
  {
    if w < |s.workers| && s.workers[w].NoneRunning? {
      var job := s.workers[w].job;
      var ended := s.(status := s.status[job.exp := Ended]);
      ReleaseMatches(s, w, job.exp);
      SameLocksMatch(s, ended);
      ReleaseMatches(ended, w, job.exp);
      GotoMatches(s, w, SlotFree(job));
      hide LocksMatch;
      hide HasSlot;
      hide MaxNumber;
    }
  }

  lemma CrashMatches(s: State, w: nat)
    requires LocksMatch(s)
    ensures LocksMatch(Apply(s, Crash(w)))
  {
    if w < |s.workers| {
      match s.workers[w] {
        case Idle =>
        case Working(_) => GotoMatches(s, w, Idle);
        case Validated(_) => GotoMatches(s, w, Idle);
        case _ => ReleaseMatches(s, w, s.workers[w].job.exp);
      }
    }
    hide LocksMatch;
  }

  /**
    No lock is ever left behind: over any run, crashes, refusals and full runs included, an
    experiment is locked if and only if some worker is between its try-lock and its release.
  */
  lemma {:induction false} NoLockLeaks(s: State, acts: seq<Act>)
    requires Initial(s)
    ensures var t := Run(s, acts);
      && LocksMatch(t)
      && forall e :: e in t.locks <==> exists w :: 0 <= w < |t.workers| && InSection(t.workers[w], e)
  {
    if acts != [] {
      NoLockLeaks(s, acts[..|acts| - 1]);
      LocksMatchStep(Run(s, acts[..|acts| - 1]), acts[|acts| - 1]);
    }
    hide Apply;
  }

  // ---------- What the protocol does not give ----------

  /** Nobody is left to finish step i, which a step runner created. */
  ghost predicate Orphaned(s: State, i: nat) {
    && i < |s.rows| && i < |s.states| && s.states[i] == Running && s.rows[i].trigger != Historical
    && forall w :: 0 <= w < |s.workers| ==>
         !(s.workers[w].Working? && s.workers[w].step == i) && !(s.workers[w].Visible? && s.workers[w].step == i)
  }

  lemma OrphanStays(s: State, a: Act, i: nat)
    requires Inv(s) && !a.FullRunInsert? && Orphaned(s, i)
    ensures Orphaned(Apply(s, a), i)
    ensures Apply(s, a).rows[i].exp == s.rows[i].exp
    ensures Count(Apply(s, a).rows, s.rows[i].exp) == Count(s.rows, s.rows[i].exp)
  {
    match a {
      case Commit(w) =>
        if w < |s.workers| && s.workers[w].Inserted? {
          assert WorkerOk(s, w);
          OrphanStaysAtCommit(s, w, i);
        }
      case Finish(w, _) =>
        assert Apply(s, a).rows == s.rows;
      case SetStatus(_, _) =>
        assert Apply(s, a).rows == s.rows;
      case FullRunFinish(_, _) =>
        assert Apply(s, a).rows == s.rows;
      case Validate(w, _) => OrphanStaysQuiet(s, a, w, i);
      case TryLock(w) => OrphanStaysQuiet(s, a, w, i);
      case CheckRunning(w) => OrphanStaysQuiet(s, a, w, i);
      case CheckSlot(w) => OrphanStaysQuiet(s, a, w, i);
      case Insert(w) => OrphanStaysQuiet(s, a, w, i);
      case Unlock(w) => OrphanStaysQuiet(s, a, w, i);
      case Crash(w) => OrphanStaysQuiet(s, a, w, i);
    }
  }

  lemma OrphanStaysQuiet(s: State, a: Act, w: nat, i: nat)
    requires Orphaned(s, i)
    requires a == TryLock(w) || a == CheckRunning(w) || a == CheckSlot(w) || a == Insert(w) || a == Unlock(w)
      || a == Crash(w) || (a.Validate? && a.w == w)
    ensures Orphaned(Apply(s, a), i) && Apply(s, a).rows == s.rows
  {
  }

  lemma OrphanStaysAtCommit(s: State, w: nat, i: nat)
    requires |s.states| == |s.rows| && Orphaned(s, i) && w < |s.workers| && s.workers[w].Inserted? && WorkerOk(s, w)
    ensures Orphaned(Apply(s, Commit(w)), i)
    ensures Apply(s, Commit(w)).rows[i].exp == s.rows[i].exp
    ensures Count(Apply(s, Commit(w)).rows, s.rows[i].exp) == Count(s.rows, s.rows[i].exp)
  {
    var Inserted(job, row) := s.workers[w];
    assert HasRunning(s, s.rows[i].exp);
    if HasNumber(s.rows, row.exp, row.number) {
      assert Apply(s, Commit(w)) == Release(s, w, job.exp);
    } else {
      AppendOther(s, row, s.rows[i].exp);
    }
  }

  /**
    A worker that dies after its commit, as an event step does on an exception, blocks its
    experiment for good: no act of any runner ever adds another step to it.
  */
  lemma {:induction false} OrphanBlocksForever(s: State, acts: seq<Act>, i: nat)
    requires Inv(s) && ThroughRunners(acts) && Orphaned(s, i)
    ensures Orphaned(Run(s, acts), i)
    ensures Run(s, acts).rows[i].exp == s.rows[i].exp
    ensures Count(Run(s, acts).rows, s.rows[i].exp) == Count(s.rows, s.rows[i].exp)
  {
    if acts != [] {
      var prefix := acts[..|acts| - 1];
      RunKeeps(s, prefix);
      OrphanBlocksForever(s, prefix, i);
      OrphanStays(Run(s, prefix), acts[|acts| - 1], i);
    }
  }

  function WorkerOf(a: Act): Option<nat> {
    match a
    case SetStatus(_, _) => None
    case FullRunInsert(_) => None
    case FullRunFinish(_, _) => None
    case _ => Some(a.w)
  }

  /** A worker's acts move no other worker. */
  lemma {:induction false} OthersStand(s: State, acts: seq<Act>, w: nat)
    requires forall i :: 0 <= i < |acts| ==> WorkerOf(acts[i]) == Some(w)
    ensures |Run(s, acts).workers| == |s.workers|
    ensures forall v :: 0 <= v < |s.workers| && v != w ==> Run(s, acts).workers[v] == s.workers[v]
  {
    if acts != [] {
      OthersStand(s, acts[..|acts| - 1], w);
      OneStands(Run(s, acts[..|acts| - 1]), acts[|acts| - 1], w);
      hide Apply;
      hide WorkerOf;
    }
  }

  lemma OneStands(s: State, a: Act, w: nat)
    requires WorkerOf(a) == Some(w)
    ensures |Apply(s, a).workers| == |s.workers|
    ensures forall v :: 0 <= v < |s.workers| && v != w ==> Apply(s, a).workers[v] == s.workers[v]
  {
    hide HasRunning;
    hide HasSlot;
    hide HasNumber;
    hide MaxNumber;
  }

  lemma InitialInv(s: State)
    requires Initial(s)
    ensures Inv(s) && NumbersFree(s)
  {
  }

  /** An orphan is reached in eight acts: a worker creates a step undisturbed and dies. */
  lemma OrphanReachable(s: State, job: Job) returns (acts: seq<Act>)
    requires Initial(s) && |s.workers| > 0 && MayStart(s, job) && job.trigger != Historical
    ensures ThroughRunners(acts) && Orphaned(Run(s, acts), 0) && Run(s, acts).rows[0].exp == job.exp
  {
    InitialInv(s);
    var t := Run(s, Creation(0, job));
    UndisturbedWorker(s, 0, job);
    OthersStand(s, Creation(0, job), 0);
    acts := Creation(0, job) + [Crash(0)];
    assert acts[..|acts| - 1] == Creation(0, job);
    hide Run;
    hide MayStart;
    assert Apply(t, Crash(0)) == Goto(t, 0, Idle);
  }

  /** The outcome an act gives step i: its own worker's, or a full run's for a historical step. */
  function Outcome(s: State, a: Act, i: nat): Option<bool> {
    match a
    case Finish(w, ok) =>
      if w < |s.workers| && s.workers[w] == Working(i) && i < |s.states| then Some(ok) else None
    case FullRunFinish(step, ok) =>
      if step == i && i < |s.rows| && i < |s.states| && s.rows[i].trigger == Historical then Some(ok) else None
    case _ => None
  }

  /** The last outcome a step was given in a run. */
  function LastOutcome(s: State, acts: seq<Act>, i: nat): Option<bool> {
    if acts == [] then None
    else
      var k := |acts| - 1;
      var outcome := Outcome(Run(s, acts[..k]), acts[k], i);
      if outcome.Some? then outcome else LastOutcome(s, acts[..k], i)
  }

  lemma OutcomeStep(s: State, a: Act, i: nat)
    requires |s.rows| == |s.states|
    ensures var t, outcome := Apply(s, a), Outcome(s, a, i);
      && |t.rows| == |t.states| && |s.rows| <= |t.rows| && t.rows[..|s.rows|] == s.rows
      && (i < |t.rows| ==>
            t.states[i] == if outcome.Some? then (if outcome.value then Completed else Failed)
                           else if i < |s.rows| then s.states[i] else Running)
      && (i >= |s.rows| ==> outcome.None?)
  {
    hide HasRunning;
    hide HasSlot;
    hide HasNumber;
    hide MaxNumber;
  }

  /**
    A step is RUNNING until its own worker finishes it, or for a historical step a full run, and
    then COMPLETED or FAILED as that said, over any run; rows once visible never change.
  */
  lemma {:induction false} StepsEndAsFinished(s: State, acts: seq<Act>, i: nat)
    requires Initial(s)
    ensures var t, outcome := Run(s, acts), LastOutcome(s, acts, i);
      && |t.rows| == |t.states|
      && (acts != [] ==> Run(s, acts[..|acts| - 1]).rows <= t.rows)
      && if i < |t.rows| then
           t.states[i] == (match outcome case None => Running case Some(ok) => if ok then Completed else Failed)
         else outcome.None?
  {
    if acts != [] {
      var k := |acts| - 1;
      StepsEndAsFinished(s, acts[..k], i);
      OutcomeStep(Run(s, acts[..k]), acts[k], i);
      hide Apply;
      hide Outcome;
    }
  }

  /** The status an act writes for an experiment; a runner that finds no bar left ends it. */
  function Writes(s: State, a: Act, e: Exp): Option<ExpStatus> {
    match a
    case SetStatus(exp, to) => if exp == e then Some(to) else None
    case CheckSlot(w) =>
      if w < |s.workers| && s.workers[w].NoneRunning? && s.workers[w].job.exp == e
         && s.kinds(e).Simulation? && !SomethingLeft(s, s.workers[w].job)
      then Some(Ended) else None
    case _ => None
  }

  /** The last status written for an experiment from act n on, if any was. */
  function LastWrite(s: State, acts: seq<Act>, n: nat, e: Exp): Option<ExpStatus> {
    if |acts| <= n then None
    else
      var k := |acts| - 1;
      var write := Writes(Run(s, acts[..k]), acts[k], e);
      if write.Some? then write else LastWrite(s, acts[..k], n, e)
  }

  /** The worker is between its status read for a job and the end of that attempt. */
  predicate Attempting(pc: Pc, job: Job) {
    match pc
    case Validated(j) => j == job
    case Locked(j) => j == job
    case NoneRunning(j) => j == job
    case SlotFree(j) => j == job
    case Inserted(j, _) => j == job
    case _ => false
  }

  /** Act n is the status read of worker w's attempt, and the status is what was last written since, if anything. */
  ghost predicate ReadAt(s: State, acts: seq<Act>, w: nat, job: Job, n: nat) {
    && n < |acts| && acts[n] == Validate(w, job)
    && (forall k :: n < k <= |acts| ==> var t := Run(s, acts[..k]); w < |t.workers| && Attempting(t.workers[w], job))
    && job.exp in Run(s, acts).status
    && Run(s, acts).status[job.exp] == LastWrite(s, acts, n + 1, job.exp).GetOr(Active)
  }

  lemma StatusAfter(s: State, a: Act, e: Exp)
    requires e in s.status
    ensures e in Apply(s, a).status && Apply(s, a).status[e] == Writes(s, a, e).GetOr(s.status[e])
  {
    hide HasRunning;
    hide HasSlot;
    hide HasNumber;
    hide MaxNumber;
  }

  /** A worker enters an attempt only by its status read, which finds the experiment active. */
  lemma AttemptStarts(s: State, a: Act, w: nat, job: Job)
    requires w < |Apply(s, a).workers| && Attempting(Apply(s, a).workers[w], job)
    ensures w < |s.workers|
    ensures !Attempting(s.workers[w], job) ==>
      a == Validate(w, job) && job.exp in s.status && s.status[job.exp] == Active && Apply(s, a).status == s.status
  {
    hide HasRunning;
    hide HasSlot;
    hide HasNumber;
    hide MaxNumber;
  }

  lemma {:induction false} AttemptRead(s: State, acts: seq<Act>, w: nat, job: Job) returns (n: nat)
    requires Initial(s) && w < |Run(s, acts).workers| && Attempting(Run(s, acts).workers[w], job)
    ensures ReadAt(s, acts, w, job, n)
  {
    var k := |acts| - 1;
    StartIdle(s, acts, w, job);
    var before := Run(s, acts[..k]);
    AttemptStarts(before, acts[k], w, job);
    assert acts[..|acts|] == acts;
    if Attempting(before.workers[w], job) {
      n := AttemptRead(s, acts[..k], w, job);
      ReadLater(s, acts, w, job, n);
    } else {
      n := k;
      assert LastWrite(s, acts, n + 1, job.exp) == None;
      hide Apply;
    }
  }

  lemma StartIdle(s: State, acts: seq<Act>, w: nat, job: Job)
    requires Initial(s) && w < |Run(s, acts).workers| && Attempting(Run(s, acts).workers[w], job)
    ensures acts != []
  {
  }

  lemma ReadLater(s: State, acts: seq<Act>, w: nat, job: Job, n: nat)
    requires acts != [] && ReadAt(s, acts[..|acts| - 1], w, job, n)
    requires w < |Run(s, acts).workers| && Attempting(Run(s, acts).workers[w], job)
    ensures ReadAt(s, acts, w, job, n)
  {
    var k := |acts| - 1;
    var prefix := acts[..k];
    StatusAfter(Run(s, prefix), acts[k], job.exp);
    hide Apply;
    hide Writes;
    hide Attempting;
    forall m | n < m <= |acts| ensures var t := Run(s, acts[..m]); w < |t.workers| && Attempting(t.workers[w], job) {
      if m <= k {
        assert prefix[..m] == acts[..m];
      } else {
        assert acts[..m] == acts;
      }
    }
  }

  /**
    Exactly when a step starts on an experiment that is no longer active, over any run, full
    runs included: a commit makes a worker's step visible while the status is not ACTIVE if
    and only if, after that worker's own status read, the last act to write the status wrote
    another one.  With no write in that window the experiment is active.
  */
  lemma PauseMissedExactly(s: State, acts: seq<Act>, w: nat, job: Job) returns (n: nat)
    requires Initial(s) && w < |Run(s, acts).workers|
    requires Run(s, acts).workers[w].Inserted? && Run(s, acts).workers[w].job == job
    requires Apply(Run(s, acts), Commit(w)).workers[w].Visible?
    ensures ReadAt(s, acts, w, job, n)
    ensures var t, write := Apply(Run(s, acts), Commit(w)), LastWrite(s, acts, n + 1, job.exp);
      && HasRunning(t, job.exp) && job.exp in t.status
      && (t.status[job.exp] != Active <==> write.Some? && write.value != Active)
  {
    n := AttemptRead(s, acts, w, job);
    CommitShows(s, acts, w);
    hide Run;
    hide LastWrite;
    hide HasNumber;
  }

  lemma CommitShows(s: State, acts: seq<Act>, w: nat)
    requires Initial(s) && w < |Run(s, acts).workers| && Run(s, acts).workers[w].Inserted?
    requires Apply(Run(s, acts), Commit(w)).workers[w].Visible?
    ensures var u, t := Run(s, acts), Apply(Run(s, acts), Commit(w));
      t.status == u.status && HasRunning(t, u.workers[w].job.exp)
  {
    var u := Run(s, acts);
    var t := Apply(u, Commit(w));
    RowsKept(s, acts, w);
    hide Run;
    assert t.rows[|u.rows|].exp == u.workers[w].job.exp && t.states[|u.rows|] == Running;
  }

  ghost predicate Paired(s: State, w: nat) {
    && |s.rows| == |s.states|
    && (w < |s.workers| && s.workers[w].Inserted? ==> s.workers[w].row.exp == s.workers[w].job.exp)
  }

  /** Rows and states stay paired, and a pending row is for its job's experiment, with full runs too. */
  lemma {:induction false} RowsKept(s: State, acts: seq<Act>, w: nat)
    requires Initial(s)
    ensures var u := Run(s, acts);
      Paired(u, w)
  {
    if acts != [] {
      RowsKept(s, acts[..|acts| - 1], w);
      RowsStep(Run(s, acts[..|acts| - 1]), acts[|acts| - 1], w);
      hide Apply;
    }
  }

  lemma RowsStep(u: State, a: Act, w: nat)
    requires Paired(u, w)
    ensures var t := Apply(u, a);
      Paired(t, w)
  {
    hide HasRunning;
    hide HasSlot;
    hide HasNumber;
    hide MaxNumber;
  }

  /** The status read precedes the lock, so a pause can land in between and the step still starts. */
  lemma PauseCanBeMissed(s: State, job: Job) returns (acts: seq<Act>)
    requires Initial(s) && |s.workers| > 0 && job.exp in s.status && s.status[job.exp] == Active
    requires s.kinds(job.exp) == Paper
    ensures ThroughRunners(acts) && HasRunning(Run(s, acts), job.exp)
    ensures job.exp in Run(s, acts).status && Run(s, acts).status[job.exp] == Paused
  {
    assert Run(s, []) == s && ThroughRunners([]);
    PausedBeforeLock(s, job);
    CheckedStarts(Apply(Apply(Apply(s, Validate(0, job)), SetStatus(job.exp, Paused)), TryLock(0)), job);
    hide Apply;
    hide Run;
    hide ThroughRunners;
    hide HasRunning;
    acts := [];
    var t := s;
    acts, t := Then(s, acts, t, Validate(0, job));
    acts, t := Then(s, acts, t, SetStatus(job.exp, Paused));
    acts, t := Then(s, acts, t, TryLock(0));
    acts, t := Then(s, acts, t, CheckRunning(0));
    acts, t := Then(s, acts, t, CheckSlot(0));
    acts, t := Then(s, acts, t, Insert(0));
    acts, t := Then(s, acts, t, Commit(0));
  }

  lemma PausedBeforeLock(s: State, job: Job)
    requires Initial(s) && |s.workers| > 0 && job.exp in s.status && s.status[job.exp] == Active
    ensures LockedAt(Apply(Apply(Apply(s, Validate(0, job)), SetStatus(job.exp, Paused)), TryLock(0)), job)
    ensures Apply(Apply(Apply(s, Validate(0, job)), SetStatus(job.exp, Paused)), TryLock(0)).kinds == s.kinds
  {
  }

  ghost predicate LockedAt(t: State, job: Job) {
    && t.rows == [] && t.states == [] && |t.workers| > 0 && t.workers[0] == Locked(job)
    && job.exp in t.status && t.status[job.exp] == Paused
  }

  lemma CheckedStarts(t: State, job: Job)
    requires LockedAt(t, job) && t.kinds(job.exp) == Paper
    ensures var u := Apply(Apply(Apply(Apply(t, CheckRunning(0)), CheckSlot(0)), Insert(0)), Commit(0));
      HasRunning(u, job.exp) && job.exp in u.status && u.status[job.exp] == Paused
  {
    var t1 := Apply(t, CheckRunning(0));
    assert t1 == Goto(t, 0, NoneRunning(job));
    var t2 := Apply(t1, CheckSlot(0));
    assert t2 == Goto(t1, 0, SlotFree(job));
    var t3 := Apply(t2, Insert(0));
    assert t3 == Goto(t2, 0, Inserted(job, Row(job.exp, 1, job.trigger, job.slot)));
    var u := Apply(t3, Commit(0));
    assert u.rows[0].exp == job.exp && u.states[0] == Running;
  }

  lemma Then(s: State, acts: seq<Act>, t: State, a: Act) returns (acts': seq<Act>, t': State)
    requires t == Run(s, acts) && ThroughRunners(acts) && !a.FullRunInsert?
    ensures acts' == acts + [a] && t' == Apply(t, a) == Run(s, acts') && ThroughRunners(acts')
  {
    acts', t' := acts + [a], Apply(t, a);
    assert acts'[..|acts|] == acts;
  }

  /** The full run inserts without lock or check: at once that is harmless exactly when nothing is RUNNING. */
  lemma FullRunInsertExactly(s: State, e: Exp)
    requires OneRunning(s)
    ensures OneRunning(Apply(s, FullRunInsert(e))) <==> !HasRunning(s, e)
  {
    var t := Apply(s, FullRunInsert(e));
    if HasRunning(s, e) {
      var i :| 0 <= i < |s.rows| && i < |s.states| && s.rows[i].exp == e && s.states[i] == Running;
      assert t.rows[i].exp == t.rows[|s.rows|].exp && t.states[i] == Running && t.states[|s.rows|] == Running;
    } else {
      AppendOneRunning(s, t.rows[|s.rows|]);
    }
  }

  /** Worker w has passed its RUNNING check for e, and will still find its slot or bar. */
  predicate PastCheckAt(s: State, e: Exp, w: nat) {
    w < |s.workers|
    && match s.workers[w]
       case NoneRunning(job) => job.exp == e && SomethingLeft(s, job)
       case SlotFree(job) => job.exp == e
       case _ => false
  }

  ghost predicate PastCheck(s: State, e: Exp) {
    exists w :: 0 <= w < |s.workers| && PastCheckAt(s, e, w)
  }

  /** Without such a worker the insert keeps the invariant; a row not yet flushed is rejected for its number. */
  lemma FullRunInsertKeeps(s: State, e: Exp)
    requires Inv(s) && !HasRunning(s, e) && !PastCheck(Apply(s, FullRunInsert(e)), e)
    ensures Inv(Apply(s, FullRunInsert(e)))
  {
    var row := Row(e, MaxNumber(s.rows, e) + 1, Historical, 0);
    var t := Append(s, row);
    assert Apply(s, FullRunInsert(e)) == t;
    assert OneRunning(s) && SlotsOnce(s) && Numbered(s.rows);
    MaxIsCount(s.rows, e);
    AppendOneRunning(s, row);
    AppendNumbered(s.rows, row);
    HistoricalSlots(s, row);
    AllBesideFullRun(s, t, row);
    hide OneRunning;
    hide SlotsOnce;
    hide Numbered;
    hide WorkerOk;
    hide HasRunning;
    hide PastCheck;
  }

  lemma HistoricalSlots(s: State, row: Row)
    requires SlotsOnce(s) && row.trigger == Historical
    ensures SlotsOnce(Append(s, row))
  {
  }

  lemma AllBesideFullRun(s: State, t: State, row: Row)
    requires |s.states| == |s.rows| && t == Append(s, row) && row.number == Count(s.rows, row.exp) + 1
    requires !PastCheck(t, row.exp) && forall v :: 0 <= v < |s.workers| ==> WorkerOk(s, v)
    ensures forall v :: 0 <= v < |t.workers| ==> WorkerOk(t, v)
  {
    assert t.rows[|s.rows|] == row;
    assert HasNumber(t.rows, row.exp, row.number);
    hide WorkerOk;
    hide PastCheckAt;
    hide Count;
    hide HasNumber;
    forall v | 0 <= v < |t.workers| ensures WorkerOk(t, v) {
      assert WorkerOk(s, v) && !PastCheckAt(t, row.exp, v);
      BesideFullRun(s, t, row, v);
    }
  }

  lemma BesideFullRun(s: State, t: State, row: Row, v: nat)
    requires |s.states| == |s.rows| && v < |s.workers| && WorkerOk(s, v) && t == Append(s, row)
    requires row.number == Count(s.rows, row.exp) + 1 && HasNumber(t.rows, row.exp, row.number)
    requires !PastCheckAt(t, row.exp, v)
    ensures WorkerOk(t, v)
  {
    match s.workers[v] {
      case Idle =>
      case Validated(_) =>
      case Locked(_) =>
      case Working(_) =>
      case Visible(_, _) =>
      case NoneRunning(job) =>
        if job.exp != row.exp { AppendOther(s, row, job.exp); }
      case SlotFree(job) =>
        AppendOther(s, row, job.exp);
      case Inserted(job, pending) =>
        if job.exp != row.exp {
          AppendOther(s, row, job.exp);
        } else if HasNumber(s.rows, pending.exp, pending.number) {
          HasNumberSplit(t.rows, pending.exp, pending.number);
          assert t.rows[..|s.rows|] == s.rows;
        }
    }
    hide HasRunning;
    hide HasSlot;
    hide HasNumber;
    hide MaxNumber;
    hide Count;
  }

  /** With one, its next acts make a second RUNNING step. */
  lemma PastCheckBreaks(s: State, e: Exp, w: nat) returns (acts: seq<Act>)
    requires Inv(s) && !HasRunning(s, e) && w < |s.workers| && PastCheckAt(Apply(s, FullRunInsert(e)), e, w)
    ensures ThroughRunners(acts) && !OneRunning(Run(Apply(s, FullRunInsert(e)), acts))
  {
    var t := Apply(s, FullRunInsert(e));
    FullRunRow(s, e);
    acts := if t.workers[w].NoneRunning? then [CheckSlot(w), Insert(w), Commit(w)] else [Insert(w), Commit(w)];
    var before := if t.workers[w].NoneRunning? then Apply(t, CheckSlot(w)) else t;
    ReachesSlotFree(t, w, e);
    hide Apply;
    hide Run;
    hide HasRunning;
    hide PastCheckAt;
    TwoActs(t, w);
    ThreeActs(t, w);
    InsertCommits(before, w, e);
  }

  lemma FullRunRow(s: State, e: Exp)
    requires Inv(s)
    ensures var t := Apply(s, FullRunInsert(e));
      HasRunning(t, e) && Numbered(t.rows) && |t.states| == |t.rows| && t.workers == s.workers
  {
    var t := Apply(s, FullRunInsert(e));
    assert t.rows[|s.rows|].exp == e && t.states[|s.rows|] == Running;
    MaxIsCount(s.rows, e);
    AppendNumbered(s.rows, t.rows[|s.rows|]);
  }

  lemma ReachesSlotFree(t: State, w: nat, e: Exp)
    requires PastCheckAt(t, e, w) && HasRunning(t, e)
    ensures var u := if t.workers[w].NoneRunning? then Apply(t, CheckSlot(w)) else t;
      && u.rows == t.rows && u.states == t.states && HasRunning(u, e)
      && w < |u.workers| && u.workers[w].SlotFree? && u.workers[w].job.exp == e
  {
    var u := if t.workers[w].NoneRunning? then Apply(t, CheckSlot(w)) else t;
    assert u.rows == t.rows && u.states == t.states;
    var i :| 0 <= i < |t.rows| && i < |t.states| && t.rows[i].exp == e && t.states[i] == Running;
    assert u.rows[i].exp == e && u.states[i] == Running;
    hide HasSlot;
    hide MaxNumber;
  }

  lemma TwoActs(t: State, w: nat)
    ensures var acts := [Insert(w), Commit(w)];
      ThroughRunners(acts) && Run(t, acts) == Apply(Apply(t, Insert(w)), Commit(w))
  {
    assert Run(t, []) == t && ThroughRunners([]);
    hide Apply;
    hide Run;
    hide ThroughRunners;
    var done, u := [], t;
    done, u := Then(t, done, u, Insert(w));
    done, u := Then(t, done, u, Commit(w));
    assert done == [Insert(w), Commit(w)];
  }

  lemma ThreeActs(t: State, w: nat)
    ensures var acts := [CheckSlot(w), Insert(w), Commit(w)];
      ThroughRunners(acts) && Run(t, acts) == Apply(Apply(Apply(t, CheckSlot(w)), Insert(w)), Commit(w))
  {
    assert Run(t, []) == t && ThroughRunners([]);
    hide Apply;
    hide Run;
    hide ThroughRunners;
    var done, u := [], t;
    done, u := Then(t, done, u, CheckSlot(w));
    done, u := Then(t, done, u, Insert(w));
    done, u := Then(t, done, u, Commit(w));
    assert done == [CheckSlot(w), Insert(w), Commit(w)];
  }

  /** A worker whose slot is free inserts and commits whatever is RUNNING. */
  lemma InsertCommits(s: State, w: nat, e: Exp)
    requires w < |s.workers| && s.workers[w].SlotFree? && s.workers[w].job.exp == e && Numbered(s.rows)
    requires |s.states| == |s.rows| && HasRunning(s, e)
    ensures !OneRunning(Apply(Apply(s, Insert(w)), Commit(w)))
  {
    var u := Apply(Apply(s, Insert(w)), Commit(w));
    MaxIsCount(s.rows, e);
    NumbersExact(s.rows, e, MaxNumber(s.rows, e) + 1);
    hide HasSlot;
    hide MaxNumber;
    hide Count;
    hide HasNumber;
    var i :| 0 <= i < |s.rows| && i < |s.states| && s.rows[i].exp == e && s.states[i] == Running;
    assert u.rows[i].exp == u.rows[|s.rows|].exp && u.states[i] == Running && u.states[|s.rows|] == Running;
  }

  /** What a full run would have to ask for before it inserts. */
  ghost predicate SafeInsert(s: State, e: Exp) {
    !HasRunning(s, e) && !PastCheck(Apply(s, FullRunInsert(e)), e)
  }

  /**
    Exactly when a full run's insert beside the step runners is safe.  From any reachable
    state, no continuation of the runners ever has two RUNNING steps if and only if, when the
    full run inserts, the experiment has none and no worker for it is between its RUNNING check
    and its insert with a slot or bar still to find.
  */
  lemma FullRunSafeExactly(s: State, e: Exp)
    requires Inv(s)
    ensures (forall acts :: ThroughRunners(acts) ==> OneRunning(Run(Apply(s, FullRunInsert(e)), acts)))
      <==> SafeInsert(s, e)
  {
    var t := Apply(s, FullRunInsert(e));
    FullRunInsertExactly(s, e);
    assert Run(t, []) == t && ThroughRunners([]);
    if !HasRunning(s, e) {
      if PastCheck(t, e) {
        var w :| 0 <= w < |t.workers| && PastCheckAt(t, e, w);
        var acts := PastCheckBreaks(s, e, w);
      } else {
        FullRunInsertKeeps(s, e);
        forall acts | ThroughRunners(acts) ensures OneRunning(Run(t, acts)) {
          RunKeeps(t, acts);
        }
      }
    }
    hide Apply;
    hide Run;
    hide HasRunning;
    hide PastCheckAt;
  }

  /** Every insert of a full run, of any experiment, is safe at the moment it is made. */
  ghost predicate InsertsSafe(s: State, acts: seq<Act>) {
    forall i :: 0 <= i < |acts| && acts[i].FullRunInsert? ==> SafeInsert(Run(s, acts[..i]), acts[i].exp)
  }

  lemma InsertsSafeLast(s: State, acts: seq<Act>)
    requires acts != []
    ensures var k := |acts| - 1;
      InsertsSafe(s, acts)
      <==> InsertsSafe(s, acts[..k]) && (acts[k].FullRunInsert? ==> SafeInsert(Run(s, acts[..k]), acts[k].exp))
  {
    var k := |acts| - 1;
    hide SafeInsert;
    hide Run;
    forall i | 0 <= i < k ensures acts[..k][..i] == acts[..i] && acts[..k][i] == acts[i] {}
    if InsertsSafe(s, acts) {
      forall i | 0 <= i < k && acts[..k][i].FullRunInsert?
        ensures SafeInsert(Run(s, acts[..k][..i]), acts[..k][i].exp)
      {
        assert acts[i].FullRunInsert?;
      }
    }
  }

  /** Full runs whose inserts are safe keep everything the step runners keep. */
  lemma {:induction false} SafeInsertsKeep(s: State, acts: seq<Act>)
    requires Inv(s) && InsertsSafe(s, acts)
    ensures Inv(Run(s, acts))
  {
    if acts != [] {
      var k := |acts| - 1;
      InsertsSafeLast(s, acts);
      SafeInsertsKeep(s, acts[..k]);
      if acts[k].FullRunInsert? {
        FullRunInsertKeeps(Run(s, acts[..k]), acts[k].exp);
      } else {
        ActKeeps(Run(s, acts[..k]), acts[k]);
      }
    }
    hide Inv;
    hide InsertsSafe;
    hide PastCheck;
    hide HasRunning;
    hide Apply;
  }

  /** Nothing the runners can do from any point of the run makes a second RUNNING step. */
  ghost predicate NeverTwo(s: State, acts: seq<Act>) {
    forall k, more :: 0 <= k <= |acts| && ThroughRunners(more) ==> OneRunning(Run(Run(s, acts[..k]), more))
  }

  /**
    Whole full runs, which insert once for every bar, beside the step runners and each other:
    over any interleaving, no point of it and no continuation of the runners has two RUNNING
    steps if and only if every insert was safe when it was made.
  */
  lemma {:induction false} FullRunsSafeExactly(s: State, acts: seq<Act>)
    requires Inv(s)
    ensures NeverTwo(s, acts) <==> InsertsSafe(s, acts)
  {
    NoActsSafe(s);
    hide *;
    if InsertsSafe(s, acts) {
      SafeNeverTwo(s, acts);
    } else if acts != [] {
      var k := |acts| - 1;
      FullRunsSafeExactly(s, acts[..k]);
      InsertsSafeLast(s, acts);
      if NeverTwo(s, acts) {
        NeverTwoBefore(s, acts);
        SafeInsertsKeep(s, acts[..k]);
        LastInsertSafe(s, acts);
      }
    }
  }

  lemma NoActsSafe(s: State)
    ensures InsertsSafe(s, [])
  {
  }

  lemma SafeNeverTwo(s: State, acts: seq<Act>)
    requires Inv(s) && InsertsSafe(s, acts)
    ensures NeverTwo(s, acts)
  {
    forall k, more | 0 <= k <= |acts| && ThroughRunners(more) ensures OneRunning(Run(Run(s, acts[..k]), more)) {
      SafePrefix(s, acts, k);
      SafeInsertsKeep(s, acts[..k]);
      RunKeeps(Run(s, acts[..k]), more);
    }
    hide InsertsSafe;
    hide Run;
    hide ThroughRunners;
    hide OneRunning;
  }

  lemma SafePrefix(s: State, acts: seq<Act>, k: nat)
    requires k <= |acts| && InsertsSafe(s, acts)
    ensures InsertsSafe(s, acts[..k])
  {
    hide SafeInsert;
    hide Run;
    forall i | 0 <= i < k && acts[..k][i].FullRunInsert?
      ensures SafeInsert(Run(s, acts[..k][..i]), acts[..k][i].exp)
    {
      assert acts[..k][..i] == acts[..i] && acts[i].FullRunInsert?;
    }
  }

  lemma NeverTwoBefore(s: State, acts: seq<Act>)
    requires acts != [] && NeverTwo(s, acts)
    ensures NeverTwo(s, acts[..|acts| - 1])
  {
    hide OneRunning;
    hide Run;
    hide ThroughRunners;
    var prefix := acts[..|acts| - 1];
    forall k, more | 0 <= k <= |prefix| && ThroughRunners(more) ensures OneRunning(Run(Run(s, prefix[..k]), more)) {
      assert prefix[..k] == acts[..k];
    }
  }

  lemma LastInsertSafe(s: State, acts: seq<Act>)
    requires acts != [] && NeverTwo(s, acts) && Inv(Run(s, acts[..|acts| - 1]))
    ensures var k := |acts| - 1;
      acts[k].FullRunInsert? ==> SafeInsert(Run(s, acts[..k]), acts[k].exp)
  {
    var k := |acts| - 1;
    var before := Run(s, acts[..k]);
    assert acts[..|acts|] == acts && Run(s, acts) == Apply(before, acts[k]);
    if acts[k].FullRunInsert? {
      FullRunSafeExactly(before, acts[k].exp);
    }
    hide Apply;
    hide Run;
    hide OneRunning;
    hide ThroughRunners;
    hide SafeInsert;
    hide Inv;
  }

  /** A worker that has found its slot is past its check, before any full run. */
  lemma PastCheckReachable(s: State, job: Job) returns (acts: seq<Act>)
    requires Initial(s) && |s.workers| > 0 && MayStart(s, job)
    ensures ThroughRunners(acts) && Inv(Run(s, acts))
    ensures !HasRunning(Run(s, acts), job.exp) && !SafeInsert(Run(s, acts), job.exp)
  {
    acts := [Validate(0, job), TryLock(0), CheckRunning(0), CheckSlot(0)];
    InitialInv(s);
    FirstActs(s, 0, job);
    RunKeeps(s, acts);
    SlotReached(s, job);
    SlotFreeIsPast(Run(s, acts), job);
    hide *;
  }

  lemma SlotReached(s: State, job: Job)
    requires Initial(s) && |s.workers| > 0 && MayStart(s, job)
    ensures var t := Apply(Apply(Apply(Apply(s, Validate(0, job)), TryLock(0)), CheckRunning(0)), CheckSlot(0));
      t.rows == [] && |t.workers| > 0 && t.workers[0] == SlotFree(job)
  {
    var t2 := Apply(Apply(s, Validate(0, job)), TryLock(0));
    LockStage(s, 0, job);
    RunningStage(s, t2, 0, job, true);
    SlotStage(s, Apply(t2, CheckRunning(0)), 0, job, true);
    hide Apply;
    hide HasRunning;
    hide SomethingLeft;
    hide Lockable;
  }

  lemma SlotFreeIsPast(t: State, job: Job)
    requires t.rows == [] && |t.workers| > 0 && t.workers[0] == SlotFree(job)
    ensures !HasRunning(t, job.exp) && !SafeInsert(t, job.exp)
  {
    assert PastCheckAt(Apply(t, FullRunInsert(job.exp)), job.exp, 0);
  }

  /** So a full run beside a worker, on an experiment with no RUNNING step, can make a second one. */
  lemma FullRunBesideWorker(s: State, job: Job) returns (acts: seq<Act>, more: seq<Act>)
    requires Initial(s) && |s.workers| > 0 && MayStart(s, job)
    ensures ThroughRunners(acts) && ThroughRunners(more) && !HasRunning(Run(s, acts), job.exp)
    ensures !OneRunning(Run(Apply(Run(s, acts), FullRunInsert(job.exp)), more))
  {
    acts := PastCheckReachable(s, job);
    var t := Run(s, acts);
    FullRunSafeExactly(t, job.exp);
    more :| ThroughRunners(more) && !OneRunning(Run(Apply(t, FullRunInsert(job.exp)), more));
    hide *;
  }
}
