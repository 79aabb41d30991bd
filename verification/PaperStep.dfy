/**
  Paper steps over the tables they write.  A step reads the account, computes its RiskCheck,
  commits it, and only then may call the broker; an exception can come from everything that
  can raise, and rolls back what the current transaction has written but never a call.
*/
module PaperStep {
  import opened Common
  import opened Decimals
  import opened Risk
  import opened Ledger
  import opened Sizing

  /**
    `Reraised` stands for the four application errors the step runner passes on untouched, which
    its own code raises only before a step is created; `AgentConfiguration` also fails the
    experiment; all others only fail the step.
  */
  datatype Exn = Reraised | AgentConfiguration | OtherError

  /** A rule-based action, or an agent's action with its target. */
  datatype Decision = Ruled(action: Action) | Targeted(action: Action, target: Option<real>)

  datatype Seen = Seen(decision: Decision, price: real)

  /** What the outside world does during one step. */
  datatype Inputs = Inputs(
    adapter: Option<Exn>,               // building the broker adapter
    creation: Option<Exn>,              // validation, lock and insert
    seen: Result<Seen, Exn>,            // the bar and the decision on it
    checked: Option<Exn>,               // storing the decision and the RiskCheck
    reopened: Option<Exn>,              // the second transaction, before the provider
    broker: Result<BrokerResult, Exn>,  // place_order
    finished: Option<Exn>,              // the rest of the last transaction, through its commit
    handled: bool)                      // the failure handler's own transaction commits

  datatype StepStatus = StepRunning | StepCompleted | StepFailed

  datatype CheckRow = CheckRow(step: nat, result: RiskResult)

  /** The step and RiskCheck columns of an order; they lie beside the orders of the account. */
  datatype OrderLink = OrderLink(step: nat, check: nat)

  datatype Call = Call(step: nat, check: nat, side: Side, quantity: real)

  /** The tables of one experiment. */
  datatype Db = Db(book: Book, steps: seq<StepStatus>, checks: seq<CheckRow>, links: seq<OrderLink>, failed: bool)

  /** The committed tables, and the calls the broker has received. */
  datatype State = State(db: Db, calls: seq<Call>)

  function Start(capital: Money): State {
    State(Db(NewBook(capital), [], [], [], false), [])
  }

  // ---------- The two guards ----------

  function Account(b: Book): Holdings {
    Holdings(b.cash, Some(b.position), Some(b.value))
  }

  /** The RiskCheck of a decision on the account as it stands. */
  function CheckOn(d: Decision, b: Book, price: real): RiskResult {
    match d
    case Ruled(action) => Evaluate(action, Account(b), price)
    case Targeted(action, target) => EvaluateTargetExposure(action, target, Account(b), price)
  }

  /** The runner's guard: whether a broker transaction is opened at all. */
  predicate RequiresBroker(r: RiskResult) {
    r.approved && (r.action == Buy || r.action == Sell) && r.quantity.Some? && r.quantity.value > 0.0
  }

  /** The provider's own guard. */
  predicate Applicable(r: RiskResult) {
    !(!r.approved || r.action == Hold || r.quantity.None? || r.quantity.value <= 0.0)
  }

  predicate Existing(links: seq<OrderLink>, step: nat, check: nat) {
    exists i :: 0 <= i < |links| && (links[i].step == step || links[i].check == check)
  }

  function SideFor(action: Action): Side {
    if action == Buy then BuySide else SellSide
  }

  /** A rejected order or a status the broker protocol does not know. */
  predicate ControlledFailure(r: BrokerResult) {
    r.status == WordRejected || r.status == OtherWord
  }

  /** A check asks for an order exactly when it is no HOLD; it sells no more than is held; both guards read it alike. */
  lemma GuardsAgree(d: Decision, b: Book, price: real)
    ensures var r := CheckOn(d, b, price);
      && r.approved
      && (RequiresBroker(r) <==> r.action != Hold)
      && (Applicable(r) <==> RequiresBroker(r))
      && (r.action == Sell ==> r.quantity.Some? && r.quantity.value <= b.position)
  {
    hide WholeShares;
    hide Gap;
    hide PortfolioValue;
    hide Worth;
  }

  // ---------- One step ----------

  /** How the work after creation ends. */
  datatype Ending = Returned(failed: bool) | Raised(exn: Exn)

  /** What is committed, what was called, and how it ended. */
  datatype Effect = Effect(db: Db, calls: seq<Call>, ending: Ending)

  /** The end of a step's last transaction. */
  function Close(db: Db, step: nat, failed: bool): Db
    requires step < |db.steps|
  {
    db.(steps := db.steps[step := if failed then StepFailed else StepCompleted], failed := db.failed || failed)
  }

  function Work(db: Db, step: nat, w: Inputs): Effect
    requires step < |db.steps|
  {
    if w.seen.Err? then Effect(db, [], Raised(w.seen.error))
    else
      var r := CheckOn(w.seen.value.decision, db.book, w.seen.value.price);
      var checked := db.(checks := db.checks + [CheckRow(step, r)]);
      if w.checked.Some? then Effect(db, [], Raised(w.checked.value))
      else if RequiresBroker(r) then BrokerWork(checked, step, |db.checks|, r, w.seen.value.price, w)
      else if w.finished.Some? then Effect(db, [], Raised(w.finished.value))
      else Effect(Close(checked.(book := Revalue(db.book, w.seen.value.price)), step, false), [], Returned(false))
  }

  function BrokerWork(db: Db, step: nat, check: nat, r: RiskResult, price: real, w: Inputs): Effect
    requires step < |db.steps|
  {
    if w.reopened.Some? then Effect(db, [], Raised(w.reopened.value))
    else if !Applicable(r) || Existing(db.links, step, check) then
      if w.finished.Some? then Effect(db, [], Raised(w.finished.value))
      else Effect(Close(db.(book := Revalue(db.book, price)), step, false), [], Returned(false))
    else
      var call := Call(step, check, SideFor(r.action), r.quantity.value);
      if w.broker.Err? then Effect(db, [call], Raised(w.broker.error))
      else if w.finished.Some? then Effect(db, [call], Raised(w.finished.value))
      else
        var failed := ControlledFailure(w.broker.value);
        var book := Submit(db.book, w.broker.value, price);
        var ordered := db.(book := book, links := db.links + [OrderLink(step, check)]);
        Effect(Close(ordered, step, failed), [call], Returned(failed))
  }

  /** A step is created when nothing raises, the experiment is running and no step of it is. */
  predicate Creates(s: State, w: Inputs) {
    w.adapter.None? && w.creation.None? && !s.db.failed && StepRunning !in s.db.steps
  }

  /** The exception that stops a step before it is created. */
  function EarlyExn(w: Inputs): Exn {
    if w.adapter.Some? then w.adapter.value else if w.creation.Some? then w.creation.value else Reraised
  }

  function Created(db: Db): Db {
    db.(steps := db.steps + [StepRunning])
  }

  function AfterWork(s: State, w: Inputs): State {
    var e := Work(Created(s.db), |s.db.steps|, w);
    State(e.db, s.calls + e.calls)
  }

  /** The failure handler, in a transaction of its own. */
  function Handled(s: State, step: Option<nat>, exn: Exn, w: Inputs): State {
    if exn == Reraised || !w.handled then s
    else
      var steps := if step.Some? && step.value < |s.db.steps| then s.db.steps[step.value := StepFailed] else s.db.steps;
      s.(db := s.db.(steps := steps, failed := s.db.failed || exn == AgentConfiguration))
  }

  /** run_next_step: every exception but the re-raised four reaches the failure handler. */
  function NextStep(s: State, w: Inputs): State {
    if !Creates(s, w) then Handled(s, None, EarlyExn(w), w)
    else
      var ending := Work(Created(s.db), |s.db.steps|, w).ending;
      if ending.Raised? then Handled(AfterWork(s, w), Some(|s.db.steps|), ending.exn, w) else AfterWork(s, w)
  }

  /** run_event_step: no failure handler. */
  function EventStep(s: State, w: Inputs): State {
    if Creates(s, w) then AfterWork(s, w) else s
  }

  // ---------- What the tables say about the calls ----------

  /** A call carries out a committed check of its own step: approved, same side, same positive quantity. */
  predicate Authorised(db: Db, c: Call) {
    && c.check < |db.checks| && c.step < |db.steps|
    && db.checks[c.check].step == c.step
    && RequiresBroker(db.checks[c.check].result)
    && c.side == SideFor(db.checks[c.check].result.action)
    && db.checks[c.check].result.quantity == Some(c.quantity)
    && c.quantity > 0.0
  }

  predicate CalledFor(calls: seq<Call>, step: nat) {
    exists i :: 0 <= i < |calls| && calls[i].step == step
  }

  predicate OrderedFor(links: seq<OrderLink>, step: nat) {
    exists i :: 0 <= i < |links| && links[i].step == step
  }

  /** Every call is authorised and the only one of its step; every order row belongs to a call. */
  ghost predicate Gated(s: State) {
    && (forall i :: 0 <= i < |s.calls| ==> Authorised(s.db, s.calls[i]))
    && (forall i, j :: 0 <= i < j < |s.calls| ==> s.calls[i].step != s.calls[j].step)
    && |s.db.links| == |s.db.book.orders|
    && (forall i :: 0 <= i < |s.db.links| ==>
          && s.db.links[i].step < |s.db.steps| && s.db.links[i].check < |s.db.checks|
          && CalledFor(s.calls, s.db.links[i].step))
    && (forall i, j :: 0 <= i < j < |s.db.links| ==> s.db.links[i].step != s.db.links[j].step)
  }

  // ---------- The runner ----------

  class PaperRunner {
    var db: Db
    var calls: seq<Call>

    ghost function Contents(): State
      reads this
    {
      State(db, calls)
    }

    constructor (capital: Money)
      ensures Contents() == Start(capital) && Gated(Contents())
    {
      db, calls := Db(NewBook(capital), [], [], [], false), [];
    }

    /** The new step is RUNNING, no row or call names it yet, and everything else is as before. */
    method CreateStep() returns (id: nat)
      requires Gated(Contents())
      modifies this`db
      ensures db == Created(old(db)) && Gated(Contents())
      ensures id == |old(db).steps| && db.steps[id] == StepRunning
      ensures !CalledFor(calls, id) && !OrderedFor(db.links, id)
    {
      id := |db.steps|;
      db := db.(steps := db.steps + [StepRunning]);
    }

    /** The broker is only ever called on a committed check that asks for exactly this order, once per step. */
    method PlaceOrder(c: Call, w: Inputs) returns (answer: Result<BrokerResult, Exn>)
      requires Authorised(db, c) && !CalledFor(calls, c.step)
      modifies this`calls
      ensures calls == old(calls) + [c] && answer == w.broker
    {
      calls := calls + [c];
      answer := w.broker;
    }

    static method FindOrder(links: seq<OrderLink>, step: nat, check: nat) returns (found: bool)
      ensures found == Existing(links, step, check)
      ensures !found <==> forall i :: 0 <= i < |links| ==> links[i].step != step && links[i].check != check
    {
      for i := 0 to |links|
        invariant forall j :: 0 <= j < i ==> links[j].step != step && links[j].check != check
      {
        if links[i].step == step || links[i].check == check {
          return true;
        }
      }
      found := false;
    }

    /** The provider: its guard, its lookup, the call, the order row and the fill. */
    method ExecuteIfApplicable(tx: Db, step: nat, check: nat, r: RiskResult, w: Inputs)
      returns (out: Result<Db, Exn>, answer: Option<BrokerResult>)
      requires tx == db && step < |db.steps| && check < |db.checks| && db.checks[check] == CheckRow(step, r)
      requires RequiresBroker(r) && !CalledFor(calls, step)
      modifies this`calls
      ensures Existing(tx.links, step, check) ==> out == Ok(tx) && answer == None && calls == old(calls)
      ensures !Existing(tx.links, step, check) ==>
        calls == old(calls) + [Call(step, check, SideFor(r.action), r.quantity.value)]
      ensures !Existing(tx.links, step, check) && w.broker.Err? ==> out == Err(w.broker.error) && answer == None
      ensures !Existing(tx.links, step, check) && w.broker.Ok? ==>
        && answer == Some(w.broker.value)
        && out == Ok(tx.(book := Place(tx.book, w.broker.value), links := tx.links + [OrderLink(step, check)]))
    {
      answer := None;
      if !r.approved || r.action == Hold || r.quantity.None? || r.quantity.value <= 0.0 {
        return Ok(tx), None;
      }
      var existing := FindOrder(tx.links, step, check);
      if existing {
        return Ok(tx), None;
      }
      var placed := PlaceOrder(Call(step, check, SideFor(r.action), r.quantity.value), w);
      if placed.Err? {
        return Err(placed.error), None;
      }
      out := Ok(tx.(book := Place(tx.book, placed.value), links := tx.links + [OrderLink(step, check)]));
      answer := Some(placed.value);
    }

    method RunBrokerExecution(step: nat, check: nat, r: RiskResult, price: real, w: Inputs) returns (ending: Ending)
      requires step < |db.steps| && check < |db.checks| && db.checks[check] == CheckRow(step, r)
      requires RequiresBroker(r) && !CalledFor(calls, step)
      modifies this
      ensures var e := BrokerWork(old(db), step, check, r, price, w);
        db == e.db && calls == old(calls) + e.calls && ending == e.ending
    {
      if w.reopened.Some? {
        return Raised(w.reopened.value);
      }
      var out, answer := ExecuteIfApplicable(db, step, check, r, w);
      if out.Err? {
        return Raised(out.error);
      }
      var tx := out.value;
      tx := tx.(book := Revalue(tx.book, price));
      if w.finished.Some? {
        return Raised(w.finished.value);
      }
      var failed := answer.Some? && ControlledFailure(answer.value);
      db := Close(tx, step, failed);
      ending := Returned(failed);
    }

    method RunStepArtifacts(step: nat, w: Inputs) returns (ending: Ending)
      requires step < |db.steps| && !CalledFor(calls, step)
      modifies this
      ensures var e := Work(old(db), step, w);
        db == e.db && calls == old(calls) + e.calls && ending == e.ending
    {
      if w.seen.Err? {
        return Raised(w.seen.error);
      }
      var price := w.seen.value.price;
      var r := CheckOn(w.seen.value.decision, db.book, price);
      var check := |db.checks|;
      var tx := db.(checks := db.checks + [CheckRow(step, r)]);
      if w.checked.Some? {
        return Raised(w.checked.value);
      }
      if RequiresBroker(r) {
        db := tx;
        ending := RunBrokerExecution(step, check, r, price, w);
        return;
      }
      tx := tx.(book := Revalue(tx.book, price));
      if w.finished.Some? {
        return Raised(w.finished.value);
      }
      db := Close(tx, step, false);
      ending := Returned(false);
    }

    method PersistFailure(step: Option<nat>, exn: Exn, w: Inputs)
      modifies this`db
      ensures exn != Reraised ==> Contents() == Handled(old(Contents()), step, exn, w)
    {
      if !w.handled {
        return;
      }
      if step.Some? && step.value < |db.steps| {
        db := db.(steps := db.steps[step.value := StepFailed]);
      }
      if exn == AgentConfiguration {
        db := db.(failed := true);
      }
    }

    method RunNextStep(w: Inputs)
      requires Gated(Contents())
      modifies this
      ensures Contents() == NextStep(old(Contents()), w)
    {
      hide Work;
      var running := HasRunning();
      if w.adapter.Some? || w.creation.Some? || db.failed || running {
        if EarlyExn(w) != Reraised {
          PersistFailure(None, EarlyExn(w), w);
        }
        return;
      }
      var id := CreateStep();
      var ending := RunStepArtifacts(id, w);
      if ending.Raised? && ending.exn != Reraised {
        PersistFailure(Some(id), ending.exn, w);
      }
    }

    method RunEventStep(w: Inputs)
      requires Gated(Contents())
      modifies this
      ensures Contents() == EventStep(old(Contents()), w)
    {
      hide Work;
      var running := HasRunning();
      if w.adapter.Some? || w.creation.Some? || db.failed || running {
        return;
      }
      var id := CreateStep();
      var ending := RunStepArtifacts(id, w);
    }

    method HasRunning() returns (running: bool)
      ensures running == (StepRunning in db.steps)
    {
      running := false;
      for i := 0 to |db.steps|
        invariant running == (StepRunning in db.steps[..i])
      {
        running := running || db.steps[i] == StepRunning;
        assert db.steps[..i + 1] == db.steps[..i] + [db.steps[i]];
      }
      assert db.steps[..|db.steps|] == db.steps;
    }
  }

  // ---------- Whole histories ----------

  /** A step, an event step, or a pass of the order sync between them. */
  datatype Run =
    | Next(w: Inputs)
    | FromEvent(w: Inputs)
    | SyncPass(poll: nat -> Option<BrokerResult>, raises: nat -> bool)

  predicate CreatesStep(s: State, r: Run) {
    !r.SyncPass? && Creates(s, r.w)
  }

  function Step(s: State, r: Run): State {
    match r
    case Next(w) => NextStep(s, w)
    case FromEvent(w) => EventStep(s, w)
    case SyncPass(poll, raises) => Synced(s, poll, raises)
  }

  function Synced(s: State, poll: nat -> Option<BrokerResult>, raises: nat -> bool): State {
    s.(db := s.db.(book := Ledger.Run(s.db.book, Polls(Reached(OpenOrders(s.db.book.orders), raises), poll))))
  }

  function Trace(capital: Money, runs: seq<Run>): State {
    if runs == [] then Start(capital) else Step(Trace(capital, runs[..|runs| - 1]), runs[|runs| - 1])
  }

  /** What a step's work may leave: nothing, its check, a call on it, or also the call's order row. */
  ghost predicate WorkShape(before: Db, step: nat, e: Effect) {
    && |e.db.steps| == |before.steps|
    && (forall i :: 0 <= i < |before.steps| && i != step ==> e.db.steps[i] == before.steps[i])
    && (e.db.checks == before.checks || exists r :: e.db.checks == before.checks + [CheckRow(step, r)])
    && |e.calls| <= 1
    && (e.calls != [] ==>
          e.calls[0].step == step && e.calls[0].check == |before.checks| && Authorised(e.db, e.calls[0]))
    && |e.db.book.orders| - |before.book.orders| == |e.db.links| - |before.links|
    && (e.db.links == before.links
        || (e.calls != [] && e.db.links == before.links + [OrderLink(step, |before.checks|)]))
  }

  lemma OrderCounts(b: Book, r: BrokerResult, price: real)
    ensures |Submit(b, r, price).orders| == |b.orders| + 1 && |Revalue(b, price).orders| == |b.orders|
  {
  }

  lemma BrokerWorkIsShaped(db: Db, step: nat, check: nat, r: RiskResult, price: real, w: Inputs)
    requires step < |db.steps| && check < |db.checks| && db.checks[check] == CheckRow(step, r) && RequiresBroker(r)
    ensures var e := BrokerWork(db, step, check, r, price, w);
      && e.db.checks == db.checks && |e.db.steps| == |db.steps|
      && (forall i :: 0 <= i < |db.steps| && i != step ==> e.db.steps[i] == db.steps[i])
      && |e.calls| <= 1
      && (e.calls != [] ==> e.calls[0].step == step && e.calls[0].check == check && Authorised(e.db, e.calls[0]))
      && |e.db.book.orders| - |db.book.orders| == |e.db.links| - |db.links|
      && (e.db.links == db.links || (e.calls != [] && e.db.links == db.links + [OrderLink(step, check)]))
  {
    if w.broker.Ok? {
      OrderCounts(db.book, w.broker.value, price);
    } else {
      OrderCounts(db.book, BrokerResult(OtherWord, BuySide, 0.0, 0.0, None, 0), price);
    }
    hide Submit;
    hide Revalue;
  }

  lemma WorkIsShaped(db: Db, step: nat, w: Inputs)
    requires step < |db.steps|
    ensures WorkShape(db, step, Work(db, step, w))
  {
    if w.seen.Ok? && w.checked.None? {
      var price := w.seen.value.price;
      var r := CheckOn(w.seen.value.decision, db.book, price);
      var checked := db.(checks := db.checks + [CheckRow(step, r)]);
      OrderCounts(db.book, BrokerResult(OtherWord, BuySide, 0.0, 0.0, None, 0), price);
      hide CheckOn;
      hide Submit;
      hide Revalue;
      if RequiresBroker(r) {
        BrokerWorkIsShaped(checked, step, |db.checks|, r, price, w);
        hide BrokerWork;
        assert checked.checks == db.checks + [CheckRow(step, r)];
      }
    }
  }

  /** A check is never changed, so what authorised a call still does. */
  lemma StillAuthorised(db: Db, later: Db, c: Call)
    requires Authorised(db, c) && |db.steps| <= |later.steps|
    requires |db.checks| <= |later.checks| && forall i :: 0 <= i < |db.checks| ==> later.checks[i] == db.checks[i]
    ensures Authorised(later, c)
  {
  }

  /** A fresh step's work keeps the tables gated, and touches no other step's calls, orders or status. */
  lemma WorkKeeps(s: State, w: Inputs)
    requires Gated(s)
    ensures Gated(AfterWork(s, w))
    ensures |AfterWork(s, w).db.steps| == |s.db.steps| + 1
    ensures forall i :: 0 <= i < |s.db.steps| ==> SameStep(s, AfterWork(s, w), i)
  {
    var step, db := |s.db.steps|, Created(s.db);
    var e := Work(db, step, w);
    WorkIsShaped(db, step, w);
    hide Work;
    var t := AfterWork(s, w);
    forall i | 0 <= i < |s.calls| ensures Authorised(t.db, t.calls[i]) {
      StillAuthorised(s.db, t.db, s.calls[i]);
    }
    forall i | 0 <= i < |s.db.links| ensures CalledFor(t.calls, t.db.links[i].step) {
      StillCalled(s.calls, e.calls, s.db.links[i].step);
    }
    if e.db.links != db.links {
      assert t.calls[|s.calls|].step == step;
    }
    forall i | 0 <= i < |s.db.steps| ensures SameStep(s, t, i) {
      SameCalls(s.calls, e.calls, i, step);
      SameLinks(s.db.links, e.db.links, i, step);
    }
  }

  lemma StillCalled(calls: seq<Call>, more: seq<Call>, step: nat)
    requires CalledFor(calls, step)
    ensures CalledFor(calls + more, step)
  {
    var i :| 0 <= i < |calls| && calls[i].step == step;
    assert (calls + more)[i].step == step;
  }

  lemma SameCalls(calls: seq<Call>, more: seq<Call>, i: nat, step: nat)
    requires i != step && forall j :: 0 <= j < |more| ==> more[j].step == step
    ensures CalledFor(calls + more, i) <==> CalledFor(calls, i)
  {
    if CalledFor(calls, i) {
      StillCalled(calls, more, i);
    }
  }

  lemma SameLinks(links: seq<OrderLink>, after: seq<OrderLink>, i: nat, step: nat)
    requires i != step && (after == links || exists check :: after == links + [OrderLink(step, check)])
    ensures OrderedFor(after, i) <==> OrderedFor(links, i)
  {
    if OrderedFor(links, i) {
      var j :| 0 <= j < |links| && links[j].step == i;
      assert after[j].step == i;
    }
  }

  /** What a later run may not touch. */
  ghost predicate SameStep(s: State, t: State, i: nat) {
    && i < |s.db.steps| && i < |t.db.steps| && t.db.steps[i] == s.db.steps[i]
    && (CalledFor(t.calls, i) <==> CalledFor(s.calls, i))
    && (OrderedFor(t.db.links, i) <==> OrderedFor(s.db.links, i))
  }

  lemma HandledKeeps(s: State, step: Option<nat>, exn: Exn, w: Inputs)
    requires Gated(s)
    ensures Gated(Handled(s, step, exn, w))
    ensures Handled(s, step, exn, w).calls == s.calls && Handled(s, step, exn, w).db.links == s.db.links
    ensures |Handled(s, step, exn, w).db.steps| == |s.db.steps|
    ensures forall i :: 0 <= i < |s.db.steps| && step != Some(i) ==>
      Handled(s, step, exn, w).db.steps[i] == s.db.steps[i]
  {
    var t := Handled(s, step, exn, w);
    forall i | 0 <= i < |s.calls| ensures Authorised(t.db, t.calls[i]) {
      StillAuthorised(s.db, t.db, s.calls[i]);
    }
  }

  lemma {:induction false} PollsKeepOrders(b: Book, ids: seq<nat>, poll: nat -> Option<BrokerResult>)
    ensures |Ledger.Run(b, Polls(ids, poll)).orders| == |b.orders|
  {
    if ids != [] {
      var k := |ids| - 1;
      PollsKeepOrders(b, ids[..k], poll);
      if poll(ids[k]).Some? {
        RunAppend(b, Polls(ids[..k], poll), Poll(ids[k], poll(ids[k]).value));
      }
    }
  }

  lemma SyncKeeps(s: State, poll: nat -> Option<BrokerResult>, raises: nat -> bool)
    requires Gated(s)
    ensures Gated(Synced(s, poll, raises))
  {
    PollsKeepOrders(s.db.book, Reached(OpenOrders(s.db.book.orders), raises), poll);
    var t := Synced(s, poll, raises);
    forall i | 0 <= i < |s.calls| ensures Authorised(t.db, t.calls[i]) {
      StillAuthorised(s.db, t.db, s.calls[i]);
    }
  }

  lemma StepKeeps(s: State, r: Run)
    requires Gated(s)
    ensures Gated(Step(s, r))
    ensures |Step(s, r).db.steps| == |s.db.steps| + if CreatesStep(s, r) then 1 else 0
    ensures forall i :: 0 <= i < |s.db.steps| ==> SameStep(s, Step(s, r), i)
  {
    hide *;
    match r {
      case SyncPass(poll, raises) => SyncStepKeeps(s, poll, raises);
      case Next(w) => NextKeeps(s, w);
      case FromEvent(w) => EventKeeps(s, w);
    }
    StepCases(s, r);
  }

  lemma StepCases(s: State, r: Run)
    ensures r.SyncPass? ==> Step(s, r) == Synced(s, r.poll, r.raises) && !CreatesStep(s, r)
    ensures r.Next? ==> Step(s, r) == NextStep(s, r.w) && (CreatesStep(s, r) <==> Creates(s, r.w))
    ensures r.FromEvent? ==> Step(s, r) == EventStep(s, r.w) && (CreatesStep(s, r) <==> Creates(s, r.w))
  {
    hide NextStep;
    hide EventStep;
    hide Synced;
    hide Creates;
  }

  lemma SyncStepKeeps(s: State, poll: nat -> Option<BrokerResult>, raises: nat -> bool)
    requires Gated(s)
    ensures var t := Synced(s, poll, raises);
      && Gated(t) && t.db.steps == s.db.steps
      && forall i :: 0 <= i < |s.db.steps| ==> SameStep(s, t, i)
  {
    SyncKeeps(s, poll, raises);
    hide Gated;
  }

  lemma NextKeeps(s: State, w: Inputs)
    requires Gated(s)
    ensures Gated(NextStep(s, w))
    ensures |NextStep(s, w).db.steps| == |s.db.steps| + if Creates(s, w) then 1 else 0
    ensures forall i :: 0 <= i < |s.db.steps| ==> SameStep(s, NextStep(s, w), i)
  {
    hide Work;
    hide Gated;
    WorkKeeps(s, w);
    var ending := Work(Created(s.db), |s.db.steps|, w).ending;
    if !Creates(s, w) {
      HandledKeeps(s, None, EarlyExn(w), w);
      forall i | 0 <= i < |s.db.steps| ensures SameStep(s, NextStep(s, w), i) {
        SameAsItself(s, i);
        SameHandled(s, s, i, None, EarlyExn(w), w);
      }
    } else if ending.Raised? {
      HandledKeeps(AfterWork(s, w), Some(|s.db.steps|), ending.exn, w);
      forall i | 0 <= i < |s.db.steps| ensures SameStep(s, NextStep(s, w), i) {
        SameHandled(s, AfterWork(s, w), i, Some(|s.db.steps|), ending.exn, w);
      }
    }
    hide AfterWork;
    hide Handled;
    hide SameStep;
  }

  lemma SameHandled(s: State, t: State, i: nat, step: Option<nat>, exn: Exn, w: Inputs)
    requires SameStep(s, t, i) && step != Some(i)
    ensures SameStep(s, Handled(t, step, exn, w), i)
  {
  }

  lemma EventKeeps(s: State, w: Inputs)
    requires Gated(s)
    ensures Gated(EventStep(s, w))
    ensures |EventStep(s, w).db.steps| == |s.db.steps| + if Creates(s, w) then 1 else 0
    ensures forall i :: 0 <= i < |s.db.steps| ==> SameStep(s, EventStep(s, w), i)
  {
    hide Gated;
    hide CalledFor;
    hide OrderedFor;
    WorkKeeps(s, w);
    hide AfterWork;
  }

  lemma StartGated(capital: Money)
    ensures Gated(Start(capital))
  {
  }

  /**
    Broker gating over any history of steps, event steps and syncs.  Each place_order carries
    out a committed, approved RiskCheck of the same step for the same side and the same
    positive quantity; no step calls twice; every order row belongs to a call, one per step.
  */
  lemma {:induction false} BrokerIsGated(capital: Money, runs: seq<Run>)
    ensures Gated(Trace(capital, runs))
  {
    hide Gated;
    hide Step;
    if runs == [] {
      StartGated(capital);
    } else {
      BrokerIsGated(capital, runs[..|runs| - 1]);
      StepKeeps(Trace(capital, runs[..|runs| - 1]), runs[|runs| - 1]);
    }
  }

  // ---------- Which calls have an order row ----------

  /** The step's check asks for an order. */
  predicate WantsOrder(db: Db, w: Inputs) {
    w.seen.Ok? && w.checked.None? && RequiresBroker(CheckOn(w.seen.value.decision, db.book, w.seen.value.price))
  }

  /** The step gets as far as place_order. */
  predicate ReachesBroker(db: Db, w: Inputs) {
    WantsOrder(db, w) && w.reopened.None?
  }

  /** No order names a fresh step or a fresh check, so the provider's lookup never finds one. */
  lemma NothingExists(s: State)
    requires Gated(s)
    ensures !Existing(s.db.links, |s.db.steps|, |s.db.checks|)
    ensures !CalledFor(s.calls, |s.db.steps|) && !OrderedFor(s.db.links, |s.db.steps|)
  {
  }

  /** Both guards and the lookup let through exactly the steps that reach the broker. */
  lemma WorkCalls(s: State, w: Inputs)
    requires Gated(s)
    ensures var e := Work(Created(s.db), |s.db.steps|, w);
      && (e.calls != [] <==> ReachesBroker(s.db, w))
      && (e.calls != [] ==> |e.calls| == 1 && e.calls[0].step == |s.db.steps|)
      && (if ReachesBroker(s.db, w) && w.broker.Ok? && w.finished.None?
          then e.db.links == s.db.links + [OrderLink(|s.db.steps|, |s.db.checks|)]
          else e.db.links == s.db.links)
  {
    NothingExists(s);
    if w.seen.Ok? {
      GuardsAgree(w.seen.value.decision, s.db.book, w.seen.value.price);
    }
    hide CheckOn;
    hide Submit;
    hide Revalue;
    hide Existing;
    hide Gated;
  }

  lemma CreatedStepCalls(s: State, r: Run)
    requires Gated(s) && CreatesStep(s, r)
    ensures CalledFor(Step(s, r).calls, |s.db.steps|) <==> ReachesBroker(s.db, r.w)
    ensures OrderedFor(Step(s, r).db.links, |s.db.steps|) <==>
      ReachesBroker(s.db, r.w) && r.w.broker.Ok? && r.w.finished.None?
  {
    var id, t := |s.db.steps|, Step(s, r);
    var e := Work(Created(s.db), id, r.w);
    NothingExists(s);
    WorkCalls(s, r.w);
    StepRows(s, r);
    hide ReachesBroker;
    hide Gated;
    hide Step;
    hide Work;
    if e.calls != [] {
      assert t.calls[|s.calls|].step == id;
    }
    if e.db.links != s.db.links {
      assert t.db.links[|s.db.links|].step == id;
    }
  }

  lemma StepRows(s: State, r: Run)
    requires CreatesStep(s, r)
    ensures var e := Work(Created(s.db), |s.db.steps|, r.w);
      Step(s, r).calls == s.calls + e.calls && Step(s, r).db.links == e.db.links
  {
    hide Work;
  }

  lemma {:induction false} LaterRunsKeep(capital: Money, runs: seq<Run>, k: nat, i: nat)
    requires k <= |runs| && i < |Trace(capital, runs[..k]).db.steps|
    ensures SameStep(Trace(capital, runs[..k]), Trace(capital, runs), i)
  {
    hide SameStep;
    hide Step;
    if k == |runs| {
      assert runs[..k] == runs;
      SameAsItself(Trace(capital, runs), i);
    } else {
      var prefix := runs[..|runs| - 1];
      assert prefix[..k] == runs[..k];
      LaterRunsKeep(capital, prefix, k, i);
      BrokerIsGated(capital, prefix);
      SameLength(Trace(capital, runs[..k]), Trace(capital, prefix), i);
      StepKeeps(Trace(capital, prefix), runs[|runs| - 1]);
      SameTwice(Trace(capital, runs[..k]), Trace(capital, prefix), Trace(capital, runs), i);
    }
  }

  lemma SameAsItself(s: State, i: nat)
    requires i < |s.db.steps|
    ensures SameStep(s, s, i)
  {
  }

  lemma SameLength(s: State, t: State, i: nat)
    requires SameStep(s, t, i)
    ensures i < |t.db.steps|
  {
  }

  lemma SameTwice(s: State, t: State, u: State, i: nat)
    requires SameStep(s, t, i) && SameStep(t, u, i)
    ensures SameStep(s, u, i)
  {
  }

  /**
    Exactly which steps have called the broker and which of those calls have an order row, at
    the end of any history: a call whose answer or whose transaction raised has none, ever.
  */
  lemma CallsAndOrders(capital: Money, runs: seq<Run>, k: nat)
    requires k < |runs| && CreatesStep(Trace(capital, runs[..k]), runs[k])
    ensures var before, end, w := Trace(capital, runs[..k]), Trace(capital, runs), runs[k].w;
      var id := |before.db.steps|;
      && (CalledFor(end.calls, id) <==> ReachesBroker(before.db, w))
      && (OrderedFor(end.db.links, id) <==> ReachesBroker(before.db, w) && w.broker.Ok? && w.finished.None?)
  {
    var before := Trace(capital, runs[..k]);
    BrokerIsGated(capital, runs[..k]);
    CreatedStepCalls(before, runs[k]);
    StepKeeps(before, runs[k]);
    assert runs[..k + 1][..k] == runs[..k];
    assert Trace(capital, runs[..k + 1]) == Step(before, runs[k]);
    hide Step;
    hide ReachesBroker;
    LaterRunsKeep(capital, runs, k + 1, |before.db.steps|);
  }

  /** The sync polls only orders with a row; a call without one is never polled and its fills never booked. */
  lemma LostCallsAreNeverPolled(capital: Money, runs: seq<Run>, step: nat)
    requires !OrderedFor(Trace(capital, runs).db.links, step)
    ensures var s := Trace(capital, runs);
      forall i :: 0 <= i < |OpenOrders(s.db.book.orders)| ==>
        OpenOrders(s.db.book.orders)[i] < |s.db.links| && s.db.links[OpenOrders(s.db.book.orders)[i]].step != step
  {
    BrokerIsGated(capital, runs);
    hide Trace;
  }

  // ---------- What is asked of the broker ----------

  /** A created step asks for its check's order, unless the check asks for none or an exception comes first. */
  lemma NewCall(s: State, r: Run)
    requires Gated(s) && CreatesStep(s, r) && r.w.seen.Ok?
    ensures var c := CheckOn(r.w.seen.value.decision, s.db.book, r.w.seen.value.price);
      var called := c.action != Hold && r.w.checked.None? && r.w.reopened.None?;
      && (c.action != Hold ==> c.quantity.Some?)
      && Step(s, r).calls == s.calls + if called
           then [Call(|s.db.steps|, |s.db.checks|, SideFor(c.action), c.quantity.value)] else []
  {
    NothingExists(s);
    StepRows(s, r);
    GuardsAgree(r.w.seen.value.decision, s.db.book, r.w.seen.value.price);
    hide Step;
    hide CheckOn;
    hide Submit;
    hide Revalue;
    hide Existing;
    hide Gated;
    hide CreatesStep;
  }

  /** The portfolio columns of a book. */
  function Columns(b: Book): Holdings {
    Holdings(b.cash, Some(b.position), Some(b.value))
  }

  /** The calls after a step: those before it and at most one more. */
  ghost predicate OneMore(before: seq<Call>, after: seq<Call>) {
    before <= after && |after| <= |before| + 1
  }

  /**
    An agent's decision is carried out at its target.  On any account in its columns, what a
    step asks of the broker is the quantity `TargetSizing` gives in integers, on the side of the
    gap, and it asks for nothing exactly when the decision is a HOLD or the integers refuse.
  */
  lemma TargetedCall(s: State, r: Run, a: Action, t: int, q: int, k: int)
    requires Gated(s) && CreatesStep(s, r) && r.w.seen.Ok?
    requires r.w.seen.value.decision == Targeted(a, Some(t as real / 10000.0))
    requires InColumns(Columns(s.db.book), q, k, r.w.seen.value.price)
    ensures var h, calls := Columns(s.db.book), Step(s, r).calls;
      var gap := GapUnits28(t, h, q, k);
      var refused := a == Hold || Refuses(ValueUnits28(h, q, k), gap, h.cash, k);
      && k > 0 && OneMore(s.calls, calls)
      && (|calls| > |s.calls| ==>
            var c := calls[|calls| - 1];
            && !refused && c.step == |s.db.steps|
            && if gap > 0 then c.side == BuySide && c.quantity == OrderedShares(Buy, t, h, q, k)
               else c.side == SellSide && c.quantity == OrderedShares(Sell, t, h, q, k))
      && (|calls| == |s.calls| && r.w.checked.None? && r.w.reopened.None? ==> refused)
  {
    NewCall(s, r);
    var h, price := Columns(s.db.book), r.w.seen.value.price;
    TargetedCheck(a, t, s.db.book, q, k, price);
    hide *;
    hide Step;
  }

  lemma TargetedCheck(a: Action, t: int, b: Book, q: int, k: int, price: real)
    requires InColumns(Columns(b), q, k, price)
    ensures var h := Columns(b);
      var c, gap := CheckOn(Targeted(a, Some(t as real / 10000.0)), b, price), GapUnits28(t, h, q, k);
      && k > 0
      && (c.action == Hold <==> a == Hold || Refuses(ValueUnits28(h, q, k), gap, h.cash, k))
      && (c.action != Hold ==>
            && c.action == (if gap > 0 then Buy else Sell)
            && c.quantity == Some(OrderedShares(c.action, t, h, q, k)))
  {
    TargetedIs(a, t as real / 10000.0, b, price);
    hide *;
    DecidedInIntegers(a, t, Columns(b), q, k, price);
  }

  lemma TargetedIs(a: Action, target: real, b: Book, price: real)
    ensures CheckOn(Targeted(a, Some(target)), b, price) == EvaluateTargetExposure(a, Some(target), Columns(b), price)
  {
    hide EvaluateTargetExposure;
  }

  /**
    So on an account of whole shares every call moves the position as target sizing promises,
    and a step that is not interrupted makes none if and only if there is nothing to order or
    refusing is right.
  */
  lemma TargetedCallIsSized(s: State, r: Run, a: Action, t: int, m: nat, k: int)
    requires Gated(s) && CreatesStep(s, r) && r.w.seen.Ok?
    requires r.w.seen.value.decision == Targeted(a, Some(t as real / 10000.0))
    requires WholeAccount(Columns(s.db.book), m, k, r.w.seen.value.price)
    ensures var h, calls, price := Columns(s.db.book), Step(s, r).calls, r.w.seen.value.price;
      var target := t as real / 10000.0;
      && OneMore(s.calls, calls)
      && (|calls| > |s.calls| ==>
            var c := calls[|calls| - 1];
            && a != Hold && !RightToRefuse(target, h, price) && c.step == |s.db.steps|
            && SizedToTarget(if c.side == BuySide then Buy else Sell, c.quantity,
                 Goal(target, h, price), s.db.book.position, Dollars(s.db.book.cash), price))
      && (|calls| == |s.calls| && r.w.checked.None? && r.w.reopened.None? ==>
            a == Hold || RightToRefuse(target, h, price))
  {
    var h, price := Columns(s.db.book), r.w.seen.value.price;
    NewCall(s, r);
    TargetedIs(a, t as real / 10000.0, s.db.book, price);
    WholeAccountsAreSized(a, t, h, m, k, price);
    RefusedIs(a, t as real / 10000.0, h, price);
    NoOrderOnHold(t as real / 10000.0, h, price);
    hide Step;
    hide CheckOn;
    hide EvaluateTargetExposure;
    hide RightToRefuse;
    hide SizedToTarget;
    hide Goal;
    hide Refused;
    hide WholeAccount;
    hide Gated;
    hide CreatesStep;
  }

  lemma NoOrderOnHold(target: real, h: Holdings, price: real)
    ensures EvaluateTargetExposure(Hold, Some(target), h, price).action == Hold
  {
    hide PortfolioValue;
    hide Gap;
  }

  /**
    A rule-based decision, or an agent's without a target: a BUY asks for all the whole shares
    that cash pays for, a SELL for the whole position, and nothing is asked exactly when the
    decision is a HOLD, the price is not positive, no share can be paid for or none is held.
  */
  lemma RuledCall(s: State, r: Run, a: Action, k: int)
    requires Gated(s) && CreatesStep(s, r) && r.w.seen.Ok? && Fits19(s.db.book.cash)
    requires r.w.seen.value.decision == Ruled(a) || r.w.seen.value.decision == Targeted(a, None)
    requires Fits19(k) && r.w.seen.value.price * 100000000.0 == k as real
    ensures var b, calls, price := s.db.book, Step(s, r).calls, r.w.seen.value.price;
      var nothing := a == Hold || price <= 0.0
        || (a == Buy && Dollars(b.cash) < price) || (a == Sell && b.position <= 0.0);
      && OneMore(s.calls, calls)
      && (|calls| > |s.calls| ==>
            var c := calls[|calls| - 1];
            && !nothing && c.step == |s.db.steps|
            && if a == Buy then c.side == BuySide && AllIn(c.quantity, Dollars(b.cash), price)
               else c.side == SellSide && c.quantity == b.position)
      && (|calls| == |s.calls| && r.w.checked.None? && r.w.reopened.None? ==> nothing)
  {
    NewCall(s, r);
    RuledCheck(a, s.db.book, r.w.seen.value.price, k, r.w.seen.value.decision);
    hide Step;
    hide CheckOn;
    hide AllIn;
    hide Gated;
    hide CreatesStep;
  }

  lemma RuledCheck(a: Action, b: Book, price: real, k: int, d: Decision)
    requires Fits19(b.cash) && Fits19(k) && price * 100000000.0 == k as real
    requires d == Ruled(a) || d == Targeted(a, None)
    ensures var c := CheckOn(d, b, price);
      var nothing := a == Hold || price <= 0.0
        || (a == Buy && Dollars(b.cash) < price) || (a == Sell && b.position <= 0.0);
      && (c.action == Hold <==> nothing)
      && (!nothing ==>
            && c.action == a && c.quantity.Some?
            && if a == Buy then AllIn(c.quantity.value, Dollars(b.cash), price) else c.quantity.value == b.position)
  {
    assert CheckOn(d, b, price) == Evaluate(a, Columns(b), price);
    hide Worth;
    if a == Buy && price > 0.0 {
      var m := WholeShares(Dollars(b.cash), price);
      CashShares(b.cash, price, k);
      if b.cash >= 0 {
        CashSharesExact(b.cash, price, k);
      } else {
        NoneForLess(m, Dollars(b.cash), price);
      }
      SharesForCash(m, Dollars(b.cash), price);
    }
    hide WholeShares;
    hide AllIn;
    hide Covers;
  }

  /** Negative cash pays for nothing. */
  lemma NoneForLess(m: int, cash: real, price: real)
    requires price > 0.0 && cash < 0.0
    ensures m >= 1 ==> !Covers(m, cash, price)
  {
    if m >= 1 {
      ScaleMonotone(1.0, m as real, price);
    }
  }

  lemma SharesForCash(m: int, cash: real, price: real)
    requires price > 0.0
    ensures Covers(m, cash, price) ==>
      (m < 1 ==> cash < price) && (m >= 1 ==> AllIn(m as real, cash, price) && cash >= price)
  {
    if Covers(m, cash, price) {
      SpendAll(m, cash, price);
      OneShare(m, cash, price);
    }
  }

  // ---------- How steps end ----------

  /** The exceptions of the stages a created step passes, in order. */
  function Stages(db: Db, w: Inputs): seq<Option<Exn>> {
    [if w.seen.Err? then Some(w.seen.error) else None, w.checked]
    + (if WantsOrder(db, w) then [w.reopened, if w.broker.Err? then Some(w.broker.error) else None] else [])
    + [w.finished]
  }

  function First(stages: seq<Option<Exn>>): Option<Exn> {
    if stages == [] then None else if stages[0].Some? then stages[0] else First(stages[1..])
  }

  /** The broker is asked and answers with a rejection or a word it should not use. */
  predicate BrokerRefuses(db: Db, w: Inputs) {
    ReachesBroker(db, w) && w.broker.Ok? && ControlledFailure(w.broker.value)
  }

  function EndStatus(ending: Ending): StepStatus {
    if ending.Raised? then StepRunning else if ending.failed then StepFailed else StepCompleted
  }

  /** The first of them is what escapes from the work. */
  lemma WorkEnds(s: State, w: Inputs)
    requires Gated(s)
    ensures var e, first := Work(Created(s.db), |s.db.steps|, w), First(Stages(s.db, w));
      && (e.ending.Raised? <==> first.Some?) && (first.Some? ==> e.ending.exn == first.value)
      && (e.ending.Returned? ==> e.ending.failed == BrokerRefuses(s.db, w))
      && e.db.steps == s.db.steps + [EndStatus(e.ending)]
  {
    NothingExists(s);
    if w.seen.Ok? {
      GuardsAgree(w.seen.value.decision, s.db.book, w.seen.value.price);
    }
    FirstOf(Stages(s.db, w));
    hide CheckOn;
    hide Submit;
    hide Revalue;
    hide Existing;
    hide Gated;
  }

  lemma FirstOf(stages: seq<Option<Exn>>)
    requires |stages| == 3 || |stages| == 5
    ensures First(stages) ==
      if stages[0].Some? then stages[0]
      else if stages[1].Some? then stages[1]
      else if stages[2].Some? || |stages| == 3 then stages[2]
      else if stages[3].Some? then stages[3] else stages[4]
  {
    var s1 := stages[1..];
    var s2 := s1[1..];
    var s3 := s2[1..];
    assert First(s2) == if s2[0].Some? then s2[0] else First(s3);
    if |stages| == 3 {
      assert First(s3) == None;
    } else {
      assert First(s3) == if s3[0].Some? then s3[0] else First(s3[1..]);
      assert First(s3[1..]) == if s3[1].Some? then s3[1] else First(s3[1..][1..]);
    }
  }

  /** Every created step's status when its run is over. */
  lemma StepEnds(s: State, r: Run)
    requires Gated(s) && CreatesStep(s, r)
    ensures |Step(s, r).db.steps| == |s.db.steps| + 1 && Step(s, r).db.steps[..|s.db.steps|] == s.db.steps
    ensures Step(s, r).db.steps[|s.db.steps|] ==
      match First(Stages(s.db, r.w))
      case None => if BrokerRefuses(s.db, r.w) then StepFailed else StepCompleted
      case Some(e) => if r.Next? && e != Reraised && r.w.handled then StepFailed else StepRunning
  {
    WorkEnds(s, r.w);
    FirstOf(Stages(s.db, r.w));
    hide Work;
    hide Gated;
    hide First;
    hide CheckOn;
  }

  /** A step is created exactly when nothing is in its way. */
  lemma StepCreated(s: State, r: Run)
    requires Gated(s)
    ensures |Step(s, r).db.steps| > |s.db.steps| <==>
      && !r.SyncPass? && r.w.adapter.None? && r.w.creation.None?
      && !s.db.failed && forall i :: 0 <= i < |s.db.steps| ==> s.db.steps[i] != StepRunning
  {
    StepKeeps(s, r);
    hide Step;
    hide Gated;
  }

  /**
    A step that is not created changes nothing, except that run_next_step's handler records a
    configuration error met before creation as the failure of the experiment.
  */
  lemma NotCreatedLeaves(s: State, r: Run)
    requires Gated(s) && !r.SyncPass? && !CreatesStep(s, r)
    ensures var t := Step(s, r);
      var early := if r.w.adapter.Some? then r.w.adapter else r.w.creation;
      && t.calls == s.calls && t.db == s.db.(failed := t.db.failed)
      && (t.db.failed <==> s.db.failed || (r.Next? && r.w.handled && early == Some(AgentConfiguration)))
  {
    hide Work;
    hide Gated;
  }

  /** The broker's word for an order it took fails the step and the experiment. */
  predicate Refusal(word: StatusWord) {
    word == WordRejected || word == OtherWord
  }

  /**
    What a created step leaves: an exception leaves the account as it was, a call submits the
    broker's answer at the bar's price, and otherwise the account is revalued.  A refusal fails
    step and experiment; a configuration error that the handler records fails both as well.
  */
  lemma StepLeaves(s: State, r: Run)
    requires Gated(s) && CreatesStep(s, r)
    ensures var t, first := Step(s, r), First(Stages(s.db, r.w));
      var called := |t.calls| > |s.calls|;
      && |t.db.steps| == |s.db.steps| + 1
      && (first.None? ==> r.w.seen.Ok? && (called ==> r.w.broker.Ok?))
      && (first.Some? ==> t.db.book == s.db.book)
      && (first.None? && called ==> t.db.book == Submit(s.db.book, r.w.broker.value, r.w.seen.value.price))
      && (first.None? && !called ==> t.db.book == Revalue(s.db.book, r.w.seen.value.price))
      && (var refused := first.None? && called && Refusal(r.w.broker.value.status);
          var configuration := first == Some(AgentConfiguration) && r.Next? && r.w.handled;
          && (first.None? ==> t.db.steps[|s.db.steps|] == if refused then StepFailed else StepCompleted)
          && (t.db.failed <==> refused || configuration))
  {
    NothingExists(s);
    StepKeeps(s, r);
    StepRows(s, r);
    WorkLeaves(s, r.w);
    hide Work;
    hide Submit;
    hide Revalue;
    hide Stages;
    hide First;
    hide Gated;
  }

  lemma WorkLeaves(s: State, w: Inputs)
    requires Gated(s)
    ensures var e, first := Work(Created(s.db), |s.db.steps|, w), First(Stages(s.db, w));
      var called := e.calls != [];
      && |e.db.steps| == |s.db.steps| + 1
      && (e.ending.Raised? <==> first.Some?) && (first.Some? ==> e.ending.exn == first.value)
      && (first.None? ==> w.seen.Ok? && (called ==> w.broker.Ok?))
      && (first.Some? ==> e.db.book == s.db.book && e.db.failed == s.db.failed)
      && (first.None? && called ==> e.db.book == Submit(s.db.book, w.broker.value, w.seen.value.price))
      && (first.None? && !called ==> e.db.book == Revalue(s.db.book, w.seen.value.price))
      && (first.None? ==>
            var refused := called && Refusal(w.broker.value.status);
            && e.db.failed == (s.db.failed || refused)
            && e.db.steps[|s.db.steps|] == if refused then StepFailed else StepCompleted)
  {
    NothingExists(s);
    if w.seen.Ok? {
      GuardsAgree(w.seen.value.decision, s.db.book, w.seen.value.price);
    }
    FirstOf(Stages(s.db, w));
    hide CheckOn;
    hide Submit;
    hide Revalue;
    hide Existing;
    hide Gated;
    hide First;
  }

  /**
    A run leaves the step it created RUNNING: run_next_step when one of the four re-raised
    errors is the first raised by a stage, or when its failure handler fails as well;
    run_event_step when any stage it passes raises.
  */
  predicate LeavesRunning(s: State, r: Run) {
    CreatesStep(s, r)
    && var first := First(Stages(s.db, r.w));
       first.Some? && (r.FromEvent? || first.value == Reraised || !r.w.handled)
  }

  ghost predicate SomeLeftRunning(capital: Money, runs: seq<Run>) {
    exists k :: 0 <= k < |runs| && LeavesRunning(Trace(capital, runs[..k]), runs[k])
  }

  lemma SomeSplit(capital: Money, runs: seq<Run>)
    requires runs != []
    ensures var k := |runs| - 1;
      SomeLeftRunning(capital, runs)
      <==> SomeLeftRunning(capital, runs[..k]) || LeavesRunning(Trace(capital, runs[..k]), runs[k])
  {
    hide LeavesRunning;
    hide Trace;
    var k := |runs| - 1;
    var prefix := runs[..k];
    forall i | 0 <= i < k ensures prefix[..i] == runs[..i] && prefix[i] == runs[i] {}
    if SomeLeftRunning(capital, prefix) {
      var i :| 0 <= i < k && LeavesRunning(Trace(capital, prefix[..i]), prefix[i]);
      assert LeavesRunning(Trace(capital, runs[..i]), runs[i]);
    }
    if SomeLeftRunning(capital, runs) {
      var i :| 0 <= i < |runs| && LeavesRunning(Trace(capital, runs[..i]), runs[i]);
      if i < k {
        assert LeavesRunning(Trace(capital, prefix[..i]), prefix[i]);
      }
    }
  }

  lemma RunningAfter(s: State, r: Run)
    requires Gated(s)
    ensures StepRunning in Step(s, r).db.steps <==> StepRunning in s.db.steps || LeavesRunning(s, r)
  {
    StepKeeps(s, r);
    var t := Step(s, r);
    if CreatesStep(s, r) {
      StepEnds(s, r);
      assert t.db.steps == s.db.steps + [t.db.steps[|s.db.steps|]];
    } else {
      forall i | 0 <= i < |s.db.steps| ensures t.db.steps[i] == s.db.steps[i] {
        assert SameStep(s, t, i);
      }
      assert t.db.steps == s.db.steps;
    }
    hide Step;
    hide Gated;
    hide Stages;
    hide First;
  }

  /** Over any history, a step is RUNNING at the end if and only if some run left one so. */
  lemma {:induction false} StepsTerminate(capital: Money, runs: seq<Run>)
    ensures StepRunning in Trace(capital, runs).db.steps <==> SomeLeftRunning(capital, runs)
  {
    hide LeavesRunning;
    hide Step;
    hide Gated;
    if runs != [] {
      var prefix := runs[..|runs| - 1];
      StepsTerminate(capital, prefix);
      BrokerIsGated(capital, prefix);
      SomeSplit(capital, runs);
      RunningAfter(Trace(capital, prefix), runs[|runs| - 1]);
      hide SomeLeftRunning;
    }
  }

  /** No stage raises one of the four, and the failure handler commits. */
  predicate Handles(w: Inputs) {
    && w.handled && w.seen != Err(Reraised) && w.broker != Err(Reraised)
    && w.checked != Some(Reraised) && w.reopened != Some(Reraised) && w.finished != Some(Reraised)
  }

  /** So run_next_step leaves every step COMPLETED or FAILED whatever else is raised. */
  lemma NextStepsTerminate(capital: Money, runs: seq<Run>)
    requires forall k :: 0 <= k < |runs| ==> runs[k].SyncPass? || (runs[k].Next? && Handles(runs[k].w))
    ensures StepRunning !in Trace(capital, runs).db.steps
  {
    StepsTerminate(capital, runs);
    forall k | 0 <= k < |runs| ensures !LeavesRunning(Trace(capital, runs[..k]), runs[k]) {
      if !runs[k].SyncPass? {
        FirstOf(Stages(Trace(capital, runs[..k]).db, runs[k].w));
      }
      hide Trace;
      hide WantsOrder;
    }
  }

  /** A RUNNING step, once left behind, stops its experiment for good. */
  lemma {:induction false} RunningBlocks(capital: Money, runs: seq<Run>, k: nat)
    requires k <= |runs| && StepRunning in Trace(capital, runs[..k]).db.steps
    ensures Trace(capital, runs).db.steps == Trace(capital, runs[..k]).db.steps
    ensures Trace(capital, runs).calls == Trace(capital, runs[..k]).calls
  {
    if k == |runs| {
      assert runs[..k] == runs;
    } else {
      var prefix := runs[..|runs| - 1];
      assert prefix[..k] == runs[..k];
      RunningBlocks(capital, prefix, k);
    }
    hide Work;
  }

  /** A failed experiment creates no more steps and makes no more calls. */
  lemma {:induction false} FailedBlocks(capital: Money, runs: seq<Run>, k: nat)
    requires k <= |runs| && Trace(capital, runs[..k]).db.failed
    ensures Trace(capital, runs).db.failed
    ensures Trace(capital, runs).db.steps == Trace(capital, runs[..k]).db.steps
    ensures Trace(capital, runs).calls == Trace(capital, runs[..k]).calls
  {
    if k == |runs| {
      assert runs[..k] == runs;
    } else {
      var prefix := runs[..|runs| - 1];
      assert prefix[..k] == runs[..k];
      FailedBlocks(capital, prefix, k);
    }
    hide Work;
  }

  // ---------- Inputs that show it ----------

  /** The market data of a step is missing. */
  function WithoutData(handled: bool): Inputs {
    Inputs(None, None, Err(OtherError), None, None, Err(OtherError), None, handled)
  }

  /** So an event step stays RUNNING whatever happens, and a step whose failure handler fails as well. */
  lemma MissingDataLeavesRunning(capital: Money, handled: bool)
    ensures StepRunning in Trace(capital, [FromEvent(WithoutData(handled))]).db.steps
    ensures StepRunning in Trace(capital, [Next(WithoutData(handled))]).db.steps <==> !handled
  {
    var w := WithoutData(handled);
    StartGated(capital);
    FirstOf(Stages(Start(capital).db, w));
    OneRun(capital, FromEvent(w));
    OneRun(capital, Next(w));
    RunningAfter(Start(capital), FromEvent(w));
    RunningAfter(Start(capital), Next(w));
    hide Step;
    hide Gated;
  }

  lemma OneRun(capital: Money, r: Run)
    ensures Trace(capital, [r]) == Step(Start(capital), r)
  {
    assert [r][..0] == [] && Trace(capital, []) == Start(capital);
    hide Step;
  }

  /** A step that decides on an action at a price, and may fail at the broker or after it. */
  function Deciding(
    action: Action, price: real, broker: Result<BrokerResult, Exn>, finished: Option<Exn>
  ): Inputs
  {
    Inputs(None, None, Ok(Seen(Ruled(action), price)), None, None, broker, finished, true)
  }

  /** A BUY of any account that can pay for a share reaches the broker, and so does a SELL of any holding. */
  lemma DecidingReaches(
    db: Db, action: Action, price: real, k: int, broker: Result<BrokerResult, Exn>, finished: Option<Exn>
  )
    requires 0 < k && Fits19(k) && price * 100000000.0 == k as real && Fits19(db.book.cash)
    requires (action == Buy && db.book.cash >= 0 && db.book.cash * 10000 >= k)
      || (action == Sell && db.book.position > 0.0)
    ensures ReachesBroker(db, Deciding(action, price, broker, finished))
  {
    hide WholeShares;
    hide Worth;
    if action == Buy {
      CashSharesExact(db.book.cash, price, k);
      assert db.book.cash * 10000 / k >= 1;
    }
  }

  /**
    A call without an order row.  A BUY at $100 is called for, and then the call itself or the
    rest of its transaction raises: the broker has the call, the tables and the account nothing.
  */
  lemma CallWithoutOrder(capital: Money, broker: Result<BrokerResult, Exn>, finished: Option<Exn>)
    requires 1000000 <= capital && Fits19(capital) && (broker.Err? || finished.Some?)
    ensures var s := Trace(capital, [Next(Deciding(Buy, 100.0, broker, finished))]);
      CalledFor(s.calls, 0) && !OrderedFor(s.db.links, 0) && s.db.book == NewBook(capital)
  {
    var w := Deciding(Buy, 100.0, broker, finished);
    StartGated(capital);
    DecidingReaches(Start(capital).db, Buy, 100.0, 10000000000, broker, finished);
    CreatedStepCalls(Start(capital), Next(w));
    OneRun(capital, Next(w));
    LostBook(Start(capital), w);
    hide Step;
    hide ReachesBroker;
  }

  lemma LostBook(s: State, w: Inputs)
    requires Gated(s) && Creates(s, w) && ReachesBroker(s.db, w) && (w.broker.Err? || w.finished.Some?)
    ensures Step(s, Next(w)).db.book == s.db.book
  {
    NothingExists(s);
    GuardsAgree(w.seen.value.decision, s.db.book, w.seen.value.price);
    hide Submit;
    hide Revalue;
    hide CheckOn;
    hide Existing;
    hide Gated;
  }

  /** A step that the broker answers and that commits submits exactly that answer to the account. */
  lemma StepSubmits(s: State, w: Inputs)
    requires Gated(s) && Creates(s, w) && ReachesBroker(s.db, w)
    requires w.broker.Ok? && w.finished.None? && !ControlledFailure(w.broker.value)
    ensures var t := Step(s, Next(w));
      && t.db.book == Submit(s.db.book, w.broker.value, w.seen.value.price)
      && !t.db.failed && StepRunning !in t.db.steps && Gated(t) && |t.calls| == |s.calls| + 1
  {
    NothingExists(s);
    StepKeeps(s, Next(w));
    StepRows(s, Next(w));
    WorkCalls(s, w);
    GuardsAgree(w.seen.value.decision, s.db.book, w.seen.value.price);
    hide Submit;
    hide Revalue;
    hide CheckOn;
    hide Existing;
    hide Gated;
  }

  /** A submission at $10 that the broker does not refuse. */
  predicate Answers(e: Event) {
    e.Submission? && e.barPrice == 10.0 && !ControlledFailure(e.result)
  }

  /** The same for a step at $10 that is answered with the event's answer. */
  lemma SubmitsOnce(s: State, action: Action, e: Event)
    requires Gated(s) && !s.db.failed && StepRunning !in s.db.steps && Fits19(s.db.book.cash)
    requires Answers(e)
    requires (action == Buy && s.db.book.cash >= 100000) || (action == Sell && s.db.book.position > 0.0)
    ensures var t := Step(s, Next(Deciding(action, 10.0, Ok(e.result), None)));
      && t.db.book == Ledger.Step(s.db.book, e)
      && !t.db.failed && StepRunning !in t.db.steps && Gated(t) && |t.calls| == |s.calls| + 1
  {
    var w := Deciding(action, 10.0, Ok(e.result), None);
    DecidingReaches(s.db, action, 10.0, 1000000000, Ok(e.result), None);
    hide Step;
    hide Submit;
    hide Gated;
    hide ReachesBroker;
    StepSubmits(s, w);
  }

  /** Two SELLs, the second while the first is still open: each is for the whole holding, and both are filled. */
  function TwoSells(): seq<Run> {
    var e := SoldTwice();
    [Next(Deciding(Buy, 10.0, Ok(e[0].result), None)),
     Next(Deciding(Sell, 10.0, Ok(e[1].result), None)),
     Next(Deciding(Sell, 10.0, Ok(e[2].result), None)),
     SyncPass(id => if id == 1 then Some(e[3].result) else None, id => false)]
  }

  /**
    So RiskCheck does not prevent overselling: of $100, ten shares are bought and sold twice,
    and the account ends with $200 and no position.
  */
  lemma OpenSellIsSoldAgain()
    ensures var s := Trace(1000000, TwoSells());
      && s.db.book == Ledger.Run(NewBook(1000000), SoldTwice())
      && Oversold(0.0, s.db.book.trades) && s.db.book.cash == 2000000 && s.db.book.position == 0.0
      && |s.calls| == 3 && Gated(s)
  {
    var runs := TwoSells();
    var s3 := Step(Step(Step(Start(1000000), runs[0]), runs[1]), runs[2]);
    ThreeSubmissions();
    PollsOne(s3, runs[3].poll, runs[3].raises, 1, SoldTwice()[3].result);
    SecondSellOversells(1000000);
    FourEvents(NewBook(1000000), SoldTwice());
    FourRuns(1000000, runs);
    BrokerIsGated(1000000, runs);
    hide Step;
    hide Ledger.Step;
    hide Gated;
    hide Trace;
    hide Ledger.Run;
  }

  lemma ThreeSubmissions()
    ensures var e, runs := SoldTwice(), TwoSells();
      var s := Step(Step(Step(Start(1000000), runs[0]), runs[1]), runs[2]);
      && s.db.book == Ledger.Step(Ledger.Step(Ledger.Step(NewBook(1000000), e[0]), e[1]), e[2])
      && |s.calls| == 3 && OpenOrders(s.db.book.orders) == [1]
  {
    var e := SoldTwice();
    SoldTwiceHolds(1000000);
    StartGated(1000000);
    ThreeSteps(Start(1000000), e[0], e[1], e[2]);
    hide Step;
    hide Ledger.Step;
    hide Gated;
  }

  lemma ThreeSteps(s: State, e0: Event, e1: Event, e2: Event)
    requires Gated(s) && !s.db.failed && StepRunning !in s.db.steps
    requires Answers(e0) && Answers(e1) && Answers(e2)
    requires Fits19(s.db.book.cash) && s.db.book.cash >= 100000
    requires var b := Ledger.Step(s.db.book, e0); b.position > 0.0 && Fits19(b.cash)
    requires var b := Ledger.Step(Ledger.Step(s.db.book, e0), e1); b.position > 0.0 && Fits19(b.cash)
    ensures var t := Step(Step(Step(s,
        Next(Deciding(Buy, 10.0, Ok(e0.result), None))),
        Next(Deciding(Sell, 10.0, Ok(e1.result), None))),
        Next(Deciding(Sell, 10.0, Ok(e2.result), None)));
      && t.db.book == Ledger.Step(Ledger.Step(Ledger.Step(s.db.book, e0), e1), e2)
      && |t.calls| == |s.calls| + 3
  {
    var s1 := Step(s, Next(Deciding(Buy, 10.0, Ok(e0.result), None)));
    var s2 := Step(s1, Next(Deciding(Sell, 10.0, Ok(e1.result), None)));
    hide Step;
    hide Ledger.Step;
    hide Gated;
    SubmitsOnce(s, Buy, e0);
    SubmitsOnce(s1, Sell, e1);
    SubmitsOnce(s2, Sell, e2);
  }

  lemma PollsOne(
    s: State, poll: nat -> Option<BrokerResult>, raises: nat -> bool, id: nat, answer: BrokerResult
  )
    requires OpenOrders(s.db.book.orders) == [id] && poll(id) == Some(answer) && !raises(id)
    ensures Step(s, SyncPass(poll, raises)).db.book == Ledger.Step(s.db.book, Poll(id, answer))
    ensures Step(s, SyncPass(poll, raises)).calls == s.calls
  {
    assert [id][..0] == [] && Polls([], poll) == [];
    assert Polls([id], poll) == [] + [Poll(id, answer)];
    RunAppend(s.db.book, [], Poll(id, answer));
    hide Ledger.Step;
  }

  lemma FourRuns(capital: Money, runs: seq<Run>)
    requires |runs| == 4
    ensures Trace(capital, runs) == Step(Step(Step(Step(Start(capital), runs[0]), runs[1]), runs[2]), runs[3])
  {
    hide Step;
    assert runs[..3][..2] == runs[..2] && runs[..2][..1] == runs[..1] && runs[..1][..0] == [];
    assert Trace(capital, runs[..1]) == Step(Start(capital), runs[0]);
    assert Trace(capital, runs[..2]) == Step(Trace(capital, runs[..1]), runs[1]);
  }

  // ---------- The account over whole histories ----------

  lemma BrokerWorkBalanced(
    db: Db, step: nat, check: nat, r: RiskResult, price: real, w: Inputs, capital: Money
  )
    requires step < |db.steps| && Balanced(db.book, capital, 0.0)
    ensures Balanced(BrokerWork(db, step, check, r, price, w).db.book, capital, 0.0)
  {
    hide Balanced;
    hide Submit;
    hide Revalue;
    hide Existing;
    hide Applicable;
    RevalueBalanced(db.book, price, capital, 0.0);
    if w.broker.Ok? {
      SubmitBalanced(db.book, w.broker.value, price, capital, 0.0);
    }
  }

  lemma WorkBalanced(db: Db, step: nat, w: Inputs, capital: Money)
    requires step < |db.steps| && Balanced(db.book, capital, 0.0)
    ensures Balanced(Work(db, step, w).db.book, capital, 0.0)
  {
    hide Balanced;
    hide Revalue;
    hide CheckOn;
    hide BrokerWork;
    hide RequiresBroker;
    if w.seen.Ok? {
      var price := w.seen.value.price;
      var r := CheckOn(w.seen.value.decision, db.book, price);
      RevalueBalanced(db.book, price, capital, 0.0);
      BrokerWorkBalanced(db.(checks := db.checks + [CheckRow(step, r)]), step, |db.checks|, r, price, w, capital);
    }
  }

  lemma StepBook(s: State, r: Run, capital: Money)
    requires Balanced(s.db.book, capital, 0.0)
    ensures Balanced(Step(s, r).db.book, capital, 0.0)
  {
    if r.SyncPass? {
      HistoryBalanced(s.db.book, Polls(Reached(OpenOrders(s.db.book.orders), r.raises), r.poll), capital, 0.0);
    } else {
      WorkBalanced(Created(s.db), |s.db.steps|, r.w, capital);
    }
    hide Work;
    hide Balanced;
  }

  /** Steps and syncs conserve cash and position together: the ledger identities hold after any history. */
  lemma {:induction false} AccountBalanced(capital: Money, runs: seq<Run>)
    ensures Balanced(Trace(capital, runs).db.book, capital, 0.0)
  {
    hide Step;
    if runs != [] {
      AccountBalanced(capital, runs[..|runs| - 1]);
      StepBook(Trace(capital, runs[..|runs| - 1]), runs[|runs| - 1], capital);
      hide Balanced;
    }
  }
}
