/**
  The paper account: orders, persisted trades and the portfolio row they change, from
  submission and from any sequence of broker polls.
*/
module Ledger {
  import opened Common
  import opened Decimals

  datatype Side = BuySide | SellSide

  datatype OrderStatus = Submitted | Filled | Rejected | Cancelled | Unsupported

  /** The broker's status word after lower-casing; any other word is `OtherWord`. */
  datatype StatusWord =
    | WordFilled | WordAccepted | WordNew | WordPendingNew | WordPartiallyFilled
    | WordRejected | WordCanceled | WordCancelled | WordExpired | OtherWord

  /** `submitted` is the time the broker, or failing that the step, gives for the submission. */
  datatype BrokerResult = BrokerResult(
    status: StatusWord, side: Side, quantity: real, filled: real, price: Option<real>, submitted: int)

  datatype OrderRow = OrderRow(side: Side, quantity: real, status: OrderStatus, price: Option<real>, submitted: int)

  datatype Trade = Trade(order: nat, side: Side, quantity: real, price: real, value: Money)

  /** Orders are numbered by their place in `orders`. */
  datatype Book = Book(
    cash: Money, position: real,
    mark: Option<real>, positionValue: Money, value: Money,
    orders: seq<OrderRow>, trades: seq<Trade>)

  function NewBook(initialCapital: Money): Book {
    Book(initialCapital, 0.0, None, 0, initialCapital, [], [])
  }

  function MapStatus(status: StatusWord): Option<OrderStatus> {
    match status
    case WordFilled => Some(Filled)
    case WordAccepted | WordNew | WordPendingNew | WordPartiallyFilled => Some(Submitted)
    case WordRejected => Some(Rejected)
    case WordCanceled | WordCancelled | WordExpired => Some(Cancelled)
    case OtherWord => None
  }

  // ---------- What one transaction does ----------

  function SellDown(position: real, quantity: real): (left: real)
    ensures left == Max(position - quantity, 0.0)
  {
    if position - quantity <= 0.0 then 0.0 else position - quantity
  }

  function Fill(b: Book, order: nat, side: Side, quantity: real, price: real): Book {
    var value := Worth(quantity, price);
    b.(cash := if side == BuySide then b.cash - value else b.cash + value,
       position := if side == BuySide then b.position + quantity else SellDown(b.position, quantity),
       trades := b.trades + [Trade(order, side, quantity, price, value)])
  }

  function Revalue(b: Book, price: real): Book {
    var worth := Worth(b.position, price);
    b.(mark := Some(price), positionValue := worth, value := b.cash + worth)
  }

  function RowOf(r: BrokerResult): OrderRow {
    OrderRow(r.side, r.quantity, MapStatus(r.status).GetOr(Unsupported), r.price, r.submitted)
  }

  /** The order row and the fill reported with it. */
  function Place(b: Book, r: BrokerResult): Book {
    var id := |b.orders|;
    var placed := b.(orders := b.orders + [RowOf(r)]);
    if r.filled > 0.0 && r.price.Some? then Fill(placed, id, r.side, r.filled, r.price.value) else placed
  }

  /** Submission: the order, then the snapshot at the bar's price. */
  function Submit(b: Book, r: BrokerResult, barPrice: real): Book {
    Revalue(Place(b, r), barPrice)
  }

  function FilledQuantity(trades: seq<Trade>, order: nat): real {
    if trades == [] then 0.0
    else
      var last := trades[|trades| - 1];
      FilledQuantity(trades[..|trades| - 1], order) + if last.order == order then last.quantity else 0.0
  }

  /** One poll of one order. */
  function Sync(b: Book, id: nat, r: BrokerResult): Book {
    var status := MapStatus(r.status);
    if id >= |b.orders| || status.None? then b
    else
      var row := b.orders[id].(status := status.value, price := r.price);
      var polled := b.(orders := b.orders[id := row]);
      var delta := r.filled - FilledQuantity(b.trades, id);
      if delta > 0.0 && r.price.Some?
      then Revalue(Fill(polled, id, row.side, delta, r.price.value), r.price.value)
      else polled
  }

  // ---------- The account object ----------

  class Account {
    var cash: Money
    var position: real
    var mark: Option<real>
    var positionValue: Money
    var value: Money
    var orders: seq<OrderRow>
    var trades: seq<Trade>

    ghost function Contents(): Book
      reads this
    {
      Book(cash, position, mark, positionValue, value, orders, trades)
    }

    constructor (initialCapital: Money)
      ensures Contents() == NewBook(initialCapital)
    {
      cash, position, mark, positionValue, value := initialCapital, 0.0, None, 0, initialCapital;
      orders, trades := [], [];
    }

    method ApplyFill(order: nat, side: Side, quantity: real, price: real)
      modifies this
      ensures Contents() == Fill(old(Contents()), order, side, quantity, price)
    {
      var fillValue := Worth(quantity, price);
      if side == BuySide {
        cash := cash - fillValue;
        position := position + quantity;
      } else {
        cash := cash + fillValue;
        var remaining := position - quantity;
        position := if remaining <= 0.0 then 0.0 else remaining;
      }
      trades := trades + [Trade(order, side, quantity, price, fillValue)];
    }

    method MarkToMarket(price: real)
      modifies this
      ensures Contents() == Revalue(old(Contents()), price)
    {
      mark := Some(price);
      positionValue := Worth(position, price);
      value := cash + positionValue;
    }

    method ExecuteOrder(r: BrokerResult, barPrice: real) returns (id: nat)
      modifies this
      ensures id == |old(orders)|
      ensures Contents() == Submit(old(Contents()), r, barPrice)
    {
      id := |orders|;
      orders := orders + [RowOf(r)];
      if r.filled > 0.0 && r.price.Some? {
        ApplyFill(id, r.side, r.filled, r.price.value);
      }
      MarkToMarket(barPrice);
    }

    method SumFilled(order: nat) returns (total: real)
      ensures total == FilledQuantity(trades, order)
    {
      total := 0.0;
      for i := 0 to |trades|
        invariant total == FilledQuantity(trades[..i], order)
      {
        assert trades[..i + 1][..i] == trades[..i];
        if trades[i].order == order {
          total := total + trades[i].quantity;
        }
      }
      assert trades[..|trades|] == trades;
    }

    method PersistOrderSync(id: nat, r: BrokerResult) returns (synced: bool)
      modifies this
      ensures Contents() == Sync(old(Contents()), id, r)
      ensures synced <==> id < |old(orders)| && MapStatus(r.status).Some?
    {
      var mapped := MapStatus(r.status);
      if id >= |orders| || mapped.None? {
        return false;
      }
      orders := orders[id := orders[id].(status := mapped.value, price := r.price)];
      var existing := SumFilled(id);
      var delta := r.filled - existing;
      if delta > 0.0 && r.price.Some? {
        ApplyFill(id, orders[id].side, delta, r.price.value);
        MarkToMarket(r.price.value);
      }
      synced := true;
    }

    method PollOrder(id: nat, answer: Option<BrokerResult>) returns (synced: bool)
      modifies this
      ensures Contents() == if answer.Some? then Step(old(Contents()), Poll(id, answer.value)) else old(Contents())
      ensures |orders| == |old(orders)|
      ensures synced <==> id < |orders| && answer.Some? && MapStatus(answer.value.status).Some?
    {
      if answer.None? {
        return false;
      }
      synced := PersistOrderSync(id, answer.value);
    }

    /**
      Polls the orders that were SUBMITTED when the pass began, each in a transaction of its own;
      None is a provider error.  Any other exception, from the broker or from the transaction,
      leaves its order as it was and ends the pass.
    */
    method SyncOpenOrders(poll: nat -> Option<BrokerResult>, raises: nat -> bool)
      returns (synced: seq<nat>, failed: seq<nat>, completed: bool)
      modifies this
      ensures var reached := Reached(OpenOrders(old(orders)), raises);
        && Contents() == Run(old(Contents()), Polls(reached, poll))
        && synced == Answered(reached, poll, true)
        && failed == Answered(reached, poll, false)
        && completed == (reached == OpenOrders(old(orders)))
    {
      var open := OpenOrders(orders);
      synced, failed, completed := [], [], false;
      ghost var start := Contents();
      for i := 0 to |open|
        invariant Contents() == Run(start, Polls(open[..i], poll))
        invariant |orders| == |old(orders)|
        invariant synced == Answered(open[..i], poll, true)
        invariant failed == Answered(open[..i], poll, false)
        invariant forall k :: 0 <= k < i ==> !raises(open[k])
      {
        if raises(open[i]) {
          ReachedIs(open, raises, i);
          return;
        }
        assert open[..i + 1][..i] == open[..i];
        if poll(open[i]).Some? {
          RunAppend(start, Polls(open[..i], poll), Poll(open[i], poll(open[i]).value));
        }
        var ok := PollOrder(open[i], poll(open[i]));
        if ok {
          synced := synced + [open[i]];
        } else {
          failed := failed + [open[i]];
        }
      }
      assert open[..|open|] == open;
      ReachedIs(open, raises, |open|);
      completed := true;
    }
  }

  /** The orders a pass gets to: those before the first that raises. */
  function Reached(ids: seq<nat>, raises: nat -> bool): (r: seq<nat>)
    ensures r <= ids && (forall k :: 0 <= k < |r| ==> !raises(r[k])) && (r == ids || raises(ids[|r|]))
  {
    if ids == [] || raises(ids[0]) then []
    else
      var rest := Reached(ids[1..], raises);
      assert ids == [ids[0]] + ids[1..];
      [ids[0]] + rest
  }

  lemma {:induction false} ReachedIs(ids: seq<nat>, raises: nat -> bool, i: nat)
    requires i <= |ids| && (forall k :: 0 <= k < i ==> !raises(ids[k])) && (i < |ids| ==> raises(ids[i]))
    ensures Reached(ids, raises) == ids[..i]
  {
    if i > 0 {
      ReachedIs(ids[1..], raises, i - 1);
    }
  }

  /** Earlier submitted first; of two submitted at once, the earlier row. */
  predicate Before(orders: seq<OrderRow>, i: nat, j: nat)
    requires i < |orders| && j < |orders|
  {
    orders[i].submitted < orders[j].submitted || (orders[i].submitted == orders[j].submitted && i < j)
  }

  ghost predicate InOrder(orders: seq<OrderRow>, ids: seq<nat>) {
    && (forall k :: 0 <= k < |ids| ==> ids[k] < |orders|)
    && forall i, j :: 0 <= i < j < |ids| ==> Before(orders, ids[i], ids[j])
  }

  /** Puts the newest row into an ordered list. */
  function InsertNewest(orders: seq<OrderRow>, ids: seq<nat>, n: nat): (r: seq<nat>)
    requires n < |orders| && InOrder(orders, ids) && forall k :: 0 <= k < |ids| ==> ids[k] < n
    ensures InOrder(orders, r)
    ensures forall id :: id in r <==> id == n || id in ids
  {
    if ids == [] then [n]
    else
      var k := |ids| - 1;
      var last := ids[k];
      assert ids == ids[..k] + [last];
      if orders[last].submitted <= orders[n].submitted then ids + [n]
      else
        var rest := InsertNewest(orders, ids[..k], n);
        assert forall i :: 0 <= i < |rest| ==> rest[i] in rest;
        rest + [last]
  }

  /** The SUBMITTED orders, by submission time and then by row: the list a sync pass polls. */
  function OpenOrders(orders: seq<OrderRow>): (ids: seq<nat>)
    ensures InOrder(orders, ids)
    ensures forall id :: id in ids <==> 0 <= id < |orders| && orders[id].status == Submitted
  {
    if orders == [] then []
    else
      var n := |orders| - 1;
      var before := OpenOrders(orders[..n]);
      assert forall k :: 0 <= k < |before| ==> before[k] in before;
      if orders[n].status == Submitted then InsertNewest(orders, before, n) else before
  }

  /** So the earlier submitted comes first, and of two submitted at once the earlier row. */
  lemma OpenInTime(orders: seq<OrderRow>, i: nat, j: nat)
    requires i < j < |OpenOrders(orders)|
    ensures var a, b := OpenOrders(orders)[i], OpenOrders(orders)[j];
      && a < |orders| && b < |orders| && orders[a].submitted <= orders[b].submitted
      && (orders[a].submitted == orders[b].submitted ==> a < b)
  {
    assert Before(orders, OpenOrders(orders)[i], OpenOrders(orders)[j]);
  }

  /** The polled orders whose answer came and had a known status, or those where it did not. */
  function Answered(ids: seq<nat>, poll: nat -> Option<BrokerResult>, well: bool): seq<nat> {
    if ids == [] then []
    else
      var id := ids[|ids| - 1];
      var known := poll(id).Some? && MapStatus(poll(id).value.status).Some?;
      Answered(ids[..|ids| - 1], poll, well) + if known == well then [id] else []
  }

  /** Synced are exactly the polled orders answered in a known word, failed exactly the others. */
  lemma {:induction false} AnsweredExactly(ids: seq<nat>, poll: nat -> Option<BrokerResult>, well: bool, id: nat)
    ensures id in Answered(ids, poll, well) <==>
      id in ids && (well <==> poll(id).Some? && poll(id).value.status != OtherWord)
  {
    if ids != [] {
      AnsweredExactly(ids[..|ids| - 1], poll, well, id);
      assert ids == ids[..|ids| - 1] + [ids[|ids| - 1]];
    }
  }

  // ---------- Whole histories ----------

  datatype Event = Submission(result: BrokerResult, barPrice: real) | Poll(order: nat, result: BrokerResult)

  function Step(b: Book, e: Event): Book {
    match e
    case Submission(r, barPrice) => Submit(b, r, barPrice)
    case Poll(id, r) => Sync(b, id, r)
  }

  function Run(b: Book, events: seq<Event>): Book {
    if events == [] then b else Step(Run(b, events[..|events| - 1]), events[|events| - 1])
  }

  lemma RunAppend(b: Book, events: seq<Event>, e: Event)
    ensures Run(b, events + [e]) == Step(Run(b, events), e)
  {
    assert (events + [e])[..|events|] == events;
  }

  function Polls(ids: seq<nat>, poll: nat -> Option<BrokerResult>): seq<Event> {
    if ids == [] then []
    else
      var id := ids[|ids| - 1];
      var before := Polls(ids[..|ids| - 1], poll);
      if poll(id).Some? then before + [Poll(id, poll(id).value)] else before
  }

  /** The filled quantity a priced answer about an order that exists reports for it. */
  function Reports(e: Event, next: nat, id: nat): Option<real> {
    match e
    case Submission(r, _) =>
      if next == id && r.filled > 0.0 && r.price.Some? then Some(r.filled) else None
    case Poll(order, r) =>
      if order == id < next && MapStatus(r.status).Some? && r.price.Some? then Some(r.filled) else None
  }

  /** Orders existing before event i, when there were n at the start. */
  function OrdersBefore(events: seq<Event>, i: nat, n: nat): nat
    requires i <= |events|
  {
    if i == 0 then n else OrdersBefore(events, i - 1, n) + if events[i - 1].Submission? then 1 else 0
  }

  function ReportAt(events: seq<Event>, i: nat, n: nat, id: nat): Option<real>
    requires i < |events|
  {
    Reports(events[i], OrdersBefore(events, i, n), id)
  }

  /** m is the largest quantity reported for order id in the events, or the quantity there at the start. */
  ghost predicate LargestReport(m: real, base: real, events: seq<Event>, n: nat, id: nat) {
    && base <= m
    && (forall i :: 0 <= i < |events| && ReportAt(events, i, n, id).Some? ==> ReportAt(events, i, n, id).value <= m)
    && (m == base || exists i :: 0 <= i < |events| && ReportAt(events, i, n, id) == Some(m))
  }

  lemma OrdersBeforePrefix(events: seq<Event>, k: nat, i: nat, n: nat)
    requires i <= k <= |events|
    ensures OrdersBefore(events[..k], i, n) == OrdersBefore(events, i, n)
  {
  }

  lemma OrderCount(b: Book, events: seq<Event>)
    ensures |Run(b, events).orders| == OrdersBefore(events, |events|, |b.orders|)
  {
    if events != [] {
      var k := |events| - 1;
      OrderCount(b, events[..k]);
      OrdersBeforePrefix(events, k, k, |b.orders|);
    }
  }

  /** Trades only ever name orders that exist. */
  ghost predicate Known(b: Book) {
    forall i :: 0 <= i < |b.trades| ==> b.trades[i].order < |b.orders|
  }

  lemma FilledAppend(trades: seq<Trade>, t: Trade, id: nat)
    ensures FilledQuantity(trades + [t], id) == FilledQuantity(trades, id) + if t.order == id then t.quantity else 0.0
  {
    assert (trades + [t])[..|trades|] == trades;
  }

  lemma {:induction trades} FilledUnknown(trades: seq<Trade>, id: nat)
    requires forall i :: 0 <= i < |trades| ==> trades[i].order != id
    ensures FilledQuantity(trades, id) == 0.0
  {
  }

  function Larger(report: Option<real>, m: real): real {
    if report.Some? && report.value > m then report.value else m
  }

  /** One event moves an order's traded quantity to the larger of itself and what is reported. */
  lemma StepFills(b: Book, e: Event, id: nat)
    requires Known(b)
    ensures Known(Step(b, e))
    ensures FilledQuantity(Step(b, e).trades, id) == Larger(Reports(e, |b.orders|, id), FilledQuantity(b.trades, id))
  {
    match e {
      case Submission(r, barPrice) => SubmitFills(b, r, barPrice, id);
      case Poll(order, r) => SyncFills(b, order, r, id);
    }
  }

  lemma SubmitFills(b: Book, r: BrokerResult, barPrice: real, id: nat)
    requires Known(b)
    ensures Known(Submit(b, r, barPrice))
    ensures FilledQuantity(Submit(b, r, barPrice).trades, id)
         == Larger(Reports(Submission(r, barPrice), |b.orders|, id), FilledQuantity(b.trades, id))
  {
    if r.filled > 0.0 && r.price.Some? {
      FilledAppend(b.trades, Submit(b, r, barPrice).trades[|b.trades|], id);
      if id == |b.orders| { FilledUnknown(b.trades, id); }
    }
  }

  lemma SyncFills(b: Book, order: nat, r: BrokerResult, id: nat)
    requires Known(b)
    ensures Known(Sync(b, order, r))
    ensures FilledQuantity(Sync(b, order, r).trades, id)
         == Larger(Reports(Poll(order, r), |b.orders|, id), FilledQuantity(b.trades, id))
  {
    if |Sync(b, order, r).trades| > |b.trades| {
      FilledAppend(b.trades, Sync(b, order, r).trades[|b.trades|], id);
    }
  }

  /**
    Fill sync converges.  After any history of submissions and of polls that are repeated,
    stale, out of order, of unknown status or without a price, the trades of an order sum
    to the largest quantity any priced, known answer reported for it.
  */
  lemma {:induction false} SyncConverges(b: Book, events: seq<Event>, id: nat)
    requires Known(b)
    ensures Known(Run(b, events))
    ensures var filled, before := FilledQuantity(Run(b, events).trades, id), FilledQuantity(b.trades, id);
      LargestReport(filled, before, events, |b.orders|, id)
  {
    if events != [] {
      var k, n := |events| - 1, |b.orders|;
      var prefix := events[..k];
      SyncConverges(b, prefix, id);
      LastEventFills(b, events, id);
      LargestReportStep(FilledQuantity(Run(b, prefix).trades, id), FilledQuantity(b.trades, id), events, n, id);
    }
  }

  lemma LastEventFills(b: Book, events: seq<Event>, id: nat)
    requires events != [] && Known(Run(b, events[..|events| - 1]))
    ensures Known(Run(b, events))
    ensures var k := |events| - 1;
      FilledQuantity(Run(b, events).trades, id)
      == Larger(ReportAt(events, k, |b.orders|, id), FilledQuantity(Run(b, events[..k]).trades, id))
  {
    var k := |events| - 1;
    OrderCount(b, events[..k]);
    OrdersBeforePrefix(events, k, k, |b.orders|);
    StepFills(Run(b, events[..k]), events[k], id);
  }

  lemma LargestReportStep(m: real, base: real, events: seq<Event>, n: nat, id: nat)
    requires events != [] && LargestReport(m, base, events[..|events| - 1], n, id)
    ensures var k := |events| - 1;
      LargestReport(Larger(ReportAt(events, k, n, id), m), base, events, n, id)
  {
    var k := |events| - 1;
    var prefix := events[..k];
    forall i | 0 <= i < k ensures ReportAt(prefix, i, n, id) == ReportAt(events, i, n, id) {
      OrdersBeforePrefix(events, k, i, n);
    }
    var last := ReportAt(events, k, n, id);
    if last.Some? && last.value > m {
    } else if m != base {
      var i :| 0 <= i < k && ReportAt(prefix, i, n, id) == Some(m);
      assert ReportAt(events, i, n, id) == Some(m);
    }
  }

  /** A poll that reports no more than is already traded changes neither trades nor portfolio. */
  lemma StalePollIsNoOp(b: Book, id: nat, r: BrokerResult)
    requires r.filled <= FilledQuantity(b.trades, id)
    ensures Sync(b, id, r).(orders := b.orders) == b
  {
  }

  /** So polling twice with the same answer is polling once. */
  lemma ResyncIsNoOp(b: Book, id: nat, r: BrokerResult)
    requires Known(b)
    ensures Sync(Sync(b, id, r), id, r) == Sync(b, id, r)
  {
    StepFills(b, Poll(id, r), id);
    var c := Sync(b, id, r);
    if id < |b.orders| && MapStatus(r.status).Some? {
      assert c.orders[id := c.orders[id].(status := MapStatus(r.status).value, price := r.price)] == c.orders;
    }
  }

  /** The status a known answer about an order gives it. */
  function StatusReport(e: Event, next: nat, id: nat): Option<OrderStatus> {
    match e
    case Submission(r, _) => if next == id then Some(MapStatus(r.status).GetOr(Unsupported)) else None
    case Poll(order, r) => if order == id < next then MapStatus(r.status) else None
  }

  /** The last status given in the events, or the one there was. */
  function LastStatus(events: seq<Event>, n: nat, id: nat, start: Option<OrderStatus>): Option<OrderStatus> {
    if events == [] then start
    else
      var k := |events| - 1;
      var report := StatusReport(events[k], OrdersBefore(events[..k], k, n), id);
      if report.Some? then report else LastStatus(events[..k], n, id, start)
  }

  function StatusOf(b: Book, id: nat): Option<OrderStatus> {
    if id < |b.orders| then Some(b.orders[id].status) else None
  }

  /** An order's status is what the last known answer about it said; unknown words and other orders never touch it. */
  lemma {:induction false} StatusIsLastKnown(b: Book, events: seq<Event>, id: nat)
    ensures StatusOf(Run(b, events), id) == LastStatus(events, |b.orders|, id, StatusOf(b, id))
  {
    if events != [] {
      var k := |events| - 1;
      StatusIsLastKnown(b, events[..k], id);
      OrderCount(b, events[..k]);
    }
  }

  // ---------- Which orders stay open ----------

  /** The word of an answer about an order, when it is one the system knows. */
  function WordAbout(e: Event, next: nat, id: nat): Option<StatusWord> {
    match e
    case Submission(r, _) => if next == id && r.status != OtherWord then Some(r.status) else None
    case Poll(order, r) => if order == id < next && r.status != OtherWord then Some(r.status) else None
  }

  /** The last such word in the events. */
  function LastWord(events: seq<Event>, n: nat, id: nat): Option<StatusWord> {
    if events == [] then None
    else
      var k := |events| - 1;
      var word := WordAbout(events[k], OrdersBefore(events[..k], k, n), id);
      if word.Some? then word else LastWord(events[..k], n, id)
  }

  /** The broker still works on the order; a partial fill leaves it open. */
  predicate StillWorking(word: StatusWord) {
    word == WordAccepted || word == WordNew || word == WordPendingNew || word == WordPartiallyFilled
  }

  /** What an order's status means in the broker's words; an order only ever answered in other words is unsupported. */
  predicate Means(status: OrderStatus, word: Option<StatusWord>) {
    && (status == Submitted <==> word.Some? && StillWorking(word.value))
    && (status == Filled <==> word == Some(WordFilled))
    && (status == Rejected <==> word == Some(WordRejected))
    && (status == Cancelled <==> word in [Some(WordCanceled), Some(WordCancelled), Some(WordExpired)])
    && (status == Unsupported <==> word.None?)
  }

  lemma {:induction false} StatusByWord(capital: Money, events: seq<Event>, id: nat)
    ensures var b := Run(NewBook(capital), events);
      if id < |b.orders| then Means(b.orders[id].status, LastWord(events, 0, id)) else LastWord(events, 0, id).None?
  {
    if events != [] {
      var k := |events| - 1;
      StatusByWord(capital, events[..k], id);
      OrderCount(NewBook(capital), events[..k]);
      WordStep(Run(NewBook(capital), events[..k]), events[k], id);
      hide Run;
      hide Step;
      hide Means;
      hide WordAbout;
      assert Run(NewBook(capital), events) == Step(Run(NewBook(capital), events[..k]), events[k]);
    }
  }

  /** One event gives the order the status its word means, or leaves it. */
  lemma WordStep(b: Book, e: Event, id: nat)
    ensures var c, word := Step(b, e), WordAbout(e, |b.orders|, id);
      && |b.orders| <= |c.orders|
      && (id >= |c.orders| ==> word.None?)
      && (id < |c.orders| && word.Some? ==> Means(c.orders[id].status, word))
      && (id < |b.orders| && word.None? ==> c.orders[id].status == b.orders[id].status)
      && (|b.orders| <= id < |c.orders| && word.None? ==> Means(c.orders[id].status, None))
  {
    hide Worth;
    hide FilledQuantity;
  }

  /**
    A pass polls exactly the orders the broker still works on: those whose last known word was
    accepted, new, pending_new or partially_filled.
  */
  lemma OpenByWord(capital: Money, events: seq<Event>, id: nat)
    ensures var b, word := Run(NewBook(capital), events), LastWord(events, 0, id);
      id in OpenOrders(b.orders)
      <==> word in [Some(WordAccepted), Some(WordNew), Some(WordPendingNew), Some(WordPartiallyFilled)]
  {
    StatusByWord(capital, events, id);
  }

  /** The quantity a pass reports for an order: its answer must come, be known and carry a price. */
  function Answer(poll: nat -> Option<BrokerResult>, id: nat): Option<real> {
    if poll(id).Some? && poll(id).value.status != OtherWord && poll(id).value.price.Some?
    then Some(poll(id).value.filled) else None
  }

  /** Polling orders once each brings every one of them to the larger of what it had and what is answered. */
  lemma {:induction false} PollsFill(b: Book, ids: seq<nat>, poll: nat -> Option<BrokerResult>, id: nat)
    requires Known(b) && forall k :: 0 <= k < |ids| ==> ids[k] < |b.orders|
    requires forall i, j :: 0 <= i < j < |ids| ==> ids[i] != ids[j]
    ensures var c := Run(b, Polls(ids, poll));
      && Known(c) && |c.orders| == |b.orders|
      && FilledQuantity(c.trades, id)
         == Larger(if id in ids then Answer(poll, id) else None, FilledQuantity(b.trades, id))
  {
    hide *;
    if ids == [] {
      NoPolls(b, poll);
      NotLarger(FilledQuantity(b.trades, id));
    } else {
      var k := |ids| - 1;
      var before := Run(b, Polls(ids[..k], poll));
      PollsFill(b, ids[..k], poll, id);
      LastPoll(b, ids, poll);
      PollFills(before, ids[k], poll, id);
      assert ids == ids[..k] + [ids[k]];
      NotLarger(FilledQuantity(b.trades, id));
      NotLarger(FilledQuantity(before.trades, id));
    }
  }

  lemma NotLarger(m: real)
    ensures Larger(None, m) == m
  {
  }

  lemma NoPolls(b: Book, poll: nat -> Option<BrokerResult>)
    ensures Run(b, Polls([], poll)) == b
  {
  }

  /** The account after one order's answer, or as it was without one. */
  function Polled(b: Book, id: nat, poll: nat -> Option<BrokerResult>): Book {
    if poll(id).Some? then Step(b, Poll(id, poll(id).value)) else b
  }

  lemma LastPoll(b: Book, ids: seq<nat>, poll: nat -> Option<BrokerResult>)
    requires ids != []
    ensures var k := |ids| - 1;
      Run(b, Polls(ids, poll)) == Polled(Run(b, Polls(ids[..k], poll)), ids[k], poll)
  {
    var k := |ids| - 1;
    if poll(ids[k]).Some? {
      RunAppend(b, Polls(ids[..k], poll), Poll(ids[k], poll(ids[k]).value));
    }
    hide Step;
    hide Run;
  }

  lemma PollFills(b: Book, polled: nat, poll: nat -> Option<BrokerResult>, id: nat)
    requires Known(b) && polled < |b.orders|
    ensures var c := Polled(b, polled, poll);
      && Known(c) && |c.orders| == |b.orders|
      && FilledQuantity(c.trades, id)
         == Larger(if id == polled then Answer(poll, id) else None, FilledQuantity(b.trades, id))
  {
    if poll(polled).Some? {
      StepFills(b, Poll(polled, poll(polled).value), id);
      PollKeepsCount(b, polled, poll(polled).value);
    }
    hide Step;
    hide Known;
    hide FilledQuantity;
  }

  lemma PollKeepsCount(b: Book, id: nat, r: BrokerResult)
    ensures |Step(b, Poll(id, r)).orders| == |b.orders|
  {
    hide Worth;
  }

  /**
    The sync path end to end.  After any history, a pass that raises nothing brings every order
    the broker still works on, partly filled ones included, to at least the quantity the pass
    reports for it, and leaves the trades of all others alone.
  */
  lemma PassCatchesUp(capital: Money, events: seq<Event>, poll: nat -> Option<BrokerResult>, id: nat)
    ensures var b, word := Run(NewBook(capital), events), LastWord(events, 0, id);
      var c := Run(b, Polls(OpenOrders(b.orders), poll));
      if word in [Some(WordAccepted), Some(WordNew), Some(WordPendingNew), Some(WordPartiallyFilled)]
         && Answer(poll, id).Some?
      then
        && FilledQuantity(c.trades, id) >= Answer(poll, id).value
        && FilledQuantity(c.trades, id) == Larger(Answer(poll, id), FilledQuantity(b.trades, id))
      else FilledQuantity(c.trades, id) == FilledQuantity(b.trades, id)
  {
    var b := Run(NewBook(capital), events);
    var ids := OpenOrders(b.orders);
    SyncConverges(NewBook(capital), events, id);
    OpenByWord(capital, events, id);
    assert forall i, j :: 0 <= i < j < |ids| ==> Before(b.orders, ids[i], ids[j]);
    hide Run;
    hide LastWord;
    hide OpenOrders;
    PollsFill(b, ids, poll, id);
  }

  /**
    What an event does to the columns that are not summed: the account is valued at the bar's
    price after a submission and at the answer's price after a poll that adds a fill, and at
    the old one otherwise; of an order's row a known answer changes status and price alone.
  */
  lemma EventLeaves(b: Book, e: Event, id: nat)
    requires id < |b.orders|
    ensures var c := Step(b, e);
      && (match e
          case Submission(r, barPrice) =>
            && c.mark == Some(barPrice) && |c.orders| == |b.orders| + 1 && c.orders[id] == b.orders[id]
            && var row := c.orders[|b.orders|];
               && row.side == r.side && row.quantity == r.quantity
               && row.price == r.price && row.submitted == r.submitted
          case Poll(order, r) =>
            && c.mark == (if |c.trades| > |b.trades| then r.price else b.mark)
            && |c.orders| == |b.orders|
            && c.orders[id].side == b.orders[id].side && c.orders[id].quantity == b.orders[id].quantity
            && c.orders[id].submitted == b.orders[id].submitted
            && c.orders[id].price == (if order == id && r.status != OtherWord then r.price else b.orders[id].price))
      && (e.Submission? || |c.trades| > |b.trades| ==>
            c.positionValue == Worth(c.position, c.mark.GetOr(0.0)) && c.value == c.cash + c.positionValue)
  {
    hide Worth;
    hide FilledQuantity;
  }

  // ---------- Conservation ----------

  function Bought(trades: seq<Trade>): Money {
    if trades == [] then 0
    else
      var last := trades[|trades| - 1];
      Bought(trades[..|trades| - 1]) + if last.side == BuySide then last.value else 0
  }

  function Sold(trades: seq<Trade>): Money {
    if trades == [] then 0
    else
      var last := trades[|trades| - 1];
      Sold(trades[..|trades| - 1]) + if last.side == SellSide then last.value else 0
  }

  function NetQuantity(trades: seq<Trade>): real {
    if trades == [] then 0.0
    else
      var last := trades[|trades| - 1];
      NetQuantity(trades[..|trades| - 1]) + if last.side == BuySide then last.quantity else -last.quantity
  }

  /** The position after the first trades, starting from a holding. */
  function Held(start: real, trades: seq<Trade>): real {
    if trades == [] then start
    else
      var last := trades[|trades| - 1];
      var before := Held(start, trades[..|trades| - 1]);
      if last.side == BuySide then before + last.quantity else SellDown(before, last.quantity)
  }

  /** Some SELL fill was larger than what was held when it was applied. */
  ghost predicate Oversold(start: real, trades: seq<Trade>) {
    exists i :: 0 <= i < |trades| && OversoldAt(start, trades, i)
  }

  predicate OversoldAt(start: real, trades: seq<Trade>, i: nat)
    requires i < |trades|
  {
    trades[i].side == SellSide && Held(start, trades[..i]) < trades[i].quantity
  }

  /** The ledger identities, relative to a starting cash and holding. */
  ghost predicate Balanced(b: Book, cash0: Money, position0: real) {
    && b.cash == cash0 - Bought(b.trades) + Sold(b.trades)
    && b.position == Held(position0, b.trades)
    && (forall i :: 0 <= i < |b.trades| ==>
          b.trades[i].quantity > 0.0 && b.trades[i].value == Worth(b.trades[i].quantity, b.trades[i].price))
    && (b.mark.Some? ==> b.positionValue == Worth(b.position, b.mark.value) && b.value == b.cash + b.positionValue)
  }

  lemma FillBalanced(
    b: Book, id: nat, side: Side, quantity: real, price: real, mark: real, cash0: Money, position0: real
  )
    requires Balanced(b, cash0, position0) && quantity > 0.0
    ensures Balanced(Revalue(Fill(b, id, side, quantity, price), mark), cash0, position0)
  {
    hide Worth;
    var after := Fill(b, id, side, quantity, price);
    assert after.trades[..|b.trades|] == b.trades;
  }

  /** The identities say nothing about the order rows. */
  lemma OrdersBalanced(b: Book, orders: seq<OrderRow>, cash0: Money, position0: real)
    requires Balanced(b, cash0, position0)
    ensures Balanced(b.(orders := orders), cash0, position0)
  {
    hide Worth;
  }

  lemma RevalueBalanced(b: Book, price: real, cash0: Money, position0: real)
    requires Balanced(b, cash0, position0)
    ensures Balanced(Revalue(b, price), cash0, position0)
  {
    hide Worth;
  }

  lemma SubmitBalanced(b: Book, r: BrokerResult, barPrice: real, cash0: Money, position0: real)
    requires Balanced(b, cash0, position0)
    ensures Balanced(Submit(b, r, barPrice), cash0, position0)
  {
    var placed := b.(orders := b.orders + [RowOf(r)]);
    OrdersBalanced(b, placed.orders, cash0, position0);
    if r.filled > 0.0 && r.price.Some? {
      FillBalanced(placed, |b.orders|, r.side, r.filled, r.price.value, barPrice, cash0, position0);
    } else {
      RevalueBalanced(placed, barPrice, cash0, position0);
    }
    hide Balanced;
    hide Fill;
    hide Revalue;
  }

  lemma SyncBalanced(b: Book, id: nat, r: BrokerResult, cash0: Money, position0: real)
    requires Balanced(b, cash0, position0)
    ensures Balanced(Sync(b, id, r), cash0, position0)
  {
    if id < |b.orders| && MapStatus(r.status).Some? {
      var polled := b.(orders := b.orders[id := b.orders[id].(status := MapStatus(r.status).value, price := r.price)]);
      var delta := r.filled - FilledQuantity(b.trades, id);
      OrdersBalanced(b, polled.orders, cash0, position0);
      if delta > 0.0 && r.price.Some? {
        FillBalanced(polled, id, b.orders[id].side, delta, r.price.value, r.price.value, cash0, position0);
      }
    }
    hide Balanced;
    hide Fill;
    hide Revalue;
  }

  lemma StepBalanced(b: Book, e: Event, cash0: Money, position0: real)
    requires Balanced(b, cash0, position0)
    ensures Balanced(Step(b, e), cash0, position0)
  {
    hide Balanced;
    hide Submit;
    hide Sync;
    match e {
      case Submission(r, barPrice) => SubmitBalanced(b, r, barPrice, cash0, position0);
      case Poll(id, r) => SyncBalanced(b, id, r, cash0, position0);
    }
  }

  /**
    Exact conservation over any history: cash is the starting cash minus every bought and
    plus every sold order value, to the last 1/10000.
  */
  lemma {:induction false} HistoryBalanced(b: Book, events: seq<Event>, cash0: Money, position0: real)
    requires Balanced(b, cash0, position0)
    ensures Balanced(Run(b, events), cash0, position0)
  {
    if events != [] {
      HistoryBalanced(b, events[..|events| - 1], cash0, position0);
      StepBalanced(Run(b, events[..|events| - 1]), events[|events| - 1], cash0, position0);
    }
  }

  /**
    The position is never negative, and it is the net traded quantity exactly when no SELL
    fill ever exceeded the holding; otherwise it is strictly more.
  */
  lemma {:induction false} PositionOfTrades(start: real, trades: seq<Trade>)
    requires start >= 0.0
    requires forall i :: 0 <= i < |trades| ==> trades[i].quantity > 0.0
    ensures Held(start, trades) >= 0.0
    ensures Held(start, trades) >= start + NetQuantity(trades)
    ensures Held(start, trades) == start + NetQuantity(trades) <==> !Oversold(start, trades)
  {
    if trades != [] {
      var k := |trades| - 1;
      var prefix := trades[..k];
      PositionOfTrades(start, prefix);
      forall i | 0 <= i < k ensures OversoldAt(start, prefix, i) == OversoldAt(start, trades, i) {
        assert prefix[..i] == trades[..i];
      }
      if Oversold(start, prefix) {
        var i :| 0 <= i < k && OversoldAt(start, prefix, i);
        assert OversoldAt(start, trades, i);
      }
      assert OversoldAt(start, trades, k) ==> Oversold(start, trades);
    }
  }

  /** Ten shares are bought; of two SELLs of all ten, the second is filled at once and the first at the next poll. */
  function SoldTwice(): seq<Event> {
    [Submission(BrokerResult(WordFilled, BuySide, 10.0, 10.0, Some(10.0), 0), 10.0),
     Submission(BrokerResult(WordAccepted, SellSide, 10.0, 0.0, None, 1), 10.0),
     Submission(BrokerResult(WordFilled, SellSide, 10.0, 10.0, Some(10.0), 2), 10.0),
     Poll(1, BrokerResult(WordFilled, SellSide, 10.0, 10.0, Some(10.0), 3))]
  }

  /** Both SELLs are asked for with all ten shares held, and only the first is then left open. */
  lemma SoldTwiceHolds(initialCapital: Money)
    ensures var b, e := NewBook(initialCapital), SoldTwice();
      var b1 := Step(b, e[0]);
      var b2 := Step(b1, e[1]);
      && b1.position == b2.position == 10.0
      && b1.cash == b2.cash == initialCapital - 1000000
      && OpenOrders(Step(b2, e[2]).orders) == [1]
  {
    RoundExact(1000000);
    hide RoundHalfEven;
    var b, e := NewBook(initialCapital), SoldTwice();
    var orders := Step(Step(Step(b, e[0]), e[1]), e[2]).orders;
    assert orders[0].status == orders[2].status == Filled && orders[1].status == Submitted && |orders| == 3;
    OnlyOpen(orders, 1);
  }

  lemma OnlyOpen(orders: seq<OrderRow>, id: nat)
    requires id < |orders| && forall i :: 0 <= i < |orders| ==> (orders[i].status == Submitted <==> i == id)
    ensures OpenOrders(orders) == [id]
  {
    var ids := OpenOrders(orders);
    assert id in ids;
    forall k | 0 <= k < |ids| ensures ids[k] == id { assert ids[k] in ids; }
    assert |ids| > 1 ==> Before(orders, ids[0], ids[1]);
  }

  /** Such a history oversells: ten shares are sold twice, and the position stops at zero. */
  lemma SecondSellOversells(initialCapital: Money)
    ensures var b := Run(NewBook(initialCapital), SoldTwice());
      && Oversold(0.0, b.trades)
      && b.position == 0.0 && NetQuantity(b.trades) == -10.0
      && b.cash == initialCapital + 1000000
  {
    RoundExact(1000000);
    hide RoundHalfEven;
    var all := SoldTwice();
    var start := NewBook(initialCapital);
    var bought, asked := Step(start, all[0]), Step(Step(start, all[0]), all[1]);
    var sold := Step(asked, all[2]);
    var buy, sell := Trade(0, BuySide, 10.0, 10.0, 1000000), Trade(2, SellSide, 10.0, 10.0, 1000000);
    assert [] + [buy] == [buy] && bought.trades == [buy];
    assert sold.trades == [buy, sell];
    FilledUnknown(sold.trades, 1);
    var again := Trade(1, SellSide, 10.0, 10.0, 1000000);
    var trades := [buy, sell, again];
    assert Step(sold, all[3]).trades == trades;
    FourEvents(start, all);
    assert trades[..2] == [buy, sell] && trades[..2][..1] == [buy] && [buy][..0] == [];
    assert Held(0.0, [buy]) == 10.0 && Held(0.0, trades[..2]) == 0.0;
    assert NetQuantity([buy]) == NetQuantity([buy][..0]) + 10.0 == 10.0;
    assert NetQuantity(trades[..2]) == NetQuantity(trades[..2][..1]) - 10.0;
    assert OversoldAt(0.0, trades, 2);
  }

  lemma FourEvents(b: Book, events: seq<Event>)
    requires |events| == 4
    ensures Run(b, events) == Step(Step(Step(Step(b, events[0]), events[1]), events[2]), events[3])
  {
    hide Step;
    assert events[..3][..2] == events[..2] && events[..2][..1] == events[..1] && events[..1][..0] == [];
    assert Run(b, events[..1]) == Step(b, events[0]);
    assert Run(b, events[..2]) == Step(Run(b, events[..1]), events[1]);
  }

  /**
    For one order with no other order in between, the position depends only on the largest
    quantity reported, not on how the fills were split over answers.
  */
  lemma {:induction false} PositionOfOneOrder(start: real, trades: seq<Trade>, order: nat, side: Side)
    requires start >= 0.0
    requires forall i :: 0 <= i < |trades| ==>
      trades[i].quantity > 0.0 && trades[i].order == order && trades[i].side == side
    ensures FilledQuantity(trades, order) >= 0.0
    ensures var total := FilledQuantity(trades, order);
      Held(start, trades) == if side == BuySide then start + total else SellDown(start, total)
  {
    if trades != [] {
      PositionOfOneOrder(start, trades[..|trades| - 1], order, side);
    }
  }

  /** The account after any history from a fresh start. */
  lemma LedgerTheorem(initialCapital: Money, events: seq<Event>)
    ensures var b := Run(NewBook(initialCapital), events);
      && b.cash == initialCapital - Bought(b.trades) + Sold(b.trades)
      && b.position >= 0.0
      && (b.position == NetQuantity(b.trades) <==> !Oversold(0.0, b.trades))
      && (b.mark.Some? ==> b.value == b.cash + Worth(b.position, b.mark.value))
      && forall id: nat :: LargestReport(FilledQuantity(b.trades, id), 0.0, events, 0, id)
  {
    var start := NewBook(initialCapital);
    HistoryBalanced(start, events, initialCapital, 0.0);
    PositionOfTrades(0.0, Run(start, events).trades);
    forall id: nat
      ensures LargestReport(FilledQuantity(Run(start, events).trades, id), 0.0, events, 0, id)
    {
      SyncConverges(start, events, id);
    }
  }

  /**
    Cash, unlike quantity, is not determined by the final report: each delta is priced at
    the average reported with it.  Ten shares reported at 11 cost 110 when seen at once and
    105 when the first five were seen at 10.
  */
  lemma CashDependsOnPolling()
    ensures var asked := Submission(BrokerResult(WordAccepted, BuySide, 10.0, 0.0, None, 0), 10.0);
      var half := Poll(0, BrokerResult(WordPartiallyFilled, BuySide, 10.0, 5.0, Some(10.0), 0));
      var all := Poll(0, BrokerResult(WordFilled, BuySide, 10.0, 10.0, Some(11.0), 0));
      var placed := Step(NewBook(2000000), asked);
      var seen, missed := Step(Step(placed, half), all), Step(placed, all);
      FilledQuantity(seen.trades, 0) == FilledQuantity(missed.trades, 0) == 10.0
      && seen.cash == 950000 && missed.cash == 900000
  {
    var asked := Submission(BrokerResult(WordAccepted, BuySide, 10.0, 0.0, None, 0), 10.0);
    var half := Poll(0, BrokerResult(WordPartiallyFilled, BuySide, 10.0, 5.0, Some(10.0), 0));
    var placed := Step(NewBook(2000000), asked);
    RoundExact(500000);
    RoundExact(550000);
    RoundExact(1100000);
    assert placed.trades == [];
    var t := Trade(0, BuySide, 5.0, 10.0, 500000);
    assert Step(placed, half).trades == [t];
    FilledAppend([], t, 0);
    assert [] + [t] == [t];
    FilledAppend([t], Trade(0, BuySide, 5.0, 11.0, 550000), 0);
    FilledAppend([], Trade(0, BuySide, 10.0, 11.0, 1100000), 0);
  }
}
