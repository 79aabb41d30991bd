/**
  What the broker's answers alone determine: each order's fills, the position of the whole
  account, and how far the cash spent on an order is from what its final price would give.
*/
module Reports {
  import opened Common
  import opened Decimals
  import opened Ledger

  /** A fill: the quantity added and the price it was added at. */
  datatype Part = Part(quantity: real, price: real)

  function PriceOf(e: Event): real {
    match e
    case Submission(r, _) => r.price.GetOr(0.0)
    case Poll(_, r) => r.price.GetOr(0.0)
  }

  /** The largest quantity any priced, known answer has reported for an order. */
  function Reported(events: seq<Event>, id: nat): real {
    if events == [] then 0.0
    else
      var k := |events| - 1;
      Larger(ReportAt(events, k, 0, id), Reported(events[..k], id))
  }

  /** Every increase of that quantity, at the price reported with it. */
  function Increases(events: seq<Event>, id: nat): seq<Part> {
    if events == [] then []
    else
      var k := |events| - 1;
      var before, report := Reported(events[..k], id), ReportAt(events, k, 0, id);
      Increases(events[..k], id)
      + Added(report, before, PriceOf(events[k]))
  }

  /** The fill that brings an order from what was traded to what is reported. */
  function Added(report: Option<real>, before: real, price: real): seq<Part> {
    if report.Some? && report.value > before then [Part(report.value - before, price)] else []
  }

  /** The trades of one order. */
  function PartsOf(trades: seq<Trade>, id: nat): seq<Part> {
    if trades == [] then []
    else
      var last := trades[|trades| - 1];
      PartsOf(trades[..|trades| - 1], id) + if last.order == id then [Part(last.quantity, last.price)] else []
  }

  lemma PartsAppend(trades: seq<Trade>, t: Trade, id: nat)
    ensures PartsOf(trades + [t], id) == PartsOf(trades, id) + if t.order == id then [Part(t.quantity, t.price)] else []
  {
    assert (trades + [t])[..|trades|] == trades;
  }

  /** One event adds the order's increase, if any, to its fills. */
  lemma StepParts(b: Book, e: Event, id: nat)
    requires Known(b)
    ensures var report, before := Ledger.Reports(e, |b.orders|, id), FilledQuantity(b.trades, id);
      PartsOf(Step(b, e).trades, id)
      == PartsOf(b.trades, id) + Added(report, before, PriceOf(e))
  {
    match e {
      case Submission(r, barPrice) => SubmitParts(b, r, barPrice, id);
      case Poll(order, r) => SyncParts(b, order, r, id);
    }
  }

  lemma SubmitParts(b: Book, r: BrokerResult, barPrice: real, id: nat)
    requires Known(b)
    ensures var e := Submission(r, barPrice);
      var report, before := Ledger.Reports(e, |b.orders|, id), FilledQuantity(b.trades, id);
      PartsOf(Submit(b, r, barPrice).trades, id)
      == PartsOf(b.trades, id) + Added(report, before, PriceOf(e))
  {
    if r.filled > 0.0 && r.price.Some? {
      PartsAppend(b.trades, Submit(b, r, barPrice).trades[|b.trades|], id);
    }
    if id == |b.orders| { FilledUnknown(b.trades, id); }
    hide Worth;
  }

  lemma SyncParts(b: Book, order: nat, r: BrokerResult, id: nat)
    requires Known(b)
    ensures var e := Poll(order, r);
      var report, before := Ledger.Reports(e, |b.orders|, id), FilledQuantity(b.trades, id);
      PartsOf(Sync(b, order, r).trades, id)
      == PartsOf(b.trades, id) + Added(report, before, PriceOf(e))
  {
    if |Sync(b, order, r).trades| > |b.trades| {
      PartsAppend(b.trades, Sync(b, order, r).trades[|b.trades|], id);
    }
    hide Worth;
  }

  /** The trades of an order are exactly the increases in what was reported for it. */
  lemma {:induction false} FillsAreIncreases(capital: Money, events: seq<Event>, id: nat)
    ensures var b := Run(NewBook(capital), events);
      Known(b) && FilledQuantity(b.trades, id) == Reported(events, id) && PartsOf(b.trades, id) == Increases(events, id)
  {
    hide *;
    if events == [] {
      NothingReported(capital, id);
    } else {
      FillsAreIncreases(capital, events[..|events| - 1], id);
      LastEvent(capital, events, id);
      LastReport(events, id);
    }
  }

  lemma NothingReported(capital: Money, id: nat)
    ensures var b := Run(NewBook(capital), []);
      Known(b) && FilledQuantity(b.trades, id) == Reported([], id) && PartsOf(b.trades, id) == Increases([], id)
  {
  }

  lemma LastReport(events: seq<Event>, id: nat)
    requires events != []
    ensures var k := |events| - 1;
      var before, report := Reported(events[..k], id), ReportAt(events, k, 0, id);
      && Reported(events, id) == Larger(report, before)
      && Increases(events, id)
         == Increases(events[..k], id)
            + Added(report, before, PriceOf(events[k]))
  {
    hide ReportAt;
  }

  lemma LastEvent(capital: Money, events: seq<Event>, id: nat)
    requires events != [] && Known(Run(NewBook(capital), events[..|events| - 1]))
    ensures var k := |events| - 1;
      var before, b := Run(NewBook(capital), events[..k]), Run(NewBook(capital), events);
      var report, filled := ReportAt(events, k, 0, id), FilledQuantity(before.trades, id);
      && Known(b) && FilledQuantity(b.trades, id) == Larger(report, filled)
      && PartsOf(b.trades, id)
         == PartsOf(before.trades, id)
            + Added(report, filled, PriceOf(events[k]))
  {
    var k := |events| - 1;
    var before := Run(NewBook(capital), events[..k]);
    OrderCount(NewBook(capital), events[..k]);
    OrdersBeforePrefix(events, k, k, 0);
    assert Run(NewBook(capital), events) == Step(before, events[k]);
    assert |before.orders| == OrdersBefore(events, k, 0);
    hide Run;
    hide Step;
    hide Known;
    hide OrdersBefore;
    StepFills(before, events[k], id);
    StepParts(before, events[k], id);
  }

  // ---------- The position of the account ----------

  function SignOf(side: Side, quantity: real): real {
    if side == BuySide then quantity else -quantity
  }

  /** The traded quantities of the first n orders, bought ones positive, sold ones negative. */
  function SignedFilled(orders: seq<OrderRow>, trades: seq<Trade>, n: nat): real
    requires n <= |orders|
  {
    if n == 0 then 0.0
    else SignedFilled(orders, trades, n - 1) + SignOf(orders[n - 1].side, FilledQuantity(trades, n - 1))
  }

  /** The same of their largest reports. */
  function SignedReports(orders: seq<OrderRow>, events: seq<Event>, n: nat): real
    requires n <= |orders|
  {
    if n == 0 then 0.0
    else SignedReports(orders, events, n - 1) + SignOf(orders[n - 1].side, Reported(events, n - 1))
  }

  /** Every trade is on the side of its order. */
  ghost predicate SidesMatch(b: Book) {
    forall i :: 0 <= i < |b.trades| ==>
      b.trades[i].order < |b.orders| && b.trades[i].side == b.orders[b.trades[i].order].side
  }

  lemma StepSides(b: Book, e: Event)
    requires SidesMatch(b)
    ensures SidesMatch(Step(b, e))
    ensures |b.orders| <= |Step(b, e).orders|
    ensures forall id :: 0 <= id < |b.orders| ==> Step(b, e).orders[id].side == b.orders[id].side
  {
    hide Worth;
    hide FilledQuantity;
  }

  lemma {:induction false} RunSides(capital: Money, events: seq<Event>)
    ensures SidesMatch(Run(NewBook(capital), events))
  {
    if events != [] {
      RunSides(capital, events[..|events| - 1]);
      StepSides(Run(NewBook(capital), events[..|events| - 1]), events[|events| - 1]);
      hide Step;
    }
  }

  lemma {:induction false} SignedAppend(trades: seq<Trade>, t: Trade, orders: seq<OrderRow>, n: nat)
    requires n <= |orders| && t.order < |orders| && t.side == orders[t.order].side
    ensures SignedFilled(orders, trades + [t], n)
      == SignedFilled(orders, trades, n) + if t.order < n then SignOf(t.side, t.quantity) else 0.0
  {
    if n > 0 {
      SignedAppend(trades, t, orders, n - 1);
      FilledAppend(trades, t, n - 1);
    }
  }

  lemma {:induction false} SignedNothing(orders: seq<OrderRow>, n: nat)
    requires n <= |orders|
    ensures SignedFilled(orders, [], n) == 0.0
  {
    if n > 0 {
      SignedNothing(orders, n - 1);
    }
  }

  /** The net traded quantity, order by order. */
  lemma {:induction false} NetByOrder(trades: seq<Trade>, orders: seq<OrderRow>)
    requires forall i :: 0 <= i < |trades| ==>
      trades[i].order < |orders| && trades[i].side == orders[trades[i].order].side
    ensures NetQuantity(trades) == SignedFilled(orders, trades, |orders|)
  {
    if trades == [] {
      SignedNothing(orders, |orders|);
    } else {
      var k := |trades| - 1;
      NetByOrder(trades[..k], orders);
      SignedAppend(trades[..k], trades[k], orders, |orders|);
      assert trades == trades[..k] + [trades[k]];
    }
  }

  lemma {:induction false} FilledIsReported(capital: Money, events: seq<Event>, n: nat)
    requires n <= |Run(NewBook(capital), events).orders|
    ensures var b := Run(NewBook(capital), events);
      SignedFilled(b.orders, b.trades, n) == SignedReports(b.orders, events, n)
  {
    hide Run;
    if n > 0 {
      FilledIsReported(capital, events, n - 1);
      FillsAreIncreases(capital, events, n - 1);
    }
  }

  lemma {:induction false} SameReports(
    orders: seq<OrderRow>, rows: seq<OrderRow>, events: seq<Event>, others: seq<Event>, n: nat
  )
    requires n <= |orders| && n <= |rows|
    requires forall id :: 0 <= id < n ==>
      orders[id].side == rows[id].side && Reported(events, id) == Reported(others, id)
    ensures SignedReports(orders, events, n) == SignedReports(rows, others, n)
  {
    if n > 0 {
      SameReports(orders, rows, events, others, n - 1);
    }
  }

  /**
    After any history, with any number of orders and their fills in any order, the position is
    at least the signed sum of the orders' largest reports, and equal to it exactly when no
    SELL fill exceeded what was held.
  */
  lemma PositionFromReports(capital: Money, events: seq<Event>)
    ensures var b := Run(NewBook(capital), events);
      var reported := SignedReports(b.orders, events, |b.orders|);
      && b.position >= reported
      && (b.position == reported <==> !Oversold(0.0, b.trades))
  {
    hide Run;
    var b := Run(NewBook(capital), events);
    StartBalanced(capital);
    HistoryBalanced(NewBook(capital), events, capital, 0.0);
    PositionOfTrades(0.0, b.trades);
    RunSides(capital, events);
    NetByOrder(b.trades, b.orders);
    FilledIsReported(capital, events, |b.orders|);
    hide Oversold;
  }

  lemma StartBalanced(capital: Money)
    ensures Balanced(NewBook(capital), capital, 0.0)
  {
  }

  /** So the position depends on the reports only: two histories that agree on them end with the same one. */
  lemma SameReportsSamePosition(capital: Money, events: seq<Event>, others: seq<Event>)
    requires var a, b := Run(NewBook(capital), events), Run(NewBook(capital), others);
      && |a.orders| == |b.orders|
      && (forall id :: 0 <= id < |a.orders| ==>
            a.orders[id].side == b.orders[id].side && Reported(events, id) == Reported(others, id))
      && !Oversold(0.0, a.trades) && !Oversold(0.0, b.trades)
    ensures Run(NewBook(capital), events).position == Run(NewBook(capital), others).position
  {
    hide Run;
    hide Oversold;
    var a, b := Run(NewBook(capital), events), Run(NewBook(capital), others);
    PositionFromReports(capital, events);
    PositionFromReports(capital, others);
    SameReports(a.orders, b.orders, events, others, |a.orders|);
  }

  // ---------- The cash spent on an order ----------

  function Quantity(parts: seq<Part>): real {
    if parts == [] then 0.0 else Quantity(parts[..|parts| - 1]) + parts[|parts| - 1].quantity
  }

  function Cost(parts: seq<Part>): Money {
    if parts == [] then 0
    else Cost(parts[..|parts| - 1]) + Worth(parts[|parts| - 1].quantity, parts[|parts| - 1].price)
  }

  /** How far the reported prices are from a final price, by quantity, in dollars. */
  function Drift(parts: seq<Part>, last: real): real {
    if parts == [] then 0.0
    else
      var p := parts[|parts| - 1];
      Drift(parts[..|parts| - 1], last) + p.quantity * (p.price - last)
  }

  function CostOf(trades: seq<Trade>, id: nat): Money {
    if trades == [] then 0
    else
      var last := trades[|trades| - 1];
      CostOf(trades[..|trades| - 1], id) + if last.order == id then last.value else 0
  }

  lemma {:induction false} CostOfParts(trades: seq<Trade>, id: nat)
    requires forall i :: 0 <= i < |trades| ==> trades[i].value == Worth(trades[i].quantity, trades[i].price)
    ensures CostOf(trades, id) == Cost(PartsOf(trades, id))
  {
    if trades != [] {
      var k := |trades| - 1;
      CostOfParts(trades[..k], id);
      var parts := PartsOf(trades[..k], id);
      if trades[k].order == id {
        assert (parts + [Part(trades[k].quantity, trades[k].price)])[..|parts|] == parts;
      } else {
        assert parts + [] == parts;
      }
      hide Worth;
    }
  }

  /** Within half a tick per fill, an order costs its quantity at the final price plus the drift. */
  lemma {:induction false} CostNearDrift(parts: seq<Part>, last: real)
    ensures -0.5 * |parts| as real
      <= Cost(parts) as real - (Quantity(parts) * last + Drift(parts, last)) * 10000.0
      <= 0.5 * |parts| as real
  {
    hide *;
    if parts == [] {
      NoParts(last);
    } else {
      var k := |parts| - 1;
      var p := parts[k];
      CostNearDrift(parts[..k], last);
      LastPart(parts, last);
      PartCost(p.quantity, p.price);
      NextFill(Quantity(parts[..k]), Drift(parts[..k], last), p.quantity, p.price, last);
      NextNear(Cost(parts[..k]), Worth(p.quantity, p.price), Quantity(parts[..k]) * last + Drift(parts[..k], last),
        p.quantity * p.price, Quantity(parts) * last + Drift(parts, last), k);
    }
  }

  lemma NoParts(last: real)
    ensures Quantity([]) == 0.0 && Cost([]) == 0 && Drift([], last) == 0.0
  {
  }

  lemma LastPart(parts: seq<Part>, last: real)
    requires parts != []
    ensures var k := |parts| - 1;
      var p := parts[k];
      && Quantity(parts) == Quantity(parts[..k]) + p.quantity
      && Cost(parts) == Cost(parts[..k]) + Worth(p.quantity, p.price)
      && Drift(parts, last) == Drift(parts[..k], last) + p.quantity * (p.price - last)
  {
    hide Worth;
  }

  lemma NextNear(cost: Money, worth: Money, before: real, part: real, after: real, n: nat)
    requires -0.5 * n as real <= cost as real - before * 10000.0 <= 0.5 * n as real
    requires -0.5 <= worth as real - part * 10000.0 <= 0.5 && after == before + part
    ensures -0.5 * (n + 1) as real <= (cost + worth) as real - after * 10000.0 <= 0.5 * (n + 1) as real
  {
  }

  /** What a fill adds to quantity at the final price and to the drift is what it costs. */
  lemma NextFill(total: real, drift: real, quantity: real, price: real, last: real)
    ensures (total + quantity) * last + (drift + quantity * (price - last)) == total * last + drift + quantity * price
  {
    Distribute(total, quantity, last);
    SplitPrice(quantity, price, last);
  }

  lemma PartCost(quantity: real, price: real)
    ensures -0.5 <= Worth(quantity, price) as real - (quantity * price) * 10000.0 <= 0.5
  {
    hide RoundHalfEven;
  }

  lemma SplitPrice(quantity: real, price: real, last: real)
    ensures quantity * price == quantity * last + quantity * (price - last)
  {
  }

  /** Amounts that need no rounding. */
  predicate OnGrid(quantity: real, price: real) {
    Worth(quantity, price) as real == quantity * price * 10000.0
  }

  predicate AllOnGrid(parts: seq<Part>) {
    forall i :: 0 <= i < |parts| ==> OnGrid(parts[i].quantity, parts[i].price)
  }

  lemma {:induction false} CostOnGrid(parts: seq<Part>, last: real)
    requires AllOnGrid(parts)
    ensures Cost(parts) as real == (Quantity(parts) * last + Drift(parts, last)) * 10000.0
  {
    if parts == [] {
      NoParts(last);
    } else {
      var k := |parts| - 1;
      var p := parts[k];
      assert OnGrid(p.quantity, p.price);
      hide Worth;
      hide Cost;
      hide Drift;
      hide Quantity;
      CostOnGrid(parts[..k], last);
      LastPart(parts, last);
      NextFill(Quantity(parts[..k]), Drift(parts[..k], last), p.quantity, p.price, last);
      NextExact(Cost(parts[..k]), Worth(p.quantity, p.price), Quantity(parts[..k]) * last + Drift(parts[..k], last),
        p.quantity * p.price, Quantity(parts) * last + Drift(parts, last));
    }
  }

  lemma NextExact(cost: Money, worth: Money, before: real, part: real, after: real)
    requires cost as real == before * 10000.0 && worth as real == part * 10000.0 && after == before + part
    ensures (cost + worth) as real == after * 10000.0
  {
  }

  /**
    What an order has cost against what its whole reported quantity costs at a final price.
    The condition is on the answers: the increases they reported and the prices with them.
    They differ by the drift, up to half a tick per fill and half a tick for the comparison;
    a larger drift makes them differ; and where no amount needs rounding, which whole shares
    at cent prices never do, they are equal exactly when the drift is nothing.
  */
  lemma CashFromReports(capital: Money, events: seq<Event>, id: nat, last: real)
    ensures var b, parts := Run(NewBook(capital), events), Increases(events, id);
      var spent, settled := CostOf(b.trades, id), Worth(Reported(events, id), last);
      var drift := Drift(parts, last) * 10000.0;
      var bound := 0.5 * (|parts| + 1) as real;
      && -bound <= (spent - settled) as real - drift <= bound
      && ((forall i :: 0 <= i < |parts| ==> parts[i].price == last) ==> -bound <= (spent - settled) as real <= bound)
      && (drift < -bound || drift > bound ==> spent != settled)
      && (AllOnGrid(parts) && OnGrid(Reported(events, id), last) ==> (spent == settled <==> drift == 0.0))
  {
    hide Run;
    var b, parts := Run(NewBook(capital), events), Increases(events, id);
    SpentOnParts(capital, events, id);
    CostCompared(parts, Reported(events, id), last);
    hide Worth;
    hide Cost;
    hide Drift;
    hide Reported;
    hide Increases;
  }

  lemma SpentOnParts(capital: Money, events: seq<Event>, id: nat)
    ensures CostOf(Run(NewBook(capital), events).trades, id) == Cost(Increases(events, id))
    ensures Reported(events, id) == Quantity(Increases(events, id))
  {
    hide Run;
    var b := Run(NewBook(capital), events);
    FillsAreIncreases(capital, events, id);
    StartBalanced(capital);
    HistoryBalanced(NewBook(capital), events, capital, 0.0);
    CostOfParts(b.trades, id);
    QuantityOfParts(b.trades, id);
    hide Worth;
  }

  lemma CostCompared(parts: seq<Part>, total: real, last: real)
    requires total == Quantity(parts)
    ensures var spent, settled := Cost(parts), Worth(total, last);
      var drift, bound := Drift(parts, last) * 10000.0, 0.5 * (|parts| + 1) as real;
      && -bound <= (spent - settled) as real - drift <= bound
      && ((forall i :: 0 <= i < |parts| ==> parts[i].price == last) ==> -bound <= (spent - settled) as real <= bound)
      && (drift < -bound || drift > bound ==> spent != settled)
      && (AllOnGrid(parts) && OnGrid(total, last) ==> (spent == settled <==> drift == 0.0))
  {
    CostNearDrift(parts, last);
    PartCost(total, last);
    if forall i :: 0 <= i < |parts| ==> parts[i].price == last {
      NoDrift(parts, last);
    }
    if AllOnGrid(parts) {
      CostOnGrid(parts, last);
    }
    hide Worth;
    hide Cost;
    hide Drift;
  }

  lemma {:induction false} QuantityOfParts(trades: seq<Trade>, id: nat)
    ensures Quantity(PartsOf(trades, id)) == FilledQuantity(trades, id)
  {
    if trades != [] {
      var k := |trades| - 1;
      QuantityOfParts(trades[..k], id);
      var parts := PartsOf(trades[..k], id);
      if trades[k].order == id {
        assert (parts + [Part(trades[k].quantity, trades[k].price)])[..|parts|] == parts;
      } else {
        assert parts + [] == parts;
      }
    }
  }

  lemma {:induction false} NoDrift(parts: seq<Part>, last: real)
    requires forall i :: 0 <= i < |parts| ==> parts[i].price == last
    ensures Drift(parts, last) == 0.0
  {
    if parts != [] {
      NoDrift(parts[..|parts| - 1], last);
    }
  }

  /** One fill off the final price is a drift of its own. */
  lemma {:induction false} OneOffPrice(parts: seq<Part>, last: real, k: nat)
    requires k < |parts| && forall i :: 0 <= i < |parts| && i != k ==> parts[i].price == last
    ensures Drift(parts, last) == parts[k].quantity * (parts[k].price - last)
  {
    var n := |parts| - 1;
    if k == n {
      NoDrift(parts[..n], last);
    } else {
      OneOffPrice(parts[..n], last, k);
      assert parts[n].price - last == 0.0;
    }
  }

  /** Every fill but one is at the final price, and that one is off it by more than the tick bound. */
  ghost predicate OneOff(parts: seq<Part>, last: real, k: nat, off: real) {
    && k < |parts| && (forall i :: 0 <= i < |parts| && i != k ==> parts[i].price == last)
    && off == parts[k].quantity * (parts[k].price - last)
    && Abs(off) * 10000.0 > 0.5 * (|parts| + 1) as real
  }

  /** Then the cash differs from what the final price would give. */
  lemma OneFillOffFinal(capital: Money, events: seq<Event>, id: nat, last: real, k: nat, off: real)
    requires OneOff(Increases(events, id), last, k, off)
    ensures CostOf(Run(NewBook(capital), events).trades, id) != Worth(Reported(events, id), last)
  {
    OffBound(Increases(events, id), last, k, off);
    CashFromReports(capital, events, id, last);
    hide Run;
    hide Worth;
    hide Drift;
  }

  lemma OffBound(parts: seq<Part>, last: real, k: nat, off: real)
    requires OneOff(parts, last, k, off)
    ensures var drift, bound := Drift(parts, last) * 10000.0, 0.5 * (|parts| + 1) as real;
      drift < -bound || drift > bound
  {
    OneOffPrice(parts, last, k);
  }
}
