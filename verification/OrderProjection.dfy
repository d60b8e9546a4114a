/** What the order row shows once the order service has read the dispatch log, in order and to the
    end, going back to earlier messages any number of times. */
module OrderProjection {
  import opened Common
  import opened AssignmentTable
  import opened DispatchSpec
  import opened DispatchLog
  import opened OrderService

  function AsOrderEvent(e: DispatchEvent): DispatchOrderEvent {
    DispatchOrderEvent(Some(e.eventType), Some(e.orderId), Some(e.driverId))
  }

  /** A consumer's positions in a log of n messages: it starts at the first message, never skips
      forward, may go back at any time, and ends on the last message. */
  ghost predicate ReadsToEnd(offsets: seq<nat>, n: nat) {
    && (forall k | 0 <= k < |offsets| :: offsets[k] < n)
    && (|offsets| > 0 ==> offsets[0] == 0)
    && (forall k | 0 < k < |offsets| :: offsets[k] <= offsets[k - 1] + 1)
    && (n > 0 ==> |offsets| > 0 && offsets[|offsets| - 1] == n - 1)
  }

  function ConsumeAt(orders: Orders, log: seq<DispatchEvent>, offsets: seq<nat>): Orders
    requires forall k | 0 <= k < |offsets| :: offsets[k] < |log|
  {
    if |offsets| == 0 then orders
    else
      var n := |offsets| - 1;
      Consume(ConsumeAt(orders, log, offsets[..n]), AsOrderEvent(log[offsets[n]]))
  }

  /** What the newest assignment says the order is. */
  function Shown(order: Order, rows: Table, o: OrderId): Order {
    var newest := Newest(rows, o);
    if newest.None? || newest.value >= |rows| then order
    else
      var row := rows[newest.value];
      var status := match row.status
        case Offered => OrderStatus.Offered
        case Rejected => OrderStatus.Offered
        case TimedOut => OrderStatus.Offered
        case Confirmed => Assigned
        case Completed => OrderStatus.Completed
        case Cancelled => OrderStatus.Cancelled;
      order.(status := status, assignedDriverId := Some(row.driverId))
  }

  /* The last message that concerns an order decides. */

  predicate Concerns(e: DispatchEvent, o: OrderId) {
    e.orderId == o && StatusFromDispatchEvent(e.eventType).Some?
  }

  function LastAbout(log: seq<DispatchEvent>, o: OrderId): Option<nat> {
    if |log| == 0 then None
    else if Concerns(log[|log| - 1], o) then Some(|log| - 1)
    else LastAbout(log[..|log| - 1], o)
  }

  lemma {:induction false} LastAboutIsLast(log: seq<DispatchEvent>, o: OrderId)
    ensures var l := LastAbout(log, o);
            && (l.Some? ==> l.value < |log| && Concerns(log[l.value], o))
            && (l.Some? ==> forall k | l.value < k < |log| :: !Concerns(log[k], o))
            && (l.None? ==> forall k | 0 <= k < |log| :: !Concerns(log[k], o))
  {
    if |log| > 0 {
      var front := log[..|log| - 1];
      LastAboutIsLast(front, o);
      assert forall k | 0 <= k < |front| :: front[k] == log[k];
    }
  }

  function Decided(order: Order, log: seq<DispatchEvent>, o: OrderId): Order {
    var l := LastAbout(log, o);
    if l.None? || l.value >= |log| then order else Updated(order, AsOrderEvent(log[l.value]))
  }

  lemma {:induction false} ConsumeAtKeepsOrders(orders: Orders, log: seq<DispatchEvent>, offsets: seq<nat>)
    requires forall k | 0 <= k < |offsets| :: offsets[k] < |log|
    ensures ConsumeAt(orders, log, offsets).Keys == orders.Keys
  {
    if |offsets| > 0 {
      ConsumeAtKeepsOrders(orders, log, offsets[..|offsets| - 1]);
    }
  }

  ghost predicate SameButProgress(a: Order, b: Order) {
    b == a.(status := b.status, assignedDriverId := b.assignedDriverId)
  }

  /** Once the reader stands at or past the order's last message, that message decides the row,
      whatever was read before and however often the reader went back. */
  lemma {:induction false} LastMessageDecides(orders: Orders, log: seq<DispatchEvent>, offsets: seq<nat>, o: OrderId)
    requires o in orders
    requires forall k | 0 <= k < |offsets| :: offsets[k] < |log|
    requires |offsets| > 0 ==> offsets[0] == 0
    requires forall k | 0 < k < |offsets| :: offsets[k] <= offsets[k - 1] + 1
    ensures o in ConsumeAt(orders, log, offsets)
    ensures SameButProgress(orders[o], ConsumeAt(orders, log, offsets)[o])
    ensures LastAbout(log, o).None? ==> ConsumeAt(orders, log, offsets)[o] == orders[o]
    ensures LastAbout(log, o).Some? && |offsets| > 0 && LastAbout(log, o).value <= offsets[|offsets| - 1] ==>
              ConsumeAt(orders, log, offsets)[o] == Decided(orders[o], log, o)
  {
    LastAboutIsLast(log, o);
    ConsumeAtKeepsOrders(orders, log, offsets);
    if |offsets| > 0 {
      var n := |offsets| - 1;
      LastMessageDecides(orders, log, offsets[..n], o);
    }
  }

  /* The order's log, and so its rows, decide. */

  lemma {:induction false} OrderLogDecides(order: Order, log: seq<DispatchEvent>, o: OrderId)
    ensures Decided(order, log, o) == Decided(order, OrderLog(log, o), o)
  {
    if |log| > 0 {
      var n := |log| - 1;
      OrderLogDecides(order, log[..n], o);
      LastAboutIsLast(log, o);
      LastAboutIsLast(log[..n], o);
      var own := OrderLog(log, o);
      LastAboutIsLast(own, o);
      if log[n].orderId == o {
        assert own[..|own| - 1] == OrderLog(log[..n], o);
        LastAboutIsLast(OrderLog(log[..n], o), o);
      }
    }
  }

  lemma LastAboutAppend(log: seq<DispatchEvent>, e: DispatchEvent, o: OrderId)
    ensures LastAbout(log + [e], o) == if Concerns(e, o) then Some(|log|) else LastAbout(log, o)
  {
    assert (log + [e])[..|log|] == log;
  }

  lemma RowDecides(order: Order, before: seq<DispatchEvent>, row: Assignment, id: AssignmentId)
    ensures Decided(order, before + RowEvents(row, id), row.orderId) ==
            Updated(order, DispatchOrderEvent(
                             Some(match row.status
                                  case Confirmed => AssignmentConfirmed
                                  case Completed => AssignmentCompleted
                                  case Cancelled => AssignmentCancelled
                                  case _ => AssignmentOffered),
                             Some(row.orderId), Some(row.driverId)))
  {
    var w, o := RowEvents(row, id), row.orderId;
    var all := before + w;
    LastAboutAppend(before, w[0], o);
    if |w| == 1 {
      assert all == before + [w[0]];
    } else {
      LastAboutAppend(before + [w[0]], w[1], o);
      if |w| == 2 {
        assert all == before + [w[0]] + [w[1]];
      } else {
        LastAboutAppend(before + [w[0]] + [w[1]], w[2], o);
        assert all == before + [w[0]] + [w[1]] + [w[2]];
      }
    }
  }

  lemma {:induction false} RowsDecide(order: Order, rows: Table, o: OrderId)
    ensures Decided(order, Word(rows, o), o) == Shown(order, rows, o)
  {
    if |rows| > 0 {
      var n := |rows| - 1;
      NewestIsLast(rows[..n], o);
      if rows[n].orderId == o {
        RowDecides(order, Word(rows[..n], o), rows[n], n);
      } else {
        RowsDecide(order, rows[..n], o);
      }
    }
  }

  /** After any run with successful emits, once the order service has read the dispatch log to its end,
      rewinding as often as it likes, every order shows exactly its newest assignment: untouched if it
      has none, OFFERED while that one is offered, rejected or timed out, then ASSIGNED, COMPLETED or
      CANCELLED, always with that assignment's driver. */
  lemma OrdersFollowDispatch(env: Env, steps: seq<Step>, orders: Orders, offsets: seq<nat>, o: OrderId)
    requires BrokerUp(env) && IsRun(env, EMPTY, steps) && o in orders
    requires ReadsToEnd(offsets, |Run(env, EMPTY, steps).log|)
    ensures var s := Run(env, EMPTY, steps);
            var after := ConsumeAt(orders, s.log, offsets);
            o in after && after[o] == Shown(orders[o], s.rows, o)
  {
    RunLogMatches(env, steps);
    var s := Run(env, EMPTY, steps);
    LastAboutIsLast(s.log, o);
    LastMessageDecides(orders, s.log, offsets, o);
    OrderLogDecides(orders[o], s.log, o);
    RowsDecide(orders[o], s.rows, o);
  }
}
