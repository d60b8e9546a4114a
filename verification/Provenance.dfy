/** From the order table through outbox, relay, topic and dispatch: every assignment belongs to an
    order that exists and carries that order's coordinates. */
module Provenance {
  import opened Common
  import opened AssignmentTable
  import opened DispatchSpec
  import opened DispatchMoves
  import opened DispatchOutcomes
  import opened OrderService
  import Outbox

  datatype Sys = Sys(orders: Orders, relay: Outbox.Relay, disp: State)

  const EMPTY := Sys(map[], Outbox.EMPTY, DispatchSpec.EMPTY)

  datatype Op =
    | PlaceOrder(dto: CreateOrder, id: OrderId)
    | Notified(row: nat)
    | RelayCron
    | Deliver(offset: nat)                // any message of order.created, any number of times
    | Dispatch(step: Step)                // anything but order.created
    | OrderHears(event: DispatchOrderEvent)

  ghost predicate Allowed(sys: Sys, op: Op) {
    match op
    case PlaceOrder(_, id) => id !in sys.orders
    case Deliver(k) => k < |sys.relay.published|
    case Dispatch(step) => !step.HandleOrderCreated? && DispatchSpec.Allowed(sys.disp, step)
    case _ => true
  }

  function AsEvent(m: Outbox.Message): OrderCreatedEvent {
    OrderCreatedEvent(Some(m.payload.id), Some(m.payload.pickup.latitude), Some(m.payload.pickup.longitude))
  }

  function Do(env: Env, tries: nat -> Outbox.Try, sys: Sys, op: Op): Sys {
    match op
    case PlaceOrder(dto, id) =>
      if Clashes(sys.orders, dto) then sys else Placed(sys, dto, id)
    case Notified(i) => sys.(relay := Outbox.Process(tries, sys.relay, i))
    case RelayCron => sys.(relay := Outbox.Apply(tries, sys.relay, Outbox.Cron))
    case Deliver(k) =>
      if k < |sys.relay.published|
      then sys.(disp := DispatchSpec.Apply(env, sys.disp, HandleOrderCreated(AsEvent(sys.relay.published[k]))))
      else sys
    case Dispatch(step) => sys.(disp := DispatchSpec.Apply(env, sys.disp, step))
    case OrderHears(e) => sys.(orders := Consume(sys.orders, e))
  }

  ghost predicate IsRun(env: Env, tries: nat -> Outbox.Try, sys: Sys, ops: seq<Op>)
    decreases |ops|
  {
    |ops| == 0 || (Allowed(sys, ops[0]) && IsRun(env, tries, Do(env, tries, sys, ops[0]), ops[1..]))
  }

  function Run(env: Env, tries: nat -> Outbox.Try, sys: Sys, ops: seq<Op>): Sys
    decreases |ops|
  {
    if |ops| == 0 then sys else Run(env, tries, Do(env, tries, sys, ops[0]), ops[1..])
  }

  /* Where every stage gets its data. */

  predicate Known(orders: Orders, id: OrderId, at: Point) {
    id in orders && orders[id].pickup == at
  }

  ghost predicate RowsKnown(orders: Orders, rows: AssignmentTable.Table) {
    forall i | 0 <= i < |rows| :: Known(orders, rows[i].orderId, rows[i].pickup)
  }

  ghost predicate MessageKnown(orders: Orders, m: Outbox.Message) {
    m.key == m.payload.id && Known(orders, m.payload.id, m.payload.pickup)
  }

  ghost predicate Sourced(sys: Sys) {
    && (forall i | 0 <= i < |sys.relay.rows| :: MessageKnown(sys.orders, Outbox.MessageOf(sys.relay.rows[i])))
    && (forall k | 0 <= k < |sys.relay.published| :: MessageKnown(sys.orders, sys.relay.published[k]))
    && RowsKnown(sys.orders, sys.disp.rows)
    && Chain(sys.disp.rows)
  }

  /** The outbox has exactly one row for each order. */
  ghost predicate OneOutboxRowEach(sys: Sys) {
    && (forall o | o in sys.orders :: exists i | 0 <= i < |sys.relay.rows| :: sys.relay.rows[i].payload.id == o)
    && (forall i, j | 0 <= i < j < |sys.relay.rows| :: sys.relay.rows[i].payload.id != sys.relay.rows[j].payload.id)
    && (forall i | 0 <= i < |sys.relay.rows| :: sys.relay.rows[i].payload.id in sys.orders)
  }

  lemma MoveKeepsKnown(env: Env, orders: Orders, s: State, m: Move)
    requires RowsKnown(orders, s.rows) && Legal(s, m)
    requires m.Insert? && m.first ==> Known(orders, m.orderId, m.pickup)
    ensures RowsKnown(orders, DispatchMoves.Do(env, s, m).rows)
  {
    if m.Insert? {
      InsertWrites(env, s, m.orderId, m.pickup, m.driverId);
      if !m.first {
        var i :| 0 <= i < |s.rows| && s.rows[i].orderId == m.orderId;
        assert s.rows[i].pickup == m.pickup;
      }
    }
  }

  lemma {:induction false} MovesKeepKnown(env: Env, orders: Orders, s: State, moves: seq<Move>)
    requires RowsKnown(orders, s.rows) && AllLegal(env, s, moves)
    requires forall m | m in moves && m.Insert? && m.first :: Known(orders, m.orderId, m.pickup)
    ensures RowsKnown(orders, DoAll(env, s, moves).rows)
    decreases |moves|
  {
    if |moves| > 0 {
      MoveKeepsKnown(env, orders, s, moves[0]);
      MovesKeepKnown(env, orders, DispatchMoves.Do(env, s, moves[0]), moves[1..]);
    }
  }

  lemma StepKeepsKnown(env: Env, orders: Orders, s: State, step: Step)
    requires RowsKnown(orders, s.rows) && Chain(s.rows) && DispatchSpec.Allowed(s, step)
    requires step.HandleOrderCreated? ==>
               forall o, at: Point ::
                 step.event == OrderCreatedEvent(Some(o), Some(at.latitude), Some(at.longitude)) ==> Known(orders, o, at)
    ensures RowsKnown(orders, DispatchSpec.Apply(env, s, step).rows)
    ensures Chain(DispatchSpec.Apply(env, s, step).rows)
  {
    var moves := StepMoves(env, s, step);
    forall m | m in moves && m.Insert? && m.first ensures Known(orders, m.orderId, m.pickup) {
      assert MadeBy(step, m);
    }
    MovesKeepKnown(env, orders, s, moves);
    MovesKeepChain(env, s, moves);
  }

  /** The relay publishes only what its rows say, and leaves their messages alone. */
  ghost predicate Relays(before: Outbox.Relay, after: Outbox.Relay) {
    && |before.rows| == |after.rows|
    && (forall i | 0 <= i < |before.rows| :: Outbox.MessageOf(after.rows[i]) == Outbox.MessageOf(before.rows[i]))
    && (forall m | m in after.published ::
          m in before.published || exists i | 0 <= i < |before.rows| :: Outbox.MessageOf(before.rows[i]) == m)
  }

  lemma ProcessRelays(tries: nat -> Outbox.Try, s: Outbox.Relay, id: nat)
    ensures Relays(s, Outbox.Process(tries, s, id))
  {
  }

  lemma {:induction false} ProcessAllRelays(tries: nat -> Outbox.Try, s: Outbox.Relay, ids: seq<nat>)
    ensures Relays(s, Outbox.ProcessAll(tries, s, ids))
    decreases |ids|
  {
    if |ids| > 0 {
      var next := Outbox.Process(tries, s, ids[0]);
      ProcessAllRelays(tries, next, ids[1..]);
      ProcessRelays(tries, s, ids[0]);
      var last := Outbox.ProcessAll(tries, s, ids);
      forall m | m in last.published
        ensures m in s.published || exists i | 0 <= i < |s.rows| :: Outbox.MessageOf(s.rows[i]) == m
      {
        if m !in next.published {
          var i :| 0 <= i < |next.rows| && Outbox.MessageOf(next.rows[i]) == m;
          assert Outbox.MessageOf(s.rows[i]) == m;
        }
      }
    }
  }

  lemma RelayKeepsSourced(sys: Sys, after: Outbox.Relay)
    requires Sourced(sys) && OneOutboxRowEach(sys) && Relays(sys.relay, after)
    ensures Sourced(sys.(relay := after)) && OneOutboxRowEach(sys.(relay := after))
  {
    forall i | 0 <= i < |after.rows|
      ensures MessageKnown(sys.orders, Outbox.MessageOf(after.rows[i]))
      ensures after.rows[i].payload == sys.relay.rows[i].payload
    {
      assert Outbox.MessageOf(after.rows[i]) == Outbox.MessageOf(sys.relay.rows[i]);
    }
    forall k | 0 <= k < |after.published| ensures MessageKnown(sys.orders, after.published[k]) {
      assert after.published[k] in after.published;
    }
    forall o | o in sys.orders ensures exists i | 0 <= i < |after.rows| :: after.rows[i].payload.id == o {
      var i :| 0 <= i < |sys.relay.rows| && sys.relay.rows[i].payload.id == o;
      assert after.rows[i].payload.id == o;
    }
  }

  function Placed(sys: Sys, dto: CreateOrder, id: OrderId): Sys {
    sys.(orders := sys.orders[id := NewOrder(dto)],
         relay := sys.relay.(rows := sys.relay.rows + [NewOutboxRow(id, NewOrder(dto))]))
  }

  lemma PlacedIsSourced(sys: Sys, dto: CreateOrder, id: OrderId)
    requires Sourced(sys) && id !in sys.orders
    ensures Sourced(Placed(sys, dto, id))
  {
    var after := Placed(sys, dto, id);
    forall o, at | Known(sys.orders, o, at) ensures Known(after.orders, o, at) {}
    assert MessageKnown(after.orders, Outbox.MessageOf(after.relay.rows[|sys.relay.rows|]));
  }

  lemma PlacedHasItsRow(sys: Sys, dto: CreateOrder, id: OrderId)
    requires OneOutboxRowEach(sys) && id !in sys.orders
    ensures OneOutboxRowEach(Placed(sys, dto, id))
  {
    var after := Placed(sys, dto, id);
    var n := |sys.relay.rows|;
    assert after.relay.rows[n].payload.id == id;
    forall o | o in after.orders ensures exists i | 0 <= i < |after.relay.rows| :: after.relay.rows[i].payload.id == o {
      if o != id {
        var i :| 0 <= i < n && sys.relay.rows[i].payload.id == o;
        assert after.relay.rows[i].payload.id == o;
      }
    }
  }

  lemma HandlerKeepsSourced(env: Env, sys: Sys, step: Step)
    requires Sourced(sys) && OneOutboxRowEach(sys) && DispatchSpec.Allowed(sys.disp, step)
    requires step.HandleOrderCreated? ==>
               exists k | 0 <= k < |sys.relay.published| :: step.event == AsEvent(sys.relay.published[k])
    ensures var after := sys.(disp := DispatchSpec.Apply(env, sys.disp, step));
            Sourced(after) && OneOutboxRowEach(after)
  {
    StepKeepsKnown(env, sys.orders, sys.disp, step);
  }

  lemma MovedOrdersAreSourced(sys: Sys, orders: Orders)
    requires Sourced(sys) && sys.orders.Keys == orders.Keys
    requires forall o | o in orders :: orders[o].pickup == sys.orders[o].pickup
    ensures Sourced(sys.(orders := orders))
  {
    forall i | 0 <= i < |sys.relay.rows| ensures MessageKnown(orders, Outbox.MessageOf(sys.relay.rows[i])) {
      assert MessageKnown(sys.orders, Outbox.MessageOf(sys.relay.rows[i]));
    }
    forall k | 0 <= k < |sys.relay.published| ensures MessageKnown(orders, sys.relay.published[k]) {
      assert MessageKnown(sys.orders, sys.relay.published[k]);
    }
    forall i | 0 <= i < |sys.disp.rows| ensures Known(orders, sys.disp.rows[i].orderId, sys.disp.rows[i].pickup) {
      assert Known(sys.orders, sys.disp.rows[i].orderId, sys.disp.rows[i].pickup);
    }
  }

  lemma OrderKeepsSourced(sys: Sys, e: DispatchOrderEvent)
    requires Sourced(sys) && OneOutboxRowEach(sys)
    ensures var after := sys.(orders := Consume(sys.orders, e));
            Sourced(after) && OneOutboxRowEach(after)
  {
    ConsumeOutcome(sys.orders, e);
    MovedOrdersAreSourced(sys, Consume(sys.orders, e));
  }

  lemma DoKeepsSourced(env: Env, tries: nat -> Outbox.Try, sys: Sys, op: Op)
    requires Sourced(sys) && OneOutboxRowEach(sys) && Allowed(sys, op)
    ensures Sourced(Do(env, tries, sys, op)) && OneOutboxRowEach(Do(env, tries, sys, op))
  {
    match op
    case PlaceOrder(dto, id) =>
      PlacedIsSourced(sys, dto, id);
      PlacedHasItsRow(sys, dto, id);
    case Notified(i) =>
      ProcessRelays(tries, sys.relay, i);
      RelayKeepsSourced(sys, Outbox.Process(tries, sys.relay, i));
    case RelayCron =>
      ProcessAllRelays(tries, sys.relay, Outbox.Batch(sys.relay.rows));
      RelayKeepsSourced(sys, Outbox.Apply(tries, sys.relay, Outbox.Cron));
    case Deliver(k) => HandlerKeepsSourced(env, sys, HandleOrderCreated(AsEvent(sys.relay.published[k])));
    case Dispatch(step) => HandlerKeepsSourced(env, sys, step);
    case OrderHears(e) => OrderKeepsSourced(sys, e);
  }

  lemma {:induction false} RunKeepsSourced(env: Env, tries: nat -> Outbox.Try, sys: Sys, ops: seq<Op>)
    requires Sourced(sys) && OneOutboxRowEach(sys) && IsRun(env, tries, sys, ops)
    ensures Sourced(Run(env, tries, sys, ops)) && OneOutboxRowEach(Run(env, tries, sys, ops))
    decreases |ops|
  {
    if |ops| > 0 {
      DoKeepsSourced(env, tries, sys, ops[0]);
      RunKeepsSourced(env, tries, Do(env, tries, sys, ops[0]), ops[1..]);
    }
  }

  /** In every run of the whole system, with any failures, redeliveries and re-offers, each assignment
      is for an existing order at that order's pickup, and each order has exactly one outbox row. */
  lemma AssignmentsComeFromOrders(env: Env, tries: nat -> Outbox.Try, ops: seq<Op>)
    requires IsRun(env, tries, EMPTY, ops)
    ensures var sys := Run(env, tries, EMPTY, ops);
            && (forall i | 0 <= i < |sys.disp.rows| ::
                  && sys.disp.rows[i].orderId in sys.orders
                  && sys.disp.rows[i].pickup == sys.orders[sys.disp.rows[i].orderId].pickup)
            && OneOutboxRowEach(sys)
  {
    RunKeepsSourced(env, tries, EMPTY, ops);
  }

  /* What was asked for is what everyone gets to see. */

  /** The order is still the one requested, whatever became of it. */
  ghost predicate IsRequest(order: Order, dto: CreateOrder) {
    order.merchantId == dto.merchantId && order.clientOrderId == dto.clientOrderId && order.pickup == dto.pickup
  }

  ghost predicate TellsOf(op: Op, id: OrderId) {
    op.OrderHears? && op.event.orderId == Some(id)
  }

  lemma DoKeepsRequest(env: Env, tries: nat -> Outbox.Try, sys: Sys, op: Op, dto: CreateOrder, id: OrderId)
    requires Allowed(sys, op) && id in sys.orders && IsRequest(sys.orders[id], dto)
    ensures var after := Do(env, tries, sys, op).orders;
            && id in after && IsRequest(after[id], dto)
            && (!TellsOf(op, id) ==> after[id] == sys.orders[id])
  {
    if op.OrderHears? {
      ConsumeOutcome(sys.orders, op.event);
    }
  }

  lemma {:induction false} RunKeepsRequest(env: Env, tries: nat -> Outbox.Try, sys: Sys, ops: seq<Op>,
                                           dto: CreateOrder, id: OrderId)
    requires IsRun(env, tries, sys, ops) && id in sys.orders && IsRequest(sys.orders[id], dto)
    ensures var after := Run(env, tries, sys, ops).orders;
            && id in after && IsRequest(after[id], dto)
            && ((forall i | 0 <= i < |ops| :: !TellsOf(ops[i], id)) ==> after[id] == sys.orders[id])
    decreases |ops|
  {
    if |ops| > 0 {
      DoKeepsRequest(env, tries, sys, ops[0], dto, id);
      RunKeepsRequest(env, tries, Do(env, tries, sys, ops[0]), ops[1..], dto, id);
      assert forall i | 0 < i < |ops| :: ops[i] == ops[1..][i - 1];
    }
  }

  lemma {:induction false} RunSplits(env: Env, tries: nat -> Outbox.Try, sys: Sys, a: seq<Op>, b: seq<Op>)
    requires IsRun(env, tries, sys, a + b)
    ensures IsRun(env, tries, sys, a) && IsRun(env, tries, Run(env, tries, sys, a), b)
    ensures Run(env, tries, sys, a + b) == Run(env, tries, Run(env, tries, sys, a), b)
    decreases |a|
  {
    if |a| == 0 {
      assert a + b == b;
    } else {
      TailOfOps(a, b);
      RunSplits(env, tries, Do(env, tries, sys, a[0]), a[1..], b);
    }
  }

  lemma TailOfOps(a: seq<Op>, b: seq<Op>)
    requires |a| > 0
    ensures (a + b)[0] == a[0] && (a + b)[1..] == a[1..] + b
  {
  }

  /** Another order of this merchant already has this client id. */
  ghost predicate IsDuplicate(orders: Orders, dto: CreateOrder) {
    exists o | o in orders ::
      dto.clientOrderId.Some? && orders[o].merchantId == dto.merchantId && orders[o].clientOrderId == dto.clientOrderId
  }

  /** Whoever has data about the order has the request's: one outbox row, every message, every assignment. */
  ghost predicate CarriesRequest(sys: Sys, dto: CreateOrder, id: OrderId) {
    && id in sys.orders && IsRequest(sys.orders[id], dto)
    && (exists i | 0 <= i < |sys.relay.rows| :: sys.relay.rows[i].payload.id == id)
    && (forall i, j | 0 <= i < j < |sys.relay.rows| ::
          !(sys.relay.rows[i].payload.id == id && sys.relay.rows[j].payload.id == id))
    && (forall i | 0 <= i < |sys.relay.rows| && sys.relay.rows[i].payload.id == id ::
          sys.relay.rows[i].aggregateId == id && sys.relay.rows[i].payload.pickup == dto.pickup)
    && (forall k | 0 <= k < |sys.relay.published| && sys.relay.published[k].payload.id == id ::
          sys.relay.published[k].key == id && sys.relay.published[k].payload.pickup == dto.pickup)
    && (forall i | 0 <= i < |sys.disp.rows| && sys.disp.rows[i].orderId == id ::
          sys.disp.rows[i].pickup == dto.pickup)
  }

  lemma SourcedCarriesRequest(sys: Sys, dto: CreateOrder, id: OrderId)
    requires Sourced(sys) && OneOutboxRowEach(sys) && id in sys.orders && IsRequest(sys.orders[id], dto)
    ensures CarriesRequest(sys, dto, id)
  {
    forall i | 0 <= i < |sys.relay.rows| && sys.relay.rows[i].payload.id == id
      ensures sys.relay.rows[i].aggregateId == id && sys.relay.rows[i].payload.pickup == dto.pickup
    {
      assert MessageKnown(sys.orders, Outbox.MessageOf(sys.relay.rows[i]));
    }
    forall k | 0 <= k < |sys.relay.published| && sys.relay.published[k].payload.id == id
      ensures sys.relay.published[k].key == id && sys.relay.published[k].payload.pickup == dto.pickup
    {
      assert MessageKnown(sys.orders, sys.relay.published[k]);
    }
  }

  lemma RunCarriesRequest(env: Env, tries: nat -> Outbox.Try, ops: seq<Op>, dto: CreateOrder, id: OrderId)
    requires IsRun(env, tries, EMPTY, ops)
    requires var orders := Run(env, tries, EMPTY, ops).orders; id in orders && IsRequest(orders[id], dto)
    ensures CarriesRequest(Run(env, tries, EMPTY, ops), dto, id)
  {
    RunKeepsSourced(env, tries, EMPTY, ops);
    SourcedCarriesRequest(Run(env, tries, EMPTY, ops), dto, id);
  }

  /** A request that duplicates no earlier one is stored, PENDING_DISPATCH and without a driver, and stays so until
      an event about it is read; from then to the end of any run the order, its one outbox row, every message
      published of it and every assignment of it carry the request's merchant, client id and place. */
  lemma PlacedOrderCarriesRequest(env: Env, tries: nat -> Outbox.Try, ops: seq<Op>, dto: CreateOrder, id: OrderId,
                                  more: seq<Op>)
    requires IsRun(env, tries, EMPTY, ops + ([PlaceOrder(dto, id)] + more))
    requires !IsDuplicate(Run(env, tries, EMPTY, ops).orders, dto)
    ensures var sys := Run(env, tries, EMPTY, ops + ([PlaceOrder(dto, id)] + more));
            && CarriesRequest(sys, dto, id)
            && ((forall i | 0 <= i < |more| :: !TellsOf(more[i], id)) ==>
                  sys.orders[id].status == PendingDispatch && sys.orders[id].assignedDriverId == None)
  {
    var rest := [PlaceOrder(dto, id)] + more;
    RunSplits(env, tries, EMPTY, ops, rest);
    assert rest[1..] == more;
    var placed := Do(env, tries, Run(env, tries, EMPTY, ops), PlaceOrder(dto, id));
    assert IsRequest(placed.orders[id], dto);
    RunKeepsRequest(env, tries, placed, more, dto, id);
    RunCarriesRequest(env, tries, ops + rest, dto, id);
  }

  /** A duplicate request changes nothing. */
  lemma DuplicateIsRefused(env: Env, tries: nat -> Outbox.Try, sys: Sys, dto: CreateOrder, id: OrderId)
    requires IsDuplicate(sys.orders, dto)
    ensures Do(env, tries, sys, PlaceOrder(dto, id)) == sys
  {
  }

  ghost predicate NoTwoAlike(orders: Orders) {
    forall o, p | o in orders && p in orders && o != p && orders[o].clientOrderId.Some? ::
      orders[o].merchantId != orders[p].merchantId || orders[o].clientOrderId != orders[p].clientOrderId
  }

  lemma DoKeepsNoTwoAlike(env: Env, tries: nat -> Outbox.Try, sys: Sys, op: Op)
    requires NoTwoAlike(sys.orders) && Allowed(sys, op)
    ensures NoTwoAlike(Do(env, tries, sys, op).orders)
  {
    if op.OrderHears? {
      ConsumeOutcome(sys.orders, op.event);
    }
  }

  lemma {:induction false} RunKeepsNoTwoAlike(env: Env, tries: nat -> Outbox.Try, sys: Sys, ops: seq<Op>)
    requires NoTwoAlike(sys.orders) && IsRun(env, tries, sys, ops)
    ensures NoTwoAlike(Run(env, tries, sys, ops).orders)
    decreases |ops|
  {
    if |ops| > 0 {
      DoKeepsNoTwoAlike(env, tries, sys, ops[0]);
      RunKeepsNoTwoAlike(env, tries, Do(env, tries, sys, ops[0]), ops[1..]);
    }
  }

  /** In no run do two orders share a merchant and a client id. */
  lemma ClientIdsAreUnique(env: Env, tries: nat -> Outbox.Try, ops: seq<Op>, o: OrderId, p: OrderId)
    requires IsRun(env, tries, EMPTY, ops)
    ensures var orders := Run(env, tries, EMPTY, ops).orders;
            o in orders && p in orders && o != p && orders[o].clientOrderId.Some? ==>
              orders[o].merchantId != orders[p].merchantId || orders[o].clientOrderId != orders[p].clientOrderId
  {
    RunKeepsNoTwoAlike(env, tries, EMPTY, ops);
  }

  /** Request to offer, when the first try delivers and its message is then read: dispatch searches for this order,
      at the place the request names. */
  lemma RequestReachesDispatch(env: Env, tries: nat -> Outbox.Try, sys: Sys, dto: CreateOrder, id: OrderId)
    requires Sourced(sys) && id !in sys.orders && !IsDuplicate(sys.orders, dto)
    requires tries(|sys.relay.tried|).Delivered?
    ensures var placed := Do(env, tries, sys, PlaceOrder(dto, id));
            var sent := Do(env, tries, placed, Notified(|sys.relay.rows|));
            var read := Do(env, tries, sent, Deliver(|sys.relay.published|));
            && |sent.relay.published| == |sys.relay.published| + 1
            && exists threw :: IsOffer(env, sys.disp, id, dto.pickup, Outcome(read.disp, threw))
  {
    var placed := Do(env, tries, sys, PlaceOrder(dto, id));
    var sent := Do(env, tries, placed, Notified(|sys.relay.rows|));
    assert sent.relay.published == sys.relay.published + [Outbox.Message(id, Outbox.OrderPayload(id, dto.pickup))];
    assert sent.disp == sys.disp;
    forall i | 0 <= i < |sys.disp.rows| ensures sys.disp.rows[i].orderId != id {
      assert Known(sys.orders, sys.disp.rows[i].orderId, sys.disp.rows[i].pickup);
    }
    var e := AsEvent(sent.relay.published[|sys.relay.published|]);
    OrderCreatedOutcome(env, sys.disp, e);
    assert Point(dto.pickup.latitude, dto.pickup.longitude) == dto.pickup;
    var r := OrderCreated(env, sys.disp, e);
    var read := Do(env, tries, sent, Deliver(|sys.relay.published|));
    assert read.disp == r.s && Outcome(read.disp, r.threw) == r;
    assert IsOffer(env, sys.disp, id, dto.pickup, Outcome(read.disp, r.threw));
  }

  /* The relay and the dispatch service within the system are those of the other modules. */

  /** What the operation is to the relay. */
  ghost function RelayOps(sys: Sys, op: Op): seq<Outbox.Op> {
    match op
    case PlaceOrder(dto, id) =>
      if IsDuplicate(sys.orders, dto) then [] else [Outbox.Enqueue(id, Outbox.OrderPayload(id, dto.pickup))]
    case Notified(i) => [Outbox.Notified(i)]
    case RelayCron => [Outbox.Cron]
    case _ => []
  }

  /** What the operation is to the dispatch service. */
  ghost function DispatchSteps(sys: Sys, op: Op): seq<Step> {
    match op
    case Deliver(k) =>
      if k >= |sys.relay.published| then []
      else
        var payload := sys.relay.published[k].payload;
        [HandleOrderCreated(OrderCreatedEvent(Some(payload.id), Some(payload.pickup.latitude), Some(payload.pickup.longitude)))]
    case Dispatch(step) => [step]
    case _ => []
  }

  ghost function AllRelayOps(env: Env, tries: nat -> Outbox.Try, sys: Sys, ops: seq<Op>): seq<Outbox.Op>
    decreases |ops|
  {
    if |ops| == 0 then [] else RelayOps(sys, ops[0]) + AllRelayOps(env, tries, Do(env, tries, sys, ops[0]), ops[1..])
  }

  ghost function AllDispatchSteps(env: Env, tries: nat -> Outbox.Try, sys: Sys, ops: seq<Op>): seq<Step>
    decreases |ops|
  {
    if |ops| == 0 then []
    else DispatchSteps(sys, ops[0]) + AllDispatchSteps(env, tries, Do(env, tries, sys, ops[0]), ops[1..])
  }

  lemma DoIsRelayed(env: Env, tries: nat -> Outbox.Try, sys: Sys, op: Op)
    ensures Do(env, tries, sys, op).relay == Outbox.Run(tries, sys.relay, RelayOps(sys, op))
  {
    var ops := RelayOps(sys, op);
    if |ops| == 1 {
      assert ops[1..] == [];
    }
  }

  lemma DoIsDispatched(env: Env, tries: nat -> Outbox.Try, sys: Sys, op: Op, rest: seq<Step>)
    requires Allowed(sys, op) && DispatchSpec.IsRun(env, Do(env, tries, sys, op).disp, rest)
    ensures DispatchSpec.IsRun(env, sys.disp, DispatchSteps(sys, op) + rest)
    ensures DispatchSpec.Run(env, sys.disp, DispatchSteps(sys, op) + rest) ==
            DispatchSpec.Run(env, Do(env, tries, sys, op).disp, rest)
  {
    var steps := DispatchSteps(sys, op);
    if |steps| == 1 {
      assert (steps + rest)[1..] == rest;
    } else {
      assert steps + rest == rest;
    }
  }

  /** Within any run the relay makes a run of `Outbox`, with the orders stored as its rows, and the dispatch service
      one of `DispatchSpec`, with the relay's messages as its order.created, so all that is proved of those holds. */
  lemma {:induction false} PartsRunAsModelled(env: Env, tries: nat -> Outbox.Try, sys: Sys, ops: seq<Op>)
    requires IsRun(env, tries, sys, ops)
    ensures var after := Run(env, tries, sys, ops);
            && after.relay == Outbox.Run(tries, sys.relay, AllRelayOps(env, tries, sys, ops))
            && DispatchSpec.IsRun(env, sys.disp, AllDispatchSteps(env, tries, sys, ops))
            && after.disp == DispatchSpec.Run(env, sys.disp, AllDispatchSteps(env, tries, sys, ops))
    decreases |ops|
  {
    if |ops| > 0 {
      var next := Do(env, tries, sys, ops[0]);
      PartsRunAsModelled(env, tries, next, ops[1..]);
      DoIsRelayed(env, tries, sys, ops[0]);
      Outbox.RunJoin(tries, sys.relay, RelayOps(sys, ops[0]), AllRelayOps(env, tries, next, ops[1..]));
      DoIsDispatched(env, tries, sys, ops[0], AllDispatchSteps(env, tries, next, ops[1..]));
    }
  }
}
