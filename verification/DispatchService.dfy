/** The dispatch service itself, step by step on its stores; each handler does what DispatchSpec says. */
module DispatchService {
  import opened Common
  import opened AssignmentTable
  import opened DispatchSpec
  import opened DispatchMoves
  import Sweeps

  /** What findOrdersNeedingRetry gathers about one order. */
  datatype Entry = Entry(pickup: Point, statuses: set<AssignmentStatus>)

  const BLOCKING_STATUSES := {AssignmentStatus.Offered, Confirmed, Completed, Cancelled}
  const RETRIABLE_STATUSES := {Rejected, TimedOut}

  ghost function StatusesOf(rows: Table, o: OrderId): set<AssignmentStatus> {
    set i | 0 <= i < |rows| && rows[i].orderId == o :: rows[i].status
  }

  /** The first loop's map after reading these rows. */
  ghost predicate Gathered(rows: Table, keys: seq<OrderId>, byOrder: map<OrderId, Entry>) {
    && NoDuplicates(keys)
    && (forall o :: o in keys <==> o in byOrder)
    && (forall o :: o in byOrder <==> HasRow(rows, o))
    && (forall o | o in byOrder :: byOrder[o].statuses == StatusesOf(rows, o) && HasPickup(rows, o, byOrder[o].pickup))
  }

  lemma RowsAppend(rows: Table, row: Assignment, o: OrderId)
    ensures HasRow(rows + [row], o) <==> HasRow(rows, o) || row.orderId == o
    ensures StatusesOf(rows + [row], o) == StatusesOf(rows, o) + if row.orderId == o then {row.status} else {}
  {
    var all := rows + [row];
    assert all[|rows|] == row;
    if HasRow(rows, o) {
      var i :| 0 <= i < |rows| && rows[i].orderId == o;
      assert all[i].orderId == o;
    }
    forall st | st in StatusesOf(rows, o) ensures st in StatusesOf(all, o) {
      var i :| 0 <= i < |rows| && rows[i].orderId == o && rows[i].status == st;
      assert all[i].orderId == o;
    }
  }

  lemma PickupAppend(rows: Table, row: Assignment, o: OrderId, at: Point)
    requires HasPickup(rows, o, at) || (row.orderId == o && row.pickup == at)
    ensures HasPickup(rows + [row], o, at)
  {
    var all := rows + [row];
    assert all[|rows|] == row;
    if HasPickup(rows, o, at) {
      var i :| 0 <= i < |rows| && rows[i].orderId == o && rows[i].pickup == at;
      assert all[i].orderId == o;
    }
  }

  predicate AnyIn(statuses: set<AssignmentStatus>, wanted: set<AssignmentStatus>) {
    exists st | st in statuses :: st in wanted
  }

  function AddRow(byOrder: map<OrderId, Entry>, row: Assignment): map<OrderId, Entry> {
    var entry := if row.orderId in byOrder then byOrder[row.orderId] else Entry(row.pickup, {});
    byOrder[row.orderId := entry.(statuses := entry.statuses + {row.status})]
  }

  lemma GatheredGrows(rows: Table, row: Assignment, keys: seq<OrderId>, byOrder: map<OrderId, Entry>,
                      all: Table, moreKeys: seq<OrderId>, after: map<OrderId, Entry>)
    requires Gathered(rows, keys, byOrder)
    requires all == rows + [row] && after == AddRow(byOrder, row)
    requires moreKeys == if row.orderId in byOrder then keys else keys + [row.orderId]
    ensures Gathered(all, moreKeys, after)
  {
    forall o ensures o in after <==> HasRow(all, o) {
      RowsAppend(rows, row, o);
    }
    forall o | o in after ensures after[o].statuses == StatusesOf(all, o) && HasPickup(all, o, after[o].pickup) {
      RowsAppend(rows, row, o);
      EntryGrows(rows, row, keys, byOrder, o);
    }
  }

  lemma EntryGrows(rows: Table, row: Assignment, keys: seq<OrderId>, byOrder: map<OrderId, Entry>, o: OrderId)
    requires Gathered(rows, keys, byOrder) && o in AddRow(byOrder, row)
    ensures AddRow(byOrder, row)[o].statuses == StatusesOf(rows, o) + if row.orderId == o then {row.status} else {}
    ensures HasPickup(rows + [row], o, AddRow(byOrder, row)[o].pickup)
  {
    PickupAppend(rows, row, o, AddRow(byOrder, row)[o].pickup);
    if o !in byOrder {
      assert StatusesOf(rows, o) == {};
    }
  }

  function Entries(rows: Table): map<OrderId, Entry> {
    if |rows| == 0 then map[] else AddRow(Entries(rows[..|rows| - 1]), rows[|rows| - 1])
  }

  function FirstSeen(rows: Table): seq<OrderId> {
    if |rows| == 0 then []
    else
      var before, row := rows[..|rows| - 1], rows[|rows| - 1];
      if row.orderId in Entries(before) then FirstSeen(before) else FirstSeen(before) + [row.orderId]
  }

  lemma {:induction false} AllGathered(rows: Table)
    ensures Gathered(rows, FirstSeen(rows), Entries(rows))
  {
    if |rows| > 0 {
      var before, row := rows[..|rows| - 1], rows[|rows| - 1];
      AllGathered(before);
      GatheredGrows(before, row, FirstSeen(before), Entries(before), rows, FirstSeen(rows), Entries(rows));
    }
  }

  /** The second loop's result after these keys. */
  ghost predicate Selected(rows: Table, keys: seq<OrderId>, orders: seq<Pending>) {
    && (forall i, j | 0 <= i < j < |orders| :: orders[i].orderId != orders[j].orderId)
    && (forall o :: Lists(orders, o) <==> o in keys && AllRetriable(rows, o))
    && (forall i | 0 <= i < |orders| :: HasPickup(rows, orders[i].orderId, orders[i].pickup))
  }

  lemma ListsAppend(orders: seq<Pending>, p: Pending, o: OrderId)
    ensures Lists(orders + [p], o) <==> Lists(orders, o) || p.orderId == o
  {
    var all := orders + [p];
    assert all[|orders|] == p;
    if Lists(orders, o) {
      var i :| 0 <= i < |orders| && orders[i].orderId == o;
      assert all[i].orderId == o;
    }
  }

  lemma SelectedGrows(rows: Table, keys: seq<OrderId>, orders: seq<Pending>, p: Pending)
    requires Selected(rows, keys, orders) && p.orderId !in keys && HasPickup(rows, p.orderId, p.pickup)
    ensures Selected(rows, keys + [p.orderId], if AllRetriable(rows, p.orderId) then orders + [p] else orders)
  {
    if AllRetriable(rows, p.orderId) {
      SelectOne(rows, keys, orders, p);
    }
  }

  lemma SelectOne(rows: Table, keys: seq<OrderId>, orders: seq<Pending>, p: Pending)
    requires Selected(rows, keys, orders) && p.orderId !in keys && HasPickup(rows, p.orderId, p.pickup)
    requires AllRetriable(rows, p.orderId)
    ensures Selected(rows, keys + [p.orderId], orders + [p])
  {
    forall i | 0 <= i < |orders| ensures orders[i].orderId != p.orderId {
      assert Lists(orders, orders[i].orderId);
    }
    forall o ensures Lists(orders + [p], o) <==> o in keys + [p.orderId] && AllRetriable(rows, o) {
      ListsAppend(orders, p, o);
    }
  }

  /** The two status sets split the six statuses, so the two tests of the second loop
      are together the test that every row was rejected or timed out. */
  lemma RetriableByStatuses(rows: Table, o: OrderId)
    requires HasRow(rows, o)
    ensures var statuses := StatusesOf(rows, o);
            AllRetriable(rows, o) <==> !AnyIn(statuses, BLOCKING_STATUSES) && AnyIn(statuses, RETRIABLE_STATUSES)
  {
    var i :| 0 <= i < |rows| && rows[i].orderId == o;
    assert rows[i].status in StatusesOf(rows, o);
    if !AnyIn(StatusesOf(rows, o), BLOCKING_STATUSES) {
      forall k | 0 <= k < |rows| && rows[k].orderId == o ensures Retriable(rows[k].status) {
        assert rows[k].status in StatusesOf(rows, o);
      }
    }
  }

  class DispatchService {
    const env: Env
    var now: nat
    var rows: Table
    var statuses: map<DriverId, DriverStatus>
    var geo: GeoSet
    var locks: map<DriverId, Lock>
    var lockOps: seq<LockOp>
    var log: seq<DispatchEvent>
    var emits: nat

    ghost function Model(): State
      reads this
    {
      State(now, rows, statuses, geo, locks, lockOps, log, emits)
    }

    constructor (env: Env)
      ensures Model() == EMPTY && this.env == env
    {
      this.env := env;
      now, rows, statuses, geo, locks, lockOps, log, emits := 0, [], map[], map[], map[], [], [], 0;
    }

    /* Redis and Kafka. */

    method EmitDispatchEvent(e: DispatchEvent) returns (threw: bool)
      modifies this`log, this`emits
      ensures Outcome(Model(), threw) == Emit(env, old(Model()), e)
    {
      threw := !env.emitOk(emits);
      if !threw {
        log := log + [e];
      }
      emits := emits + 1;
    }

    method ReleaseLock(d: DriverId)
      modifies this`locks, this`lockOps
      ensures Model() == Release(old(Model()), d)
    {
      locks := locks - {d};
      lockOps := lockOps + [Released(d)];
    }

    /** SET lock:driver:{d} o EX 30 NX. */
    method TryLock(d: DriverId, o: OrderId) returns (ok: bool)
      modifies this`locks, this`lockOps
      ensures ok == !LockHeld(old(Model()), d)
      ensures Model() == if ok then Acquire(old(Model()), d, o) else old(Model())
    {
      ok := !(d in locks && now <= locks[d].until);
      if ok {
        locks := locks[d := Lock(o, now + OFFER_TTL_SECONDS * 1000)];
        lockOps := lockOps + [Acquired(d, o, now)];
      }
    }

    /** Inserts a row unless the unique index on (orderId, attempt) refuses it. */
    method CreateAssignment(row: Assignment) returns (created: bool)
      modifies this`rows
      ensures created == !Taken(old(rows), row.orderId, row.attempt)
      ensures rows == if created then old(rows) + [row] else old(rows)
    {
      created := !Taken(rows, row.orderId, row.attempt);
      if created {
        rows := rows + [row];
      }
    }

    /* Finding a driver. */

    method FindCandidateDriverIds(at: Point) returns (candidates: seq<DriverId>)
      ensures candidates == Candidates(env, geo, geo, at)
    {
      var nearby := env.search(geo, at, SEARCH_RADIUS_KM);
      var nearbySet := Members(nearby);
      var fallback := env.search(geo, at, FALLBACK_RADIUS_KM);
      var beyondRadius := [];
      for i := 0 to |fallback|
        invariant beyondRadius == Without(fallback[..i], nearbySet)
      {
        assert fallback[..i + 1][..i] == fallback[..i];
        if fallback[i] !in nearbySet {
          beyondRadius := beyondRadius + [fallback[i]];
        }
      }
      assert fallback[..|fallback|] == fallback;
      candidates := nearby + beyondRadius;
    }

    method HasUntriedAvailableDriver(o: OrderId, at: Point) returns (found: bool)
      ensures found == AnyUntriedAvailable(Model(), TriedDrivers(rows, o), Candidates(env, geo, geo, at))
    {
      var skipped := TriedDrivers(rows, o);
      var candidates := FindCandidateDriverIds(at);
      for i := 0 to |candidates|
        invariant forall j | 0 <= j < i :: candidates[j] in skipped || !IsAvailable(Model(), candidates[j])
      {
        var d := candidates[i];
        if d in skipped {
          continue;
        }
        if d in statuses && statuses[d].Available? {
          return true;
        }
      }
      return false;
    }

    method OfferToNearbyDriver(o: OrderId, at: Point) returns (threw: bool)
      modifies this`rows, this`locks, this`lockOps, this`log, this`emits
      ensures Outcome(Model(), threw) == Offer(env, old(Model()), o, at)
    {
      var attempt := LastAttempt(rows, o) + 1;
      var skipped := TriedDrivers(rows, o);
      var candidates := FindCandidateDriverIds(at);
      for i := 0 to |candidates|
        invariant Model() == old(Model())
        invariant FirstEligible(Model(), skipped, candidates) == FirstEligible(Model(), skipped, candidates[i..])
      {
        var d := candidates[i];
        assert candidates[i..][0] == d && candidates[i..][1..] == candidates[i + 1..];
        if d in skipped {
          continue;
        }
        if !(d in statuses && statuses[d].Available?) {
          continue;
        }
        var locked := TryLock(d, o);
        if !locked {
          continue;
        }
        assert FirstEligible(old(Model()), skipped, candidates) == Some(d);
        var id := |rows|;
        var created := CreateAssignment(
          Assignment(o, d, AssignmentStatus.Offered, attempt, at, now + OFFER_TTL_SECONDS * 1000));
        if !created {
          ReleaseLock(d);
          return false;
        }
        threw := EmitDispatchEvent(DispatchEvent(AssignmentOffered, o, d, id, attempt));
        if threw {
          ReleaseLock(d);
        }
        return;
      }
      threw := false;
    }

    /* Consumers. */

    method HandleOrderCreated(e: OrderCreatedEvent) returns (threw: bool)
      modifies this`rows, this`locks, this`lockOps, this`log, this`emits
      ensures Outcome(Model(), threw) == OrderCreated(env, old(Model()), e)
    {
      if e.id.None? || e.latitude.None? || e.longitude.None? {
        return false;
      }
      if exists i | 0 <= i < |rows| :: rows[i].orderId == e.id.value {
        return false;
      }
      threw := OfferToNearbyDriver(e.id.value, Point(e.latitude.value, e.longitude.value));
    }

    method HandleDriverEvent(e: DriverLifecycleEvent) returns (threw: bool)
      modifies this`rows, this`locks, this`lockOps, this`log, this`emits
      ensures Outcome(Model(), threw) == DriverEvent(env, old(Model()), e)
    {
      threw := false;
      if e.eventType.None? || e.driverId.None? || e.orderId.None? {
        return;
      }
      match e.eventType.value
      case AssignmentAccepted => threw := ConfirmAssignment(e.orderId.value, e.driverId.value);
      case AssignmentRejected => threw := RejectAssignment(e.orderId.value, e.driverId.value);
      case OrderCompleted => threw := CompleteAssignment(e.orderId.value, e.driverId.value);
      case OrderCancelled => threw := CancelAssignment(e.orderId.value, e.driverId.value);
      case StatusChanged =>
    }

    method UpdateStatus(i: AssignmentId, status: AssignmentStatus)
      requires i < |rows|
      modifies this`rows
      ensures Model() == SetStatus(old(Model()), i, status)
    {
      rows := rows[i := rows[i].(status := status)];
    }

    method ConfirmAssignment(o: OrderId, d: DriverId) returns (threw: bool)
      modifies this`rows, this`log, this`emits
      ensures Outcome(Model(), threw) == Confirm(env, old(Model()), o, d)
    {
      var assignment := FindRow(rows, o, d, AssignmentStatus.Offered);
      if assignment.None? {
        return false;
      }
      var i := assignment.value;
      UpdateStatus(i, Confirmed);
      threw := EmitDispatchEvent(DispatchEvent(AssignmentConfirmed, o, d, i, rows[i].attempt));
    }

    method RejectAssignment(o: OrderId, d: DriverId) returns (threw: bool)
      modifies this`rows, this`locks, this`lockOps, this`log, this`emits
      ensures Outcome(Model(), threw) == Reject(env, old(Model()), o, d)
    {
      var assignment := FindRow(rows, o, d, AssignmentStatus.Offered);
      if assignment.None? {
        return false;
      }
      var i := assignment.value;
      UpdateStatus(i, Rejected);
      ReleaseLock(d);
      threw := OfferToNearbyDriver(rows[i].orderId, rows[i].pickup);
    }

    method CompleteAssignment(o: OrderId, d: DriverId) returns (threw: bool)
      modifies this`rows, this`locks, this`lockOps, this`log, this`emits
      ensures Outcome(Model(), threw) == Finish(env, old(Model()), o, d, Completed, AssignmentCompleted)
    {
      var assignment := FindRow(rows, o, d, Confirmed);
      if assignment.None? {
        return false;
      }
      var i := assignment.value;
      UpdateStatus(i, Completed);
      ReleaseLock(d);
      threw := EmitDispatchEvent(DispatchEvent(AssignmentCompleted, o, d, i, rows[i].attempt));
    }

    method CancelAssignment(o: OrderId, d: DriverId) returns (threw: bool)
      modifies this`rows, this`locks, this`lockOps, this`log, this`emits
      ensures Outcome(Model(), threw) == Finish(env, old(Model()), o, d, Cancelled, AssignmentCancelled)
    {
      var assignment := FindRow(rows, o, d, Confirmed);
      if assignment.None? {
        return false;
      }
      var i := assignment.value;
      UpdateStatus(i, Cancelled);
      ReleaseLock(d);
      threw := EmitDispatchEvent(DispatchEvent(AssignmentCancelled, o, d, i, rows[i].attempt));
    }

    /* Crons. */

    /** `expired` is the database's answer to the sweep's query, in whatever order. */
    method HandleExpiredOffers(expired: seq<AssignmentId>) returns (threw: bool)
      requires IsExpiredListing(Model(), expired)
      modifies this`rows, this`locks, this`lockOps, this`log, this`emits
      ensures Outcome(Model(), threw) == ExpirySweep(env, old(Model()), expired)
    {
      threw := false;
      ghost var n := |rows|;
      assert forall i | i in expired :: Expired(Model(), i) && i < n;
      for k := 0 to |expired|
        invariant !threw && n <= |rows|
        invariant ExpirySweep(env, old(Model()), expired) == ExpirySweep(env, Model(), expired[k..])
      {
        ghost var before := Model();
        var i := expired[k];
        assert i in expired && expired[k..][0] == i && expired[k..][1..] == expired[k + 1..];
        if !rows[i].status.Offered? {
          continue;
        }
        UpdateStatus(i, TimedOut);
        ReleaseLock(rows[i].driverId);
        threw := EmitDispatchEvent(
          DispatchEvent(AssignmentTimeout, rows[i].orderId, rows[i].driverId, i, rows[i].attempt));
        if threw {
          return;
        }
        ghost var settled := Model();
        threw := OfferToNearbyDriver(rows[i].orderId, rows[i].pickup);
        assert Outcome(Model(), threw) == TimeOut(env, before, i);
        OfferKeepsRows(env, settled, rows[i].orderId, rows[i].pickup);
        if threw {
          return;
        }
      }
      assert expired[|expired|..] == [];
    }

    lemma OfferKeepsRows(env: Env, s: State, o: OrderId, at: Point)
      ensures |s.rows| <= |Offer(env, s, o, at).s.rows|
      ensures forall i | 0 <= i < |s.rows| :: Offer(env, s, o, at).s.rows[i] == s.rows[i]
    {
      var found := FirstEligible(s, TriedDrivers(s.rows, o), Candidates(env, s.geo, s.geo, at));
      if found.Some? {
        InsertWrites(env, s, o, at, found.value);
      }
    }

    /** `assignments` is the whole table as the database lists it, in whatever order. */
    method RetryPendingOrders(assignments: seq<Assignment>) returns (threw: bool)
      requires multiset(assignments) == multiset(rows)
      modifies this`rows, this`locks, this`lockOps, this`log, this`emits
      ensures exists pending :: IsRetryList(old(rows), pending)
                                && Outcome(Model(), threw) == RetrySweep(env, old(Model()), pending)
    {
      var orders := FindOrdersNeedingRetry(assignments);
      Sweeps.ListingOrderIsImmaterial(rows, assignments, orders);
      threw := false;
      for k := 0 to |orders|
        invariant !threw
        invariant RetrySweep(env, old(Model()), orders) == RetrySweep(env, Model(), orders[k..])
      {
        var order := orders[k];
        assert orders[k..][0] == order && orders[k..][1..] == orders[k + 1..];
        var canRetry := HasUntriedAvailableDriver(order.orderId, order.pickup);
        if !canRetry {
          continue;
        }
        threw := OfferToNearbyDriver(order.orderId, order.pickup);
        if threw {
          return;
        }
      }
      assert orders[|orders|..] == [];
    }

    /** The first loop: one entry per order, in order of first appearance. */
    static method GatherByOrder(assignments: seq<Assignment>) returns (keys: seq<OrderId>, byOrder: map<OrderId, Entry>)
      ensures Gathered(assignments, keys, byOrder)
    {
      keys, byOrder := [], map[];
      for i := 0 to |assignments|
        invariant keys == FirstSeen(assignments[..i]) && byOrder == Entries(assignments[..i])
      {
        var row := assignments[i];
        assert assignments[..i + 1][..i] == assignments[..i];
        if row.orderId !in byOrder {
          keys := keys + [row.orderId];
          byOrder := byOrder[row.orderId := Entry(row.pickup, {})];
        }
        var entry := byOrder[row.orderId];
        byOrder := byOrder[row.orderId := entry.(statuses := entry.statuses + {row.status})];
      }
      assert assignments[..|assignments|] == assignments;
      AllGathered(assignments);
    }

    /** Returns, each once and with the pickup of one of its rows, exactly the orders
        that have a row and whose rows are all rejected or timed out. */
    static method FindOrdersNeedingRetry(assignments: seq<Assignment>) returns (orders: seq<Pending>)
      ensures IsRetryList(assignments, orders)
    {
      var keys, byOrder := GatherByOrder(assignments);
      orders := [];
      for k := 0 to |keys|
        invariant Selected(assignments, keys[..k], orders)
      {
        var o := keys[k];
        assert keys[..k + 1] == keys[..k] + [o] && o !in keys[..k] && o in keys;
        var entry := byOrder[o];
        RetriableByStatuses(assignments, o);
        SelectedGrows(assignments, keys[..k], orders, Pending(o, entry.pickup));
        if AnyIn(entry.statuses, BLOCKING_STATUSES) {
          continue;
        }
        if !AnyIn(entry.statuses, RETRIABLE_STATUSES) {
          continue;
        }
        orders := orders + [Pending(o, entry.pickup)];
      }
      assert keys[..|keys|] == keys;
    }
  }
}
