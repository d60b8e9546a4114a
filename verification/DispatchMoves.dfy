/** Every handler and sweep, whichever emit fails and wherever it throws, is a sequence of
    two kinds of move on the service's stores: a new offer, or an offer settled.
    An invariant kept by each move is therefore kept by every run. */
module DispatchMoves {
  import opened Common
  import opened AssignmentTable
  import opened DispatchSpec

  datatype Move =
    | Insert(orderId: OrderId, driverId: DriverId, pickup: Point, first: bool)
    | Settle(row: AssignmentId, status: AssignmentStatus)
    | Time(ms: nat)
    | Redis(statuses: map<DriverId, DriverStatus>, geo: GeoSet)

  ghost predicate Legal(s: State, m: Move) {
    match m
    case Insert(o, d, at, first) =>
      && AllRetriable(s.rows, o) && AllAt(s.rows, o, at)
      && Eligible(s, TriedDrivers(s.rows, o), d)
      && first == !HasRow(s.rows, o)
    case Settle(i, status) =>
      && i < |s.rows|
      && (|| (s.rows[i].status.Offered? && (status.Confirmed? || status.Rejected?))
          || (Expired(s, i) && status.TimedOut?)
          || (s.rows[i].status.Confirmed? && Final(status)))
    case _ => true
  }

  function EventOf(status: AssignmentStatus): EventType {
    match status
    case Confirmed => AssignmentConfirmed
    case TimedOut => AssignmentTimeout
    case Completed => AssignmentCompleted
    case Cancelled => AssignmentCancelled
    case _ => AssignmentOffered
  }

  /** The row changes, the lock goes unless the driver accepted, and all but a rejection is announced. */
  function SettleRow(env: Env, s: State, i: AssignmentId, status: AssignmentStatus): Outcome
    requires i < |s.rows|
  {
    var updated := SetStatus(s, i, status);
    var unlocked := if status.Confirmed? then updated else Release(updated, s.rows[i].driverId);
    if status.Rejected? then Outcome(unlocked, false)
    else Emit(env, unlocked, RowEvent(s.rows, i, EventOf(status)))
  }

  function Do(env: Env, s: State, m: Move): State {
    match m
    case Insert(o, d, at, _) => OfferTo(env, s, o, at, d).s
    case Settle(i, status) => if i < |s.rows| then SettleRow(env, s, i, status).s else s
    case Time(ms) => s.(now := s.now + ms)
    case Redis(statuses, geo) => s.(statuses := statuses, geo := geo)
  }

  ghost predicate AllLegal(env: Env, s: State, moves: seq<Move>)
    decreases |moves|
  {
    |moves| == 0 || (Legal(s, moves[0]) && AllLegal(env, Do(env, s, moves[0]), moves[1..]))
  }

  function DoAll(env: Env, s: State, moves: seq<Move>): State
    decreases |moves|
  {
    if |moves| == 0 then s else DoAll(env, Do(env, s, moves[0]), moves[1..])
  }

  lemma TailOfJoin(a: seq<Move>, b: seq<Move>)
    requires |a| > 0
    ensures (a + b)[0] == a[0] && (a + b)[1..] == a[1..] + b
  {
  }

  lemma {:induction false} JoinMoves(env: Env, s: State, a: seq<Move>, b: seq<Move>)
    requires AllLegal(env, s, a) && AllLegal(env, DoAll(env, s, a), b)
    ensures AllLegal(env, s, a + b) && DoAll(env, s, a + b) == DoAll(env, DoAll(env, s, a), b)
    decreases |a|
  {
    if |a| == 0 {
      assert a + b == b;
    } else {
      TailOfJoin(a, b);
      JoinMoves(env, Do(env, s, a[0]), a[1..], b);
    }
  }

  /** What a new offer writes; in particular the unique index never refuses it. */
  lemma InsertWrites(env: Env, s: State, o: OrderId, at: Point, d: DriverId)
    ensures var r := OfferTo(env, s, o, at, d);
            var row := Assignment(o, d, AssignmentStatus.Offered, LastAttempt(s.rows, o) + 1, at, s.now + OFFER_TTL_MS);
            && r.s.rows == s.rows + [row]
            && r.s.now == s.now && r.s.statuses == s.statuses && r.s.geo == s.geo
            && r.threw == !env.emitOk(s.emits)
  {
    NextAttemptIsFree(s.rows, o);
  }

  /** What settling a row writes. */
  lemma SettleWrites(env: Env, s: State, i: AssignmentId, status: AssignmentStatus)
    requires i < |s.rows|
    ensures var after, d := SettleRow(env, s, i, status).s, s.rows[i].driverId;
            && after.rows == s.rows[i := s.rows[i].(status := status)]
            && after.now == s.now && after.statuses == s.statuses && after.geo == s.geo
            && after.locks == (if status.Confirmed? then s.locks else s.locks - {d})
            && after.lockOps == s.lockOps + (if status.Confirmed? then [] else [Released(d)])
            && after.log == s.log + (if status.Rejected? || !env.emitOk(s.emits) then []
                                     else [RowEvent(s.rows, i, EventOf(status))])
  {
  }

  lemma MoveKeepsChain(env: Env, s: State, m: Move)
    requires Chain(s.rows) && Legal(s, m)
    ensures Chain(Do(env, s, m).rows) && Evolves(s.rows, Do(env, s, m).rows)
    ensures !m.Time? ==> Do(env, s, m).now == s.now
    ensures !m.Redis? ==> Do(env, s, m).statuses == s.statuses && Do(env, s, m).geo == s.geo
  {
    match m
    case Insert(o, d, at, _) =>
      InsertWrites(env, s, o, at, d);
      AppendKeepsChain(s.rows, Do(env, s, m).rows[|s.rows|]);
    case Settle(i, status) =>
      SettleWrites(env, s, i, status);
      StatusKeepsChain(s.rows, i, status);
    case _ =>
  }

  lemma {:induction false} MovesKeepChain(env: Env, s: State, moves: seq<Move>)
    requires Chain(s.rows) && AllLegal(env, s, moves)
    ensures Chain(DoAll(env, s, moves).rows) && Evolves(s.rows, DoAll(env, s, moves).rows)
    ensures (forall m | m in moves :: !m.Time?) ==> DoAll(env, s, moves).now == s.now
    decreases |moves|
  {
    if |moves| > 0 {
      var next := Do(env, s, moves[0]);
      MoveKeepsChain(env, s, moves[0]);
      MovesKeepChain(env, next, moves[1..]);
      EvolvesTransitive(s.rows, next.rows, DoAll(env, s, moves).rows);
    }
  }

  /* Handlers as moves. */

  lemma {:induction false} FirstEligibleIsEligible(s: State, tried: set<DriverId>, candidates: seq<DriverId>)
    ensures var found := FirstEligible(s, tried, candidates);
            && (found.Some? ==> found.value in candidates && Eligible(s, tried, found.value))
            && (found.None? ==> forall d | d in candidates :: !Eligible(s, tried, d))
  {
    if |candidates| > 0 {
      FirstEligibleIsEligible(s, tried, candidates[1..]);
    }
  }

  lemma OfferMoves(env: Env, s: State, o: OrderId, at: Point) returns (moves: seq<Move>)
    requires AllRetriable(s.rows, o) && AllAt(s.rows, o, at)
    ensures AllLegal(env, s, moves) && DoAll(env, s, moves) == Offer(env, s, o, at).s
    ensures |moves| <= 1
    ensures forall m | m in moves :: m.Insert? && m.orderId == o && m.pickup == at && m.first == !HasRow(s.rows, o)
  {
    var tried, candidates := TriedDrivers(s.rows, o), Candidates(env, s.geo, s.geo, at);
    FirstEligibleIsEligible(s, tried, candidates);
    match FirstEligible(s, tried, candidates)
    case None => moves := [];
    case Some(d) =>
      moves := [Insert(o, d, at, !HasRow(s.rows, o))];
      assert moves[1..] == [];
  }

  /** Once an open row is rejected or timed out, its order is free for another offer. */
  lemma SettledOrderIsFree(rows: Table, i: AssignmentId, status: AssignmentStatus)
    requires Chain(rows) && i < |rows| && !Retriable(rows[i].status) && Retriable(status)
    ensures var after := rows[i := rows[i].(status := status)];
            && HasRow(after, rows[i].orderId)
            && AllRetriable(after, rows[i].orderId)
            && AllAt(after, rows[i].orderId, rows[i].pickup)
  {
    var after := rows[i := rows[i].(status := status)];
    assert after[i].orderId == rows[i].orderId;
    forall j | 0 <= j < |after| && after[j].orderId == rows[i].orderId
      ensures Retriable(after[j].status) && after[j].pickup == rows[i].pickup
    {
      assert rows[j].orderId == rows[i].orderId;
      if i < j { assert false; }
    }
  }

  /** Settling a row and then offering its order again. */
  lemma SettleThenOfferMoves(env: Env, s: State, i: AssignmentId, status: AssignmentStatus) returns (moves: seq<Move>)
    requires Chain(s.rows) && Legal(s, Settle(i, status)) && Retriable(status)
    ensures var settled := SettleRow(env, s, i, status).s;
            && |moves| > 0 && moves[0] == Settle(i, status)
            && AllLegal(env, s, moves)
            && DoAll(env, s, moves) == Offer(env, settled, s.rows[i].orderId, s.rows[i].pickup).s
    ensures forall m | m in moves[1..] :: m.Insert? && !m.first
    ensures forall m | m in moves :: m == Settle(i, status) || (m.Insert? && !m.first)
  {
    var settled := Do(env, s, Settle(i, status));
    SettledOrderIsFree(s.rows, i, status);
    assert settled.rows == s.rows[i := s.rows[i].(status := status)];
    var offer := OfferMoves(env, settled, s.rows[i].orderId, s.rows[i].pickup);
    moves := [Settle(i, status)] + offer;
    assert moves[1..] == offer;
  }

  ghost predicate Complete(e: DriverLifecycleEvent) {
    e.eventType.Some? && e.driverId.Some? && e.orderId.Some?
  }

  lemma AcceptMoves(env: Env, s: State, e: DriverLifecycleEvent) returns (moves: seq<Move>)
    requires Complete(e) && e.eventType.value.AssignmentAccepted?
    ensures AllLegal(env, s, moves) && DoAll(env, s, moves) == DriverEvent(env, s, e).s
    ensures forall m | m in moves :: m.Settle? && !m.status.TimedOut?
  {
    var row := FindRow(s.rows, e.orderId.value, e.driverId.value, AssignmentStatus.Offered);
    moves := if row.None? then [] else [Settle(row.value, Confirmed)];
    assert row.Some? ==> moves[1..] == [];
  }

  lemma FinishMoves(env: Env, s: State, e: DriverLifecycleEvent) returns (moves: seq<Move>)
    requires Complete(e) && (e.eventType.value.OrderCompleted? || e.eventType.value.OrderCancelled?)
    ensures AllLegal(env, s, moves) && DoAll(env, s, moves) == DriverEvent(env, s, e).s
    ensures forall m | m in moves :: m.Settle? && !m.status.TimedOut?
  {
    var row := FindRow(s.rows, e.orderId.value, e.driverId.value, Confirmed);
    var status := if e.eventType.value.OrderCompleted? then Completed else Cancelled;
    moves := if row.None? then [] else [Settle(row.value, status)];
    assert row.Some? ==> moves[1..] == [];
  }

  lemma RejectMoves(env: Env, s: State, e: DriverLifecycleEvent) returns (moves: seq<Move>)
    requires Chain(s.rows) && Complete(e) && e.eventType.value.AssignmentRejected?
    ensures AllLegal(env, s, moves) && DoAll(env, s, moves) == DriverEvent(env, s, e).s
    ensures forall m | m in moves :: (m.Settle? && !m.status.TimedOut?) || (m.Insert? && !m.first)
  {
    var row := FindRow(s.rows, e.orderId.value, e.driverId.value, AssignmentStatus.Offered);
    moves := [];
    if row.Some? {
      moves := SettleThenOfferMoves(env, s, row.value, Rejected);
    }
  }

  lemma DriverEventMoves(env: Env, s: State, e: DriverLifecycleEvent) returns (moves: seq<Move>)
    requires Chain(s.rows)
    ensures AllLegal(env, s, moves) && DoAll(env, s, moves) == DriverEvent(env, s, e).s
    ensures forall m | m in moves :: (m.Settle? && !m.status.TimedOut?) || (m.Insert? && !m.first)
  {
    if !Complete(e) || e.eventType.value.StatusChanged? {
      moves := [];
    } else if e.eventType.value.AssignmentAccepted? {
      moves := AcceptMoves(env, s, e);
    } else if e.eventType.value.AssignmentRejected? {
      moves := RejectMoves(env, s, e);
    } else {
      moves := FinishMoves(env, s, e);
    }
  }

  ghost predicate OfferedIsExpired(s: State, ids: seq<AssignmentId>) {
    forall i | i in ids :: i < |s.rows| && (s.rows[i].status.Offered? ==> s.rows[i].expiresAt < s.now)
  }

  lemma StillExpired(s: State, after: State, ids: seq<AssignmentId>)
    requires OfferedIsExpired(s, ids) && Evolves(s.rows, after.rows) && s.now == after.now
    ensures OfferedIsExpired(after, ids)
  {
    forall i | i in ids
      ensures i < |after.rows| && (after.rows[i].status.Offered? ==> after.rows[i].expiresAt < after.now)
    {
      assert after.rows[i] == s.rows[i].(status := after.rows[i].status);
    }
  }

  /** One turn of the timeout sweep's loop. */
  lemma TimeOutMoves(env: Env, s: State, i: AssignmentId) returns (moves: seq<Move>)
    requires Chain(s.rows) && Expired(s, i)
    ensures AllLegal(env, s, moves) && DoAll(env, s, moves) == TimeOut(env, s, i).s
    ensures forall m | m in moves :: (m.Settle? && m.status.TimedOut?) || (m.Insert? && !m.first)
  {
    if env.emitOk(s.emits) {
      moves := SettleThenOfferMoves(env, s, i, TimedOut);
    } else {
      moves := [Settle(i, TimedOut)];
      assert moves[1..] == [];
    }
  }

  lemma {:induction false} ExpirySweepMoves(env: Env, s: State, ids: seq<AssignmentId>) returns (moves: seq<Move>)
    requires Chain(s.rows) && OfferedIsExpired(s, ids)
    ensures AllLegal(env, s, moves) && DoAll(env, s, moves) == ExpirySweep(env, s, ids).s
    ensures forall m | m in moves :: (m.Settle? && m.status.TimedOut?) || (m.Insert? && !m.first)
    decreases |ids|
  {
    moves := [];
    if |ids| > 0 {
      var i := ids[0];
      assert i in ids;
      if s.rows[i].status.Offered? {
        moves := TimeOutMoves(env, s, i);
      }
      var r := TimeOut(env, s, i);
      if !r.threw {
        MovesKeepChain(env, s, moves);
        StillExpired(s, r.s, ids);
        var rest := ExpirySweepMoves(env, r.s, ids[1..]);
        JoinMoves(env, s, moves, rest);
        moves := moves + rest;
      }
    }
  }

  ghost predicate Ready(rows: Table, pending: seq<Pending>) {
    && (forall i, j | 0 <= i < j < |pending| :: pending[i].orderId != pending[j].orderId)
    && (forall i | 0 <= i < |pending| ::
          && HasRow(rows, pending[i].orderId)
          && AllRetriable(rows, pending[i].orderId)
          && AllAt(rows, pending[i].orderId, pending[i].pickup))
  }

  lemma RetryListIsReady(rows: Table, pending: seq<Pending>)
    requires Chain(rows) && IsRetryList(rows, pending)
    ensures Ready(rows, pending)
  {
    forall i | 0 <= i < |pending|
      ensures HasRow(rows, pending[i].orderId)
      ensures AllRetriable(rows, pending[i].orderId)
      ensures AllAt(rows, pending[i].orderId, pending[i].pickup)
    {
      assert Lists(pending, pending[i].orderId);
    }
  }

  /** A new offer to the first order leaves the others ready. */
  lemma OthersStayReady(rows: Table, row: Assignment, pending: seq<Pending>)
    requires Ready(rows, pending) && |pending| > 0 && row.orderId == pending[0].orderId
    ensures Ready(rows, pending[1..]) && Ready(rows + [row], pending[1..])
  {
    var rest, after := pending[1..], rows + [row];
    forall k | 0 <= k < |rest|
      ensures rest[k].orderId != row.orderId && HasRow(rows, rest[k].orderId) && HasRow(after, rest[k].orderId)
    {
      assert rest[k] == pending[k + 1];
      var r :| 0 <= r < |rows| && rows[r].orderId == rest[k].orderId;
      assert after[r] == rows[r];
    }
  }

  lemma RetryMoves(env: Env, s: State, pending: seq<Pending>) returns (moves: seq<Move>)
    requires Chain(s.rows) && Ready(s.rows, pending) && |pending| > 0
    ensures AllLegal(env, s, moves) && DoAll(env, s, moves) == Retry(env, s, pending[0]).s
    ensures forall m | m in moves :: m.Insert? && !m.first
    ensures Ready(Retry(env, s, pending[0]).s.rows, pending[1..])
  {
    var p := pending[0];
    moves := [];
    if AnyUntriedAvailable(s, TriedDrivers(s.rows, p.orderId), Candidates(env, s.geo, s.geo, p.pickup)) {
      moves := OfferMoves(env, s, p.orderId, p.pickup);
    }
    if |moves| > 0 {
      assert moves[1..] == [];
      InsertWrites(env, s, p.orderId, p.pickup, moves[0].driverId);
      OthersStayReady(s.rows, Do(env, s, moves[0]).rows[|s.rows|], pending);
    } else {
      OthersStayReady(s.rows, Assignment(p.orderId, 0, AssignmentStatus.Offered, 0, p.pickup, 0), pending);
    }
  }

  lemma {:induction false} RetrySweepMoves(env: Env, s: State, pending: seq<Pending>) returns (moves: seq<Move>)
    requires Chain(s.rows) && Ready(s.rows, pending)
    ensures AllLegal(env, s, moves) && DoAll(env, s, moves) == RetrySweep(env, s, pending).s
    ensures forall m | m in moves :: m.Insert? && !m.first
    decreases |pending|
  {
    moves := [];
    if |pending| > 0 {
      var one := RetryMoves(env, s, pending);
      moves := one;
      var r := Retry(env, s, pending[0]);
      if !r.threw {
        MovesKeepChain(env, s, one);
        var rest := RetrySweepMoves(env, r.s, pending[1..]);
        JoinMoves(env, s, one, rest);
        moves := one + rest;
      }
    }
  }

  /** Which moves a step may make: only order.created starts an order, and only with its own pickup. */
  ghost predicate MadeBy(step: Step, m: Move) {
    match m
    case Insert(o, _, at, first) =>
      first ==> step.HandleOrderCreated?
                && step.event == OrderCreatedEvent(Some(o), Some(at.latitude), Some(at.longitude))
    case Settle(_, status) => if status.TimedOut? then step.HandleExpiredOffers? else step.HandleDriverEvent?
    case Time(ms) => step == PassTime(ms)
    case Redis(statuses, geo) => step == DriversChange(statuses, geo)
  }

  lemma OrderCreatedMoves(env: Env, s: State, e: OrderCreatedEvent) returns (moves: seq<Move>)
    ensures AllLegal(env, s, moves) && DoAll(env, s, moves) == OrderCreated(env, s, e).s
    ensures forall m | m in moves :: m.Insert? && MadeBy(HandleOrderCreated(e), m)
  {
    if e.id.None? || e.latitude.None? || e.longitude.None? || HasRow(s.rows, e.id.value) {
      moves := [];
    } else {
      moves := OfferMoves(env, s, e.id.value, Point(e.latitude.value, e.longitude.value));
    }
  }

  /** Every handler is a sequence of legal moves. */
  lemma StepMoves(env: Env, s: State, step: Step) returns (moves: seq<Move>)
    requires Chain(s.rows) && Allowed(s, step)
    ensures AllLegal(env, s, moves) && DoAll(env, s, moves) == Apply(env, s, step)
    ensures forall m | m in moves :: MadeBy(step, m)
  {
    match step
    case HandleOrderCreated(e) => moves := OrderCreatedMoves(env, s, e);
    case HandleDriverEvent(e) => moves := DriverEventMoves(env, s, e);
    case HandleExpiredOffers(ids) => moves := ExpirySweepMoves(env, s, ids);
    case RetryPendingOrders(pending) =>
      RetryListIsReady(s.rows, pending);
      moves := RetrySweepMoves(env, s, pending);
    case PassTime(ms) => moves := [Time(ms)]; assert moves[1..] == [];
    case DriversChange(statuses, geo) => moves := [Redis(statuses, geo)]; assert moves[1..] == [];
  }

  /** Every run of handlers is a sequence of legal moves. */
  lemma {:induction false} RunMoves(env: Env, s: State, steps: seq<Step>) returns (moves: seq<Move>)
    requires Chain(s.rows) && IsRun(env, s, steps)
    ensures AllLegal(env, s, moves) && DoAll(env, s, moves) == Run(env, s, steps)
    decreases |steps|
  {
    if |steps| == 0 {
      moves := [];
    } else {
      var first := StepMoves(env, s, steps[0]);
      MovesKeepChain(env, s, first);
      var rest := RunMoves(env, Apply(env, s, steps[0]), steps[1..]);
      JoinMoves(env, s, first, rest);
      moves := first + rest;
    }
  }
}
