/** What each handler of the dispatch service leaves behind, told by the stores before and after alone:
    rows, locks, lock commands, messages and the exception. */
module DispatchOutcomes {
  import opened Common
  import opened AssignmentTable
  import opened DispatchSpec
  import opened DispatchMoves

  /** Redis shows the driver AVAILABLE and no live lock, and the order has no row of theirs. */
  ghost predicate CanOffer(s: State, o: OrderId, d: DriverId) {
    && (forall i | 0 <= i < |s.rows| && s.rows[i].orderId == o :: s.rows[i].driverId != d)
    && d in s.statuses && s.statuses[d] == Available
    && (d in s.locks ==> s.locks[d].until < s.now)
  }

  ghost predicate IsFirst(s: State, o: OrderId, candidates: seq<DriverId>, i: nat) {
    && i < |candidates| && CanOffer(s, o, candidates[i])
    && forall j | 0 <= j < i :: !CanOffer(s, o, candidates[j])
  }

  /** The new row: its attempt is the order's next, and it lapses in 30 seconds. */
  ghost predicate IsNextRow(s: State, row: Assignment, o: OrderId, at: Point, d: DriverId) {
    && row.orderId == o && row.driverId == d && row.pickup == at && row.status.Offered?
    && row.expiresAt == s.now + 30000
    && (forall i | 0 <= i < |s.rows| && s.rows[i].orderId == o :: s.rows[i].attempt < row.attempt)
    && (row.attempt == 1 ||
        exists i | 0 <= i < |s.rows| :: s.rows[i].orderId == o && s.rows[i].attempt + 1 == row.attempt)
  }

  /** A message went out, or the emit failed and the handler throws. */
  ghost predicate Emits(env: Env, s: State, r: Outcome, e: DispatchEvent) {
    && r.s.emits == s.emits + 1 && r.threw == !env.emitOk(s.emits)
    && r.s.log == if r.threw then s.log else s.log + [e]
  }

  ghost predicate SameRedis(before: State, after: State) {
    after.now == before.now && after.statuses == before.statuses && after.geo == before.geo
  }

  /** The driver got the offer: lock taken, row inserted, message sent, or the lock given back. */
  ghost predicate OffersDriver(env: Env, s: State, o: OrderId, at: Point, d: DriverId, r: Outcome) {
    var n := |s.rows|;
    && SameRedis(s, r.s)
    && |r.s.rows| == n + 1 && r.s.rows[..n] == s.rows && IsNextRow(s, r.s.rows[n], o, at, d)
    && Emits(env, s, r, DispatchEvent(AssignmentOffered, o, d, n, r.s.rows[n].attempt))
    && r.s.locks == (if r.threw then s.locks - {d} else s.locks[d := Lock(o, s.now + 30000)])
    && r.s.lockOps == s.lockOps + [Acquired(d, o, s.now)] + if r.threw then [Released(d)] else []
  }

  /** The first candidate who can be offered the order gets it; if there is none nothing happens. */
  ghost predicate IsOffer(env: Env, s: State, o: OrderId, at: Point, r: Outcome) {
    var candidates := Candidates(env, s.geo, s.geo, at);
    || (exists i: nat :: IsFirst(s, o, candidates, i) && OffersDriver(env, s, o, at, candidates[i], r))
    || (r == Outcome(s, false) && forall d | d in candidates :: !CanOffer(s, o, d))
  }

  lemma CanOfferIffEligible(s: State, o: OrderId, d: DriverId)
    ensures CanOffer(s, o, d) <==> Eligible(s, TriedDrivers(s.rows, o), d)
  {
    if !CanOffer(s, o, d) && d !in TriedDrivers(s.rows, o) {
      assert forall i | 0 <= i < |s.rows| && s.rows[i].orderId == o :: s.rows[i].driverId in TriedDrivers(s.rows, o);
    }
  }

  lemma {:induction false} FirstIsFirst(s: State, o: OrderId, candidates: seq<DriverId>) returns (i: nat)
    ensures var found := FirstEligible(s, TriedDrivers(s.rows, o), candidates);
            if found.Some? then IsFirst(s, o, candidates, i) && candidates[i] == found.value
            else forall d | d in candidates :: !CanOffer(s, o, d)
  {
    i := 0;
    if |candidates| > 0 {
      CanOfferIffEligible(s, o, candidates[0]);
      if !CanOffer(s, o, candidates[0]) {
        var k := FirstIsFirst(s, o, candidates[1..]);
        i := k + 1;
        assert forall j | 0 < j < |candidates| :: candidates[j] == candidates[1..][j - 1];
      }
    }
  }

  lemma {:induction false} LastAttemptIsUsed(rows: Table, o: OrderId)
    ensures LastAttempt(rows, o) == 0 ||
            exists i | 0 <= i < |rows| :: rows[i].orderId == o && rows[i].attempt == LastAttempt(rows, o)
  {
    if |rows| > 0 {
      var n := |rows| - 1;
      LastAttemptIsUsed(rows[..n], o);
      if LastAttempt(rows, o) != 0 {
        if LastAttempt(rows, o) == LastAttempt(rows[..n], o) {
          var i :| 0 <= i < n && rows[..n][i].orderId == o && rows[..n][i].attempt == LastAttempt(rows, o);
          assert rows[i].orderId == o;
        } else {
          assert rows[n].orderId == o;
        }
      }
    }
  }

  lemma NextRowIsNext(s: State, o: OrderId, at: Point, d: DriverId)
    ensures var row := Assignment(o, d, AssignmentStatus.Offered, LastAttempt(s.rows, o) + 1, at, s.now + 30000);
            IsNextRow(s, row, o, at, d)
  {
    LastAttemptIsHighest(s.rows, o);
    LastAttemptIsUsed(s.rows, o);
  }

  lemma OfferToOutcome(env: Env, s: State, o: OrderId, at: Point, d: DriverId)
    ensures OffersDriver(env, s, o, at, d, OfferTo(env, s, o, at, d))
  {
    NextAttemptIsFree(s.rows, o);
    NextRowIsNext(s, o, at, d);
    var r, row := OfferTo(env, s, o, at, d), Assignment(o, d, AssignmentStatus.Offered, LastAttempt(s.rows, o) + 1,
                                                         at, s.now + 30000);
    assert r.s.rows == s.rows + [row];
  }

  /** The candidate loop, whichever emit fails. */
  lemma OfferOutcome(env: Env, s: State, o: OrderId, at: Point)
    ensures IsOffer(env, s, o, at, Offer(env, s, o, at))
  {
    var candidates := Candidates(env, s.geo, s.geo, at);
    var i := FirstIsFirst(s, o, candidates);
    match FirstEligible(s, TriedDrivers(s.rows, o), candidates)
    case None =>
    case Some(d) =>
      OfferToOutcome(env, s, o, at, d);
      assert OffersDriver(env, s, o, at, candidates[i], Offer(env, s, o, at));
  }

  /** order.created offers an order that has no row at the place it names, and does nothing for a malformed
      message or an order that has a row. */
  lemma OrderCreatedOutcome(env: Env, s: State, e: OrderCreatedEvent)
    ensures var r := OrderCreated(env, s, e);
            if e.id.Some? && e.latitude.Some? && e.longitude.Some?
               && (forall i | 0 <= i < |s.rows| :: s.rows[i].orderId != e.id.value)
            then IsOffer(env, s, e.id.value, Point(e.latitude.value, e.longitude.value), r)
            else r == Outcome(s, false)
  {
    if e.id.Some? && e.latitude.Some? && e.longitude.Some? {
      OfferOutcome(env, s, e.id.value, Point(e.latitude.value, e.longitude.value));
    }
  }

  /* Driver events. */

  /** Row i got the status, and the driver's lock was deleted or left alone. */
  ghost predicate Settles(s: State, after: State, i: AssignmentId, status: AssignmentStatus, unlocks: bool)
    requires i < |s.rows|
  {
    var d := s.rows[i].driverId;
    && SameRedis(s, after)
    && after.rows == s.rows[i := s.rows[i].(status := status)]
    && after.locks == (if unlocks then s.locks - {d} else s.locks)
    && after.lockOps == s.lockOps + if unlocks then [Released(d)] else []
  }

  /** The row was closed without a message, and its order offered again at the row's pickup. */
  ghost predicate ClosesAndReoffers(env: Env, s: State, i: AssignmentId, r: Outcome)
    requires i < |s.rows|
  {
    exists settled: State ::
      && Settles(s, settled, i, Rejected, true) && settled.log == s.log && settled.emits == s.emits
      && IsOffer(env, settled, s.rows[i].orderId, s.rows[i].pickup, r)
  }

  /** What a driver's event does to the row that awaits it. */
  ghost predicate Answers(env: Env, s: State, t: DriverEventType, i: AssignmentId, r: Outcome)
    requires i < |s.rows|
  {
    var o, d, attempt := s.rows[i].orderId, s.rows[i].driverId, s.rows[i].attempt;
    match t
    case AssignmentAccepted =>
      Settles(s, r.s, i, Confirmed, false) && Emits(env, s, r, DispatchEvent(AssignmentConfirmed, o, d, i, attempt))
    case AssignmentRejected => ClosesAndReoffers(env, s, i, r)
    case OrderCompleted =>
      Settles(s, r.s, i, Completed, true) && Emits(env, s, r, DispatchEvent(AssignmentCompleted, o, d, i, attempt))
    case OrderCancelled =>
      Settles(s, r.s, i, Cancelled, true) && Emits(env, s, r, DispatchEvent(AssignmentCancelled, o, d, i, attempt))
    case StatusChanged => r == Outcome(s, false)
  }

  /** The row awaits this event: offered to be accepted or rejected, confirmed to be completed or cancelled. */
  ghost predicate Awaits(row: Assignment, t: DriverEventType, o: OrderId, d: DriverId) {
    && row.orderId == o && row.driverId == d
    && match t
       case AssignmentAccepted => row.status.Offered?
       case AssignmentRejected => row.status.Offered?
       case OrderCompleted => row.status.Confirmed?
       case OrderCancelled => row.status.Confirmed?
       case StatusChanged => false
  }

  lemma AnswerOutcome(env: Env, s: State, t: DriverEventType, i: AssignmentId)
    requires i < |s.rows| && Awaits(s.rows[i], t, s.rows[i].orderId, s.rows[i].driverId)
    requires FindRow(s.rows, s.rows[i].orderId, s.rows[i].driverId, s.rows[i].status) == Some(i)
    ensures var e := DriverLifecycleEvent(Some(t), Some(s.rows[i].driverId), Some(s.rows[i].orderId));
            Answers(env, s, t, i, DriverEvent(env, s, e))
  {
    if t.AssignmentRejected? {
      var settled := Release(SetStatus(s, i, Rejected), s.rows[i].driverId);
      OfferOutcome(env, settled, s.rows[i].orderId, s.rows[i].pickup);
      assert Settles(s, settled, i, Rejected, true);
    }
  }

  /** A driver's event does its work on the one row that awaits it, and nothing when there is none,
      when a field is missing and when the driver only changed status. */
  lemma DriverEventOutcome(env: Env, s: State, e: DriverLifecycleEvent)
    requires Chain(s.rows)
    ensures var r := DriverEvent(env, s, e);
            if e.eventType.None? || e.driverId.None? || e.orderId.None? then r == Outcome(s, false)
            else
              var t, o, d := e.eventType.value, e.orderId.value, e.driverId.value;
              && (forall i | 0 <= i < |s.rows| && Awaits(s.rows[i], t, o, d) :: Answers(env, s, t, i, r))
              && ((forall i | 0 <= i < |s.rows| :: !Awaits(s.rows[i], t, o, d)) ==> r == Outcome(s, false))
  {
    if e.eventType.Some? && e.driverId.Some? && e.orderId.Some? {
      var t, o, d := e.eventType.value, e.orderId.value, e.driverId.value;
      forall i | 0 <= i < |s.rows| && Awaits(s.rows[i], t, o, d) ensures Answers(env, s, t, i, DriverEvent(env, s, e)) {
        FindRowIsUnique(s.rows, o, d, s.rows[i].status, i);
        AnswerOutcome(env, s, t, i);
      }
      if forall i | 0 <= i < |s.rows| :: !Awaits(s.rows[i], t, o, d) {
        NobodyAwaits(env, s, e);
      }
    }
  }

  lemma NobodyAwaits(env: Env, s: State, e: DriverLifecycleEvent)
    requires Complete(e)
    requires forall i | 0 <= i < |s.rows| :: !Awaits(s.rows[i], e.eventType.value, e.orderId.value, e.driverId.value)
    ensures DriverEvent(env, s, e) == Outcome(s, false)
  {
    var t := e.eventType.value;
    var needed := if t.OrderCompleted? || t.OrderCancelled? then Confirmed else AssignmentStatus.Offered;
    var found := FindRow(s.rows, e.orderId.value, e.driverId.value, needed);
    assert found.Some? && !t.StatusChanged? ==> Awaits(s.rows[found.value], t, e.orderId.value, e.driverId.value);
  }

  /* The sweeps, one turn at a time. */

  /** A turn of the timeout sweep: the row is timed out, its driver's lock deleted, the timeout announced, and,
      if that went out, the order is offered again at the row's pickup. */
  ghost predicate TimesOutAndReoffers(env: Env, s: State, i: AssignmentId, r: Outcome)
    requires i < |s.rows|
  {
    var row := s.rows[i];
    var e := DispatchEvent(AssignmentTimeout, row.orderId, row.driverId, i, row.attempt);
    exists sent: Outcome ::
      && Settles(s, sent.s, i, TimedOut, true) && Emits(env, s, sent, e)
      && if sent.threw then r == sent else IsOffer(env, sent.s, row.orderId, row.pickup, r)
  }

  lemma TimeOutOutcome(env: Env, s: State, i: AssignmentId)
    requires i < |s.rows|
    ensures if s.rows[i].status.Offered? then TimesOutAndReoffers(env, s, i, TimeOut(env, s, i))
            else TimeOut(env, s, i) == Outcome(s, false)
  {
    if s.rows[i].status.Offered? {
      var sent := SettleRow(env, s, i, TimedOut);
      SettleWrites(env, s, i, TimedOut);
      OfferOutcome(env, sent.s, s.rows[i].orderId, s.rows[i].pickup);
      assert Settles(s, sent.s, i, TimedOut, true);
    }
  }

  /** A turn of the retry sweep offers the order if some candidate is untried and AVAILABLE, locked or not. */
  lemma RetryOutcome(env: Env, s: State, p: Pending)
    ensures IsOffer(env, s, p.orderId, p.pickup, Retry(env, s, p))
  {
    var candidates := Candidates(env, s.geo, s.geo, p.pickup);
    OfferOutcome(env, s, p.orderId, p.pickup);
    forall d | d in candidates && CanOffer(s, p.orderId, d)
      ensures AnyUntriedAvailable(s, TriedDrivers(s.rows, p.orderId), candidates)
    {
      CanOfferIffEligible(s, p.orderId, d);
    }
  }

  /* When a handler throws. */

  ghost predicate EmitFailed(env: Env, from: nat, to: nat) {
    exists k | from <= k < to :: !env.emitOk(k)
  }

  /** It throws exactly when one of the emits it tried failed, which is then its last; all others are in the log. */
  ghost predicate ThrowTells(env: Env, s: State, r: Outcome) {
    && s.emits <= r.s.emits && s.log <= r.s.log
    && (r.threw <==> EmitFailed(env, s.emits, r.s.emits))
    && |r.s.log| - |s.log| == r.s.emits - s.emits - if r.threw then 1 else 0
  }

  lemma ThrowTellsOn(env: Env, s: State, mid: State, r: Outcome)
    requires ThrowTells(env, s, Outcome(mid, false)) && ThrowTells(env, mid, r)
    ensures ThrowTells(env, s, r)
  {
    if EmitFailed(env, mid.emits, r.s.emits) {
      var k :| mid.emits <= k < r.s.emits && !env.emitOk(k);
      assert !env.emitOk(k);
    }
    if EmitFailed(env, s.emits, r.s.emits) {
      var k :| s.emits <= k < r.s.emits && !env.emitOk(k);
      assert k >= mid.emits;
    }
  }

  lemma OneEmitTells(env: Env, s: State, r: Outcome, e: DispatchEvent)
    requires Emits(env, s, r, e)
    ensures ThrowTells(env, s, r)
  {
    if r.threw {
      assert !env.emitOk(s.emits);
    }
  }

  lemma OfferTells(env: Env, s: State, o: OrderId, at: Point)
    ensures ThrowTells(env, s, Offer(env, s, o, at))
  {
    var r := Offer(env, s, o, at);
    OfferOutcome(env, s, o, at);
    if r != Outcome(s, false) {
      var candidates := Candidates(env, s.geo, s.geo, at);
      var i: nat :| IsFirst(s, o, candidates, i) && OffersDriver(env, s, o, at, candidates[i], r);
      var n := |s.rows|;
      OneEmitTells(env, s, r, DispatchEvent(AssignmentOffered, o, candidates[i], n, r.s.rows[n].attempt));
    }
  }

  lemma DriverEventTells(env: Env, s: State, e: DriverLifecycleEvent)
    ensures ThrowTells(env, s, DriverEvent(env, s, e))
  {
    if Complete(e) && e.eventType.value.AssignmentRejected? {
      var o, d := e.orderId.value, e.driverId.value;
      var found := FindRow(s.rows, o, d, AssignmentStatus.Offered);
      if found.Some? {
        OfferTells(env, Release(SetStatus(s, found.value, Rejected), d), o, s.rows[found.value].pickup);
      }
    } else if DriverEvent(env, s, e) != Outcome(s, false) {
      EmittedLast(env, s, e);
    }
  }

  lemma EmittedLast(env: Env, s: State, e: DriverLifecycleEvent)
    requires DriverEvent(env, s, e) != Outcome(s, false) && !(Complete(e) && e.eventType.value.AssignmentRejected?)
    ensures ThrowTells(env, s, DriverEvent(env, s, e))
  {
    var t, r := e.eventType.value, DriverEvent(env, s, e);
    var i := FindRow(s.rows, e.orderId.value, e.driverId.value,
                     if t.AssignmentAccepted? then AssignmentStatus.Offered else Confirmed).value;
    var kind := if t.AssignmentAccepted? then AssignmentConfirmed
                else if t.OrderCompleted? then AssignmentCompleted else AssignmentCancelled;
    OneEmitTells(env, s, r, RowEvent(s.rows, i, kind));
  }

  lemma TimeOutTells(env: Env, s: State, i: AssignmentId)
    requires i < |s.rows|
    ensures ThrowTells(env, s, TimeOut(env, s, i))
  {
    if s.rows[i].status.Offered? {
      var sent := SettleRow(env, s, i, TimedOut);
      OneEmitTells(env, s, sent, RowEvent(s.rows, i, AssignmentTimeout));
      if !sent.threw {
        OfferTells(env, sent.s, s.rows[i].orderId, s.rows[i].pickup);
        ThrowTellsOn(env, s, sent.s, TimeOut(env, s, i));
      }
    }
  }

  lemma {:induction false} ExpirySweepTells(env: Env, s: State, ids: seq<AssignmentId>)
    ensures ThrowTells(env, s, ExpirySweep(env, s, ids))
    decreases |ids|
  {
    if |ids| > 0 {
      if ids[0] >= |s.rows| {
        ExpirySweepTells(env, s, ids[1..]);
      } else {
        TimeOutTells(env, s, ids[0]);
        var r := TimeOut(env, s, ids[0]);
        if !r.threw {
          ExpirySweepTells(env, r.s, ids[1..]);
          ThrowTellsOn(env, s, r.s, ExpirySweep(env, r.s, ids[1..]));
        }
      }
    }
  }

  lemma {:induction false} RetrySweepTells(env: Env, s: State, pending: seq<Pending>)
    ensures ThrowTells(env, s, RetrySweep(env, s, pending))
    decreases |pending|
  {
    if |pending| > 0 {
      OfferTells(env, s, pending[0].orderId, pending[0].pickup);
      var r := Retry(env, s, pending[0]);
      if !r.threw {
        RetrySweepTells(env, r.s, pending[1..]);
        ThrowTellsOn(env, s, r.s, RetrySweep(env, r.s, pending[1..]));
      }
    }
  }

  /** A handler or sweep throws exactly when one of its emits failed, and stops there. */
  lemma HandlersThrowIffEmitFails(env: Env, s: State, created: OrderCreatedEvent, e: DriverLifecycleEvent,
                                  ids: seq<AssignmentId>, pending: seq<Pending>)
    ensures ThrowTells(env, s, OrderCreated(env, s, created))
    ensures ThrowTells(env, s, DriverEvent(env, s, e))
    ensures ThrowTells(env, s, ExpirySweep(env, s, ids))
    ensures ThrowTells(env, s, RetrySweep(env, s, pending))
  {
    if OrderCreated(env, s, created) != Outcome(s, false) {
      OfferTells(env, s, created.id.value, Point(created.latitude.value, created.longitude.value));
    }
    DriverEventTells(env, s, e);
    ExpirySweepTells(env, s, ids);
    RetrySweepTells(env, s, pending);
  }
}
