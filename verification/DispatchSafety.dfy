/** What every run of the dispatch service's handlers and sweeps keeps, in any order, with any
    driver events and redeliveries, any Redis contents and any emit failing. */
module DispatchSafety {
  import opened Common
  import opened AssignmentTable
  import opened DispatchSpec
  import opened DispatchMoves
  import OfferRace

  lemma RunKeepsChain(env: Env, s: State, steps: seq<Step>)
    requires Chain(s.rows) && IsRun(env, s, steps)
    ensures Chain(Run(env, s, steps).rows) && Evolves(s.rows, Run(env, s, steps).rows)
  {
    var moves := RunMoves(env, s, steps);
    MovesKeepChain(env, s, moves);
  }

  /** In every reachable state an order's attempts are 1 to n, its drivers are distinct, and
      all its rows but the newest were rejected or timed out, so at most one is active. */
  lemma OneActiveAssignmentPerOrder(env: Env, steps: seq<Step>, o: OrderId)
    requires IsRun(env, EMPTY, steps)
    ensures var rows := Run(env, EMPTY, steps).rows;
            && (forall k: nat :: k in Attempts(rows, o) <==> 1 <= k <= Count(rows, o))
            && DistinctDrivers(rows)
            && (forall i | 0 <= i < |rows| && rows[i].orderId == o && rows[i].attempt < Count(rows, o) ::
                  Retriable(rows[i].status))
            && (forall i, j | 0 <= i < |rows| && 0 <= j < |rows| && rows[i].orderId == rows[j].orderId
                              && Blocking(rows[i].status) && Blocking(rows[j].status) :: i == j)
  {
    RunKeepsChain(env, EMPTY, steps);
    var rows := Run(env, EMPTY, steps).rows;
    AttemptsAreOneToN(rows, o);
    forall i, j | 0 <= i < |rows| && 0 <= j < |rows| && rows[i].orderId == rows[j].orderId
                  && Blocking(rows[i].status) && Blocking(rows[j].status)
      ensures i == j
    {
      OneActiveRow(rows, i, j);
    }
    forall i | 0 <= i < |rows| && rows[i].orderId == o && Blocking(rows[i].status)
      ensures rows[i].attempt == Count(rows, o)
    {
      OneActiveRow(rows, i, i);
    }
  }

  /** Once an order was completed or cancelled nothing adds or changes a row of it: no re-dispatch. */
  lemma FinalOrdersNeverChange(env: Env, s: State, steps: seq<Step>, final: AssignmentId)
    requires Chain(s.rows) && IsRun(env, s, steps)
    requires final < |s.rows| && Final(s.rows[final].status)
    ensures var after := Run(env, s, steps).rows;
            var o := s.rows[final].orderId;
            && |s.rows| <= |after|
            && (forall i | 0 <= i < |s.rows| && s.rows[i].orderId == o :: after[i] == s.rows[i])
            && (forall i | |s.rows| <= i < |after| :: after[i].orderId != o)
  {
    RunKeepsChain(env, s, steps);
    var after := Run(env, s, steps).rows;
    assert after[final] == s.rows[final].(status := after[final].status);
    OpenRowIsNewest(after, final);
    OpenRowIsNewest(s.rows, final);
    forall i | 0 <= i < |s.rows| && s.rows[i].orderId == s.rows[final].orderId
      ensures after[i] == s.rows[i]
    {
      assert after[i] == s.rows[i].(status := after[i].status);
      assert i == final || Retriable(s.rows[i].status);
    }
  }

  /** Redelivering order.created, at any later time, does nothing once the order had an offer. */
  lemma RedeliveryChangesNothing(env: Env, s: State, steps: seq<Step>, e: OrderCreatedEvent)
    requires Chain(s.rows) && IsRun(env, s, steps) && e.id.Some? && HasRow(s.rows, e.id.value)
    ensures OrderCreated(env, Run(env, s, steps), e) == Outcome(Run(env, s, steps), false)
  {
    RunKeepsChain(env, s, steps);
    var after := Run(env, s, steps).rows;
    var i :| 0 <= i < |s.rows| && s.rows[i].orderId == e.id.value;
    assert after[i].orderId == e.id.value;
  }

  lemma {:induction false} MovesStartNothing(env: Env, s: State, moves: seq<Move>, o: OrderId)
    requires AllLegal(env, s, moves) && !HasRow(s.rows, o)
    requires forall m | m in moves && m.Insert? && m.first :: m.orderId != o
    ensures !HasRow(DoAll(env, s, moves).rows, o)
    decreases |moves|
  {
    if |moves| > 0 {
      var m := moves[0];
      if m.Insert? {
        InsertWrites(env, s, m.orderId, m.pickup, m.driverId);
      } else if m.Settle? {
        SettleWrites(env, s, m.row, m.status);
      }
      MovesStartNothing(env, Do(env, s, m), moves[1..], o);
    }
  }

  ghost predicate Announces(step: Step, o: OrderId) {
    step.HandleOrderCreated? && step.event.id == Some(o)
  }

  /** An order for which order.created found no driver has no row, so neither sweep ever comes back to
      it, whatever drivers come online: only another order.created can start it. */
  lemma {:induction false} UnofferedOrderIsForgotten(env: Env, s: State, steps: seq<Step>, o: OrderId)
    requires Chain(s.rows) && IsRun(env, s, steps) && !HasRow(s.rows, o)
    requires forall i | 0 <= i < |steps| :: !Announces(steps[i], o)
    ensures !HasRow(Run(env, s, steps).rows, o)
    decreases |steps|
  {
    if |steps| > 0 {
      var moves := StepMoves(env, s, steps[0]);
      forall m | m in moves && m.Insert? && m.first ensures m.orderId != o {
        assert MadeBy(steps[0], m);
      }
      MovesStartNothing(env, s, moves, o);
      MovesKeepChain(env, s, moves);
      UnofferedOrderIsForgotten(env, Apply(env, s, steps[0]), steps[1..], o);
    }
  }

  /* What a driver's event does. */

  /** The status a row must have for the event to apply, and the one it gets. */
  function Needs(t: DriverEventType): AssignmentStatus {
    if t.AssignmentAccepted? || t.AssignmentRejected? then AssignmentStatus.Offered else Confirmed
  }

  function Gives(t: DriverEventType): AssignmentStatus {
    match t
    case AssignmentAccepted => Confirmed
    case AssignmentRejected => Rejected
    case OrderCompleted => Completed
    case OrderCancelled => Cancelled
    case StatusChanged => AssignmentStatus.Offered
  }

  ghost predicate AppliesTo(t: DriverEventType, o: OrderId, d: DriverId, row: Assignment) {
    row.orderId == o && row.driverId == d && row.status == Needs(t)
  }

  function Event(t: DriverEventType, o: OrderId, d: DriverId): DriverLifecycleEvent {
    DriverLifecycleEvent(Some(t), Some(d), Some(o))
  }

  /** The table after the event: one row settled, and at most one more for a rejected order. */
  ghost predicate SettlesOne(before: Table, after: Table, t: DriverEventType, o: OrderId, d: DriverId) {
    && |before| <= |after| <= |before| + (if t.AssignmentRejected? then 1 else 0)
    && (forall i | 0 <= i < |before| ::
          after[i] == if AppliesTo(t, o, d, before[i]) then before[i].(status := Gives(t)) else before[i])
    && (forall i | |before| <= i < |after| :: after[i].orderId == o && after[i].driverId != d)
  }

  /** A driver's event settles the one row of that order and driver that awaits it, and no other;
      only a rejection can bring a new row, one, for the same order. Without such a row it does nothing. */
  lemma DriverEventSettlesItsRow(env: Env, s: State, t: DriverEventType, o: OrderId, d: DriverId)
    requires Chain(s.rows) && !t.StatusChanged?
    ensures (forall i | 0 <= i < |s.rows| :: !AppliesTo(t, o, d, s.rows[i])) ==>
              DriverEvent(env, s, Event(t, o, d)) == Outcome(s, false)
    ensures (exists i | 0 <= i < |s.rows| :: AppliesTo(t, o, d, s.rows[i])) ==>
              SettlesOne(s.rows, DriverEvent(env, s, Event(t, o, d)).s.rows, t, o, d)
  {
    var found := FindRow(s.rows, o, d, Needs(t));
    if found.Some? {
      var i := found.value;
      assert AppliesTo(t, o, d, s.rows[i]);
      forall j | 0 <= j < |s.rows| && AppliesTo(t, o, d, s.rows[j]) ensures j == i {
        FindRowIsUnique(s.rows, o, d, Needs(t), j);
      }
      DriverEventWrites(env, s, t, i);
      OneRowSettled(s.rows, DriverEvent(env, s, Event(t, o, d)).s.rows, t, i);
    }
  }

  lemma OneRowSettled(before: Table, after: Table, t: DriverEventType, i: AssignmentId)
    requires i < |before| && AppliesTo(t, before[i].orderId, before[i].driverId, before[i])
    requires forall j | 0 <= j < |before| && AppliesTo(t, before[i].orderId, before[i].driverId, before[j]) :: j == i
    requires |before| <= |after| <= |before| + (if t.AssignmentRejected? then 1 else 0)
    requires after[..|before|] == before[i := before[i].(status := Gives(t))]
    requires |after| > |before| ==>
               after[|before|].orderId == before[i].orderId && after[|before|].driverId != before[i].driverId
    ensures SettlesOne(before, after, t, before[i].orderId, before[i].driverId)
  {
    forall j | 0 <= j < |before|
      ensures after[j] == if AppliesTo(t, before[i].orderId, before[i].driverId, before[j])
                          then before[j].(status := Gives(t)) else before[j]
    {
      assert after[j] == after[..|before|][j];
    }
  }

  lemma DriverEventWrites(env: Env, s: State, t: DriverEventType, i: AssignmentId)
    requires Chain(s.rows) && !t.StatusChanged? && i < |s.rows| && s.rows[i].status == Needs(t)
    requires FindRow(s.rows, s.rows[i].orderId, s.rows[i].driverId, Needs(t)) == Some(i)
    ensures var o, d := s.rows[i].orderId, s.rows[i].driverId;
            var settled := s.rows[i := s.rows[i].(status := Gives(t))];
            var after := DriverEvent(env, s, Event(t, o, d)).s.rows;
            && |settled| <= |after| <= |settled| + (if t.AssignmentRejected? then 1 else 0)
            && after[..|settled|] == settled
            && (|after| > |settled| ==> after[|settled|].orderId == o && after[|settled|].driverId != d)
  {
    if t.AssignmentRejected? {
      RejectWrites(env, s, i);
    } else {
      var o, d := s.rows[i].orderId, s.rows[i].driverId;
      var settled := s.rows[i := s.rows[i].(status := Gives(t))];
      assert DriverEvent(env, s, Event(t, o, d)).s.rows == settled;
    }
  }

  lemma RejectWrites(env: Env, s: State, i: AssignmentId)
    requires Chain(s.rows) && i < |s.rows| && s.rows[i].status.Offered?
    requires FindRow(s.rows, s.rows[i].orderId, s.rows[i].driverId, AssignmentStatus.Offered) == Some(i)
    ensures var o, d := s.rows[i].orderId, s.rows[i].driverId;
            var settled, after := s.rows[i := s.rows[i].(status := Rejected)], Reject(env, s, o, d).s.rows;
            && |settled| <= |after| <= |settled| + 1 && after[..|settled|] == settled
            && (|after| > |settled| ==> after[|settled|].orderId == o && after[|settled|].driverId != d)
  {
    var o, d, at := s.rows[i].orderId, s.rows[i].driverId, s.rows[i].pickup;
    var settled := Release(SetStatus(s, i, Rejected), d);
    var tried, candidates := TriedDrivers(settled.rows, o), Candidates(env, settled.geo, settled.geo, at);
    assert settled.rows[i].driverId == d && settled.rows[i].orderId == o && d in tried;
    FirstEligibleIsEligible(settled, tried, candidates);
    match FirstEligible(settled, tried, candidates)
    case None =>
    case Some(next) => InsertWrites(env, settled, o, at, next);
  }

  /* Re-dispatch ends. */

  ghost predicate DriversWithin(s: State, drivers: set<DriverId>) {
    s.statuses.Keys <= drivers && forall i | 0 <= i < |s.rows| :: s.rows[i].driverId in drivers
  }

  ghost predicate StepsWithin(steps: seq<Step>, drivers: set<DriverId>) {
    forall i | 0 <= i < |steps| && steps[i].DriversChange? :: steps[i].statuses.Keys <= drivers
  }

  lemma MoveStaysWithin(env: Env, s: State, m: Move, drivers: set<DriverId>)
    requires DriversWithin(s, drivers) && Legal(s, m) && (m.Redis? ==> m.statuses.Keys <= drivers)
    ensures DriversWithin(Do(env, s, m), drivers)
  {
    if m.Insert? {
      InsertWrites(env, s, m.orderId, m.pickup, m.driverId);
    }
  }

  lemma {:induction false} MovesStayWithin(env: Env, s: State, moves: seq<Move>, drivers: set<DriverId>)
    requires DriversWithin(s, drivers) && AllLegal(env, s, moves)
    requires forall m | m in moves && m.Redis? :: m.statuses.Keys <= drivers
    ensures DriversWithin(DoAll(env, s, moves), drivers)
    decreases |moves|
  {
    if |moves| > 0 {
      MoveStaysWithin(env, s, moves[0], drivers);
      MovesStayWithin(env, Do(env, s, moves[0]), moves[1..], drivers);
    }
  }

  lemma {:induction false} RunStaysWithin(env: Env, s: State, steps: seq<Step>, drivers: set<DriverId>)
    requires Chain(s.rows) && IsRun(env, s, steps)
    requires DriversWithin(s, drivers) && StepsWithin(steps, drivers)
    ensures DriversWithin(Run(env, s, steps), drivers)
    decreases |steps|
  {
    if |steps| > 0 {
      var moves := StepMoves(env, s, steps[0]);
      MovesKeepChain(env, s, moves);
      MovesStayWithin(env, s, moves, drivers);
      RunStaysWithin(env, Apply(env, s, steps[0]), steps[1..], drivers);
    }
  }

  /** Wherever the order is, an offer for it finds nobody and changes nothing. */
  ghost predicate NothingToOffer(env: Env, s: State, o: OrderId) {
    forall at :: Offer(env, s, o, at) == Outcome(s, false)
  }

  /** However often an order is rejected, timed out or retried, it gets at most one offer per
      driver, so the re-dispatch chain ends: an order short of drivers stays unoffered. */
  lemma RedispatchEnds(env: Env, steps: seq<Step>, drivers: set<DriverId>, o: OrderId)
    requires IsRun(env, EMPTY, steps) && StepsWithin(steps, drivers)
    ensures Count(Run(env, EMPTY, steps).rows, o) <= |drivers|
    ensures var s := Run(env, EMPTY, steps);
            Count(s.rows, o) == |drivers| ==> NothingToOffer(env, s, o)
  {
    RunKeepsChain(env, EMPTY, steps);
    RunStaysWithin(env, EMPTY, steps, drivers);
    var s := Run(env, EMPTY, steps);
    var tried := TriedDrivers(s.rows, o);
    OffersBoundedByDrivers(s.rows, o, drivers);
    if Count(s.rows, o) == |drivers| {
      assert tried == drivers by {
        assert |drivers - tried| == |drivers| - |tried|;
      }
      forall at ensures Offer(env, s, o, at) == Outcome(s, false) {
        FirstEligibleIsEligible(s, tried, Candidates(env, s.geo, s.geo, at));
      }
    }
  }

  /** Each new offer brings an order one row nearer to having used every driver. */
  lemma OfferUsesOneDriver(env: Env, s: State, m: Move, drivers: set<DriverId>)
    requires Chain(s.rows) && Legal(s, m) && m.Insert? && DriversWithin(s, drivers)
    ensures Count(Do(env, s, m).rows, m.orderId) == Count(s.rows, m.orderId) + 1 <= |drivers|
    ensures forall o | o != m.orderId :: Count(Do(env, s, m).rows, o) == Count(s.rows, o)
  {
    InsertWrites(env, s, m.orderId, m.pickup, m.driverId);
    MoveKeepsChain(env, s, m);
    MoveStaysWithin(env, s, m, drivers);
    var after := Do(env, s, m).rows;
    assert after[..|s.rows|] == s.rows;
    OffersBoundedByDrivers(after, m.orderId, drivers);
  }

  /* The two granularities agree. */

  /** A handler's offer is one search of OfferRace run without interruption. */
  lemma OfferIsOneSearch(env: Env, s: State, o: OrderId, at: Point, w: OfferRace.World) returns (steps: seq<OfferRace.Step>)
    requires w.rows == s.rows
    ensures OfferRace.Interleaving(w, steps)
    ensures OfferRace.After(w, steps).rows == Offer(env, s, o, at).s.rows
  {
    var k := |w.searches|;
    var w1 := OfferRace.Next(w, OfferRace.Begin(o));
    var w2 := OfferRace.Next(w1, OfferRace.ReadLastAttempt(k));
    var w3 := OfferRace.Next(w2, OfferRace.ReadTriedDrivers(k));
    assert w3.searches[k] == OfferRace.Scanning(o, LastAttempt(s.rows, o) + 1, TriedDrivers(s.rows, o));
    steps := ScanToEnd(env, s, o, at, w3, k);
    OfferRace.StepFirst(w2, OfferRace.ReadTriedDrivers(k), steps);
    steps := [OfferRace.ReadTriedDrivers(k)] + steps;
    OfferRace.StepFirst(w1, OfferRace.ReadLastAttempt(k), steps);
    steps := [OfferRace.ReadLastAttempt(k)] + steps;
    OfferRace.StepFirst(w, OfferRace.Begin(o), steps);
    steps := [OfferRace.Begin(o)] + steps;
  }

  /** The rest of the search once it has read the attempt and the tried drivers. */
  lemma ScanToEnd(env: Env, s: State, o: OrderId, at: Point, w: OfferRace.World, k: nat) returns (steps: seq<OfferRace.Step>)
    requires w.rows == s.rows && k < |w.searches|
    requires w.searches[k] == OfferRace.Scanning(o, LastAttempt(s.rows, o) + 1, TriedDrivers(s.rows, o))
    ensures OfferRace.Interleaving(w, steps)
    ensures OfferRace.After(w, steps).rows == Offer(env, s, o, at).s.rows
  {
    var tried, candidates := TriedDrivers(s.rows, o), Candidates(env, s.geo, s.geo, at);
    var found := FirstEligible(s, tried, candidates);
    FirstEligibleIsEligible(s, tried, candidates);
    if found.None? {
      OfferRace.StepFirst(w, OfferRace.GiveUp(k), []);
      steps := [OfferRace.GiveUp(k)] + [];
    } else {
      InsertWrites(env, s, o, at, found.value);
      NextAttemptIsFree(s.rows, o);
      var insert := OfferRace.Insert(k, at, s.now + OFFER_TTL_MS);
      var locked := OfferRace.Next(w, OfferRace.LockDriver(k, found.value));
      OfferRace.StepFirst(locked, insert, []);
      OfferRace.StepFirst(w, OfferRace.LockDriver(k, found.value), [insert] + []);
      steps := [OfferRace.LockDriver(k, found.value)] + ([insert] + []);
    }
  }
}
