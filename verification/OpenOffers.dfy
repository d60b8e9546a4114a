/** One open offer per driver: the lock alone does not give it, and this says exactly what does. */
module OpenOffers {
  import opened Common
  import opened AssignmentTable
  import opened DispatchSpec
  import opened DispatchMoves

  ghost predicate OneOpenOfferPerDriver(rows: Table) {
    forall i, j | 0 <= i < j < |rows| && rows[i].driverId == rows[j].driverId ::
      !(rows[i].status.Offered? && rows[j].status.Offered?)
  }

  ghost predicate HasOpenOffer(rows: Table, d: DriverId) {
    exists i | 0 <= i < |rows| :: rows[i].driverId == d && rows[i].status.Offered?
  }

  /** Every driver with an open offer is unavailable in Redis or locked. */
  ghost predicate OfferedAreShut(s: State) {
    forall d | HasOpenOffer(s.rows, d) :: !IsAvailable(s, d) || LockHeld(s, d)
  }

  lemma ShutMeansOneOpenOffer(env: Env, s: State, o: OrderId, at: Point)
    requires OneOpenOfferPerDriver(s.rows) && OfferedAreShut(s)
    ensures OneOpenOfferPerDriver(Offer(env, s, o, at).s.rows)
  {
    var tried, candidates := TriedDrivers(s.rows, o), Candidates(env, s.geo, s.geo, at);
    FirstEligibleIsEligible(s, tried, candidates);
    match FirstEligible(s, tried, candidates)
    case None =>
    case Some(d) =>
      InsertWrites(env, s, o, at, d);
      assert !HasOpenOffer(s.rows, d);
  }

  /** An order no row is about. */
  lemma {:induction false} NewOrder(rows: Table) returns (o: OrderId)
    ensures forall i | 0 <= i < |rows| :: rows[i].orderId < o
  {
    if |rows| == 0 {
      o := 0;
    } else {
      var n := |rows| - 1;
      var p := NewOrder(rows[..n]);
      o := if rows[n].orderId < p then p else rows[n].orderId + 1;
      forall i | 0 <= i < |rows| ensures rows[i].orderId < o {
        if i < n { assert rows[..n][i].orderId < p; }
      }
    }
  }

  /** A driver with an open offer whom nothing shuts out gets a second one from some order and reply. */
  lemma OpenDriverCanDouble(s: State, d: DriverId) returns (env: Env, o: OrderId)
    requires HasOpenOffer(s.rows, d) && IsAvailable(s, d) && !LockHeld(s, d)
    ensures !OneOpenOfferPerDriver(Offer(env, s, o, STAND).s.rows)
  {
    env := Env((geo, at, radius) => [d], k => true);
    o := NewOrder(s.rows);
    NoRowNoAttempt(s.rows, o);
    var candidates := Candidates(env, s.geo, s.geo, STAND);
    assert candidates[0] == d;
    assert FirstEligible(s, {}, candidates) == Some(d);
    InsertWrites(env, s, o, STAND, d);
    var after := Offer(env, s, o, STAND).s.rows;
    var i :| 0 <= i < |s.rows| && s.rows[i].driverId == d && s.rows[i].status.Offered?;
    assert after[i].driverId == after[|s.rows|].driverId;
  }

  /** Whatever order asks and whatever Redis replies, the next offer keeps one open offer per driver, exactly
      when every driver with an open offer is unavailable or locked. */
  lemma OffersKeepOneOpenIff(s: State)
    requires OneOpenOfferPerDriver(s.rows)
    ensures (forall env, o, at :: OneOpenOfferPerDriver(Offer(env, s, o, at).s.rows)) <==> OfferedAreShut(s)
  {
    if OfferedAreShut(s) {
      forall env, o, at ensures OneOpenOfferPerDriver(Offer(env, s, o, at).s.rows) {
        ShutMeansOneOpenOffer(env, s, o, at);
      }
    } else {
      var d :| HasOpenOffer(s.rows, d) && IsAvailable(s, d) && !LockHeld(s, d);
      var env, o := OpenDriverCanDouble(s, d);
    }
  }

  /* Over runs: the states in which a handler makes its offers. */

  /** The state in which a rejection makes its re-offer, and in which one turn of the timeout sweep does. */
  ghost predicate ReofferIsSafe(env: Env, s: State, i: AssignmentId, status: AssignmentStatus)
    requires i < |s.rows|
  {
    (status.TimedOut? ==> env.emitOk(s.emits)) ==> OfferedAreShut(SettleRow(env, s, i, status).s)
  }

  ghost predicate SweepIsSafe(env: Env, s: State, ids: seq<AssignmentId>)
    decreases |ids|
  {
    if |ids| == 0 then true
    else if ids[0] >= |s.rows| then SweepIsSafe(env, s, ids[1..])
    else
      && (s.rows[ids[0]].status.Offered? ==> ReofferIsSafe(env, s, ids[0], TimedOut))
      && (TimeOut(env, s, ids[0]).threw || SweepIsSafe(env, TimeOut(env, s, ids[0]).s, ids[1..]))
  }

  ghost predicate RetriesAreSafe(env: Env, s: State, pending: seq<Pending>)
    decreases |pending|
  {
    if |pending| == 0 then true
    else
      var p := pending[0];
      && (AnyUntriedAvailable(s, TriedDrivers(s.rows, p.orderId), Candidates(env, s.geo, s.geo, p.pickup)) ==>
            OfferedAreShut(s))
      && (Retry(env, s, p).threw || RetriesAreSafe(env, Retry(env, s, p).s, pending[1..]))
  }

  /** Every offer this step makes is made while the drivers with open offers are shut out. */
  ghost predicate OffersSafely(env: Env, s: State, step: Step) {
    match step
    case HandleOrderCreated(e) =>
      e.id.Some? && e.latitude.Some? && e.longitude.Some? && !HasRow(s.rows, e.id.value) ==> OfferedAreShut(s)
    case HandleDriverEvent(e) =>
      Complete(e) && e.eventType.value.AssignmentRejected? ==>
        var found := FindRow(s.rows, e.orderId.value, e.driverId.value, AssignmentStatus.Offered);
        found.Some? ==> ReofferIsSafe(env, s, found.value, Rejected)
    case HandleExpiredOffers(ids) => SweepIsSafe(env, s, ids)
    case RetryPendingOrders(pending) => RetriesAreSafe(env, s, pending)
    case _ => true
  }

  ghost predicate RunOffersSafely(env: Env, s: State, steps: seq<Step>)
    decreases |steps|
  {
    |steps| == 0 || (OffersSafely(env, s, steps[0]) && RunOffersSafely(env, Apply(env, s, steps[0]), steps[1..]))
  }

  lemma SettlingKeepsOneOpen(rows: Table, i: AssignmentId, status: AssignmentStatus)
    requires OneOpenOfferPerDriver(rows) && i < |rows| && !status.Offered?
    ensures OneOpenOfferPerDriver(rows[i := rows[i].(status := status)])
  {
  }

  /** A row closed and its order offered again. */
  lemma ReofferKeepsOneOpen(env: Env, s: State, i: AssignmentId, status: AssignmentStatus)
    requires OneOpenOfferPerDriver(s.rows) && i < |s.rows| && (status.Rejected? || status.TimedOut?)
    requires ReofferIsSafe(env, s, i, status)
    ensures var settled := SettleRow(env, s, i, status);
            && OneOpenOfferPerDriver(settled.s.rows)
            && (!settled.threw ==>
                  OneOpenOfferPerDriver(Offer(env, settled.s, s.rows[i].orderId, s.rows[i].pickup).s.rows))
  {
    SettleWrites(env, s, i, status);
    SettlingKeepsOneOpen(s.rows, i, status);
    var settled := SettleRow(env, s, i, status);
    if !settled.threw {
      ShutMeansOneOpenOffer(env, settled.s, s.rows[i].orderId, s.rows[i].pickup);
    }
  }

  lemma {:induction false} SweepKeepsOneOpen(env: Env, s: State, ids: seq<AssignmentId>)
    requires OneOpenOfferPerDriver(s.rows) && SweepIsSafe(env, s, ids)
    ensures OneOpenOfferPerDriver(ExpirySweep(env, s, ids).s.rows)
    decreases |ids|
  {
    if |ids| > 0 {
      if ids[0] >= |s.rows| {
        SweepKeepsOneOpen(env, s, ids[1..]);
      } else {
        if s.rows[ids[0]].status.Offered? {
          ReofferKeepsOneOpen(env, s, ids[0], TimedOut);
        }
        if !TimeOut(env, s, ids[0]).threw {
          SweepKeepsOneOpen(env, TimeOut(env, s, ids[0]).s, ids[1..]);
        }
      }
    }
  }

  lemma {:induction false} RetriesKeepOneOpen(env: Env, s: State, pending: seq<Pending>)
    requires OneOpenOfferPerDriver(s.rows) && RetriesAreSafe(env, s, pending)
    ensures OneOpenOfferPerDriver(RetrySweep(env, s, pending).s.rows)
    decreases |pending|
  {
    if |pending| > 0 {
      if Retry(env, s, pending[0]) != Outcome(s, false) {
        ShutMeansOneOpenOffer(env, s, pending[0].orderId, pending[0].pickup);
      }
      if !Retry(env, s, pending[0]).threw {
        RetriesKeepOneOpen(env, Retry(env, s, pending[0]).s, pending[1..]);
      }
    }
  }

  lemma EventKeepsOneOpen(env: Env, s: State, e: DriverLifecycleEvent)
    requires OneOpenOfferPerDriver(s.rows) && OffersSafely(env, s, HandleDriverEvent(e))
    ensures OneOpenOfferPerDriver(DriverEvent(env, s, e).s.rows)
  {
    if Complete(e) {
      var t := e.eventType.value;
      var needed := if t.AssignmentAccepted? || t.AssignmentRejected? then AssignmentStatus.Offered else Confirmed;
      var found := FindRow(s.rows, e.orderId.value, e.driverId.value, needed);
      if found.Some? {
        match t
        case AssignmentAccepted => SettlingKeepsOneOpen(s.rows, found.value, Confirmed);
        case AssignmentRejected => ReofferKeepsOneOpen(env, s, found.value, Rejected);
        case OrderCompleted => SettlingKeepsOneOpen(s.rows, found.value, Completed);
        case OrderCancelled => SettlingKeepsOneOpen(s.rows, found.value, Cancelled);
        case StatusChanged =>
      }
    }
  }

  /** One open offer per driver holds throughout a run whose offers are all made in such states. */
  lemma {:induction false} RunKeepsOneOpenOffer(env: Env, s: State, steps: seq<Step>)
    requires OneOpenOfferPerDriver(s.rows) && RunOffersSafely(env, s, steps)
    ensures OneOpenOfferPerDriver(Run(env, s, steps).rows)
    decreases |steps|
  {
    if |steps| > 0 {
      match steps[0] {
        case HandleOrderCreated(e) =>
          if e.id.Some? && e.latitude.Some? && e.longitude.Some? && !HasRow(s.rows, e.id.value) {
            ShutMeansOneOpenOffer(env, s, e.id.value, Point(e.latitude.value, e.longitude.value));
          }
        case HandleDriverEvent(e) => EventKeepsOneOpen(env, s, e);
        case HandleExpiredOffers(ids) => SweepKeepsOneOpen(env, s, ids);
        case RetryPendingOrders(pending) => RetriesKeepOneOpen(env, s, pending);
        case _ =>
      }
      RunKeepsOneOpenOffer(env, Apply(env, s, steps[0]), steps[1..]);
    }
  }

  const STAND := Point(0.0, 0.0)

  /** A broker that never fails and a city with one driver. */
  ghost function OneDriverCity(): Env {
    Env((geo, at, radius) => [7], k => true)
  }

  ghost function CreatedAtStand(o: OrderId): Step {
    HandleOrderCreated(OrderCreatedEvent(Some(o), Some(0.0), Some(0.0)))
  }

  ghost function OfferToSeven(s: State, o: OrderId): State {
    s.(rows := s.rows + [Assignment(o, 7, AssignmentStatus.Offered, 1, STAND, s.now + OFFER_TTL_MS)],
       locks := s.locks[7 := Lock(o, s.now + OFFER_TTL_MS)],
       lockOps := s.lockOps + [Acquired(7, o, s.now)],
       log := s.log + [DispatchEvent(AssignmentOffered, o, 7, |s.rows|, 1)],
       emits := s.emits + 1)
  }

  lemma SevenGetsNewOrder(s: State, o: OrderId)
    requires IsAvailable(s, 7) && !LockHeld(s, 7) && !HasRow(s.rows, o)
    ensures Apply(OneDriverCity(), s, CreatedAtStand(o)) == OfferToSeven(s, o)
  {
    NoRowNoAttempt(s.rows, o);
    NextAttemptIsFree(s.rows, o);
    var candidates := Candidates(OneDriverCity(), s.geo, s.geo, STAND);
    assert candidates[0] == 7;
    assert FirstEligible(s, {}, candidates) == Some(7);
  }

  /** The sweep times out row 0 and finds nobody else for its order. */
  lemma SevenTimesOut(s: State)
    requires |s.rows| > 0 && s.rows[0].driverId == 7 && s.rows[0].status.Offered? && s.rows[0].pickup == STAND
    ensures Apply(OneDriverCity(), s, HandleExpiredOffers([0])) == SettleRow(OneDriverCity(), s, 0, TimedOut).s
  {
    var env := OneDriverCity();
    var settled := SettleRow(env, s, 0, TimedOut).s;
    var o := s.rows[0].orderId;
    var candidates := Candidates(env, settled.geo, settled.geo, STAND);
    assert settled.rows[0].driverId == 7 && 7 in TriedDrivers(settled.rows, o);
    WithoutSeven([7]);
    assert candidates == [7];
    FirstEligibleIsEligible(settled, TriedDrivers(settled.rows, o), candidates);
    assert ExpirySweep(env, settled, [0][1..]) == Outcome(settled, false);
  }

  lemma WithoutSeven(s: seq<DriverId>)
    requires s == [7]
    ensures Without(s, Members(s)) == []
  {
    assert s[..0] == [];
    assert 7 in Members(s);
  }

  lemma StepFirst(s: State, step: Step, rest: seq<Step>)
    requires Allowed(s, step) && IsRun(OneDriverCity(), Apply(OneDriverCity(), s, step), rest)
    ensures var env := OneDriverCity();
            IsRun(env, s, [step] + rest) && Run(env, s, [step] + rest) == Run(env, Apply(env, s, step), rest)
  {
    assert ([step] + rest)[1..] == rest;
  }

  /** README's "one offer at a time" does not follow from the lock: in this run one driver
      is given two offers in the same instant, both open. The first offer lapses before its sweep, the
      driver is still AVAILABLE in Redis and gets a second, the sweep of the first deletes the second's
      lock, and the driver gets a third at once. */
  lemma OneDriverTwoOpenOffers() returns (steps: seq<Step>)
    ensures var env := OneDriverCity();
            && BrokerUp(env) && IsRun(env, EMPTY, steps)
            && var s := Run(env, EMPTY, steps);
               && |s.rows| == 3 && !OneOpenOfferPerDriver(s.rows)
               && s.rows[1].driverId == s.rows[2].driverId && s.rows[1].expiresAt == s.rows[2].expiresAt
               && s.now < s.rows[1].expiresAt
  {
    steps := FirstOffer();
    var s := Run(OneDriverCity(), EMPTY, steps);
    assert s.rows[1].status.Offered? && s.rows[2].status.Offered?;
  }

  const FIRST := Assignment(1, 7, AssignmentStatus.Offered, 1, STAND, OFFER_TTL_MS)
  const SECOND := Assignment(2, 7, AssignmentStatus.Offered, 1, STAND, 2 * OFFER_TTL_MS + 1)
  const THIRD := Assignment(3, 7, AssignmentStatus.Offered, 1, STAND, 2 * OFFER_TTL_MS + 1)

  ghost predicate EndsWithTwoOpen(s: State, steps: seq<Step>) {
    && IsRun(OneDriverCity(), s, steps)
    && var last := Run(OneDriverCity(), s, steps);
       last.now == OFFER_TTL_MS + 1 && last.rows == [FIRST.(status := TimedOut), SECOND, THIRD]
  }

  lemma FirstOffer() returns (steps: seq<Step>)
    ensures EndsWithTwoOpen(EMPTY, steps)
  {
    var online := DriversChange(map[7 := Available], map[7 := STAND]);
    var s1 := Apply(OneDriverCity(), EMPTY, online);
    SevenGetsNewOrder(s1, 1);
    var rest := SecondOffer(OfferToSeven(s1, 1));
    StepFirst(s1, CreatedAtStand(1), rest);
    StepFirst(EMPTY, online, [CreatedAtStand(1)] + rest);
    steps := [online] + ([CreatedAtStand(1)] + rest);
  }

  lemma SecondOffer(s: State) returns (steps: seq<Step>)
    requires s.now == 0 && IsAvailable(s, 7) && s.rows == [FIRST]
    requires 7 in s.locks && s.locks[7].until == OFFER_TTL_MS
    ensures EndsWithTwoOpen(s, steps)
  {
    var s3 := Apply(OneDriverCity(), s, PassTime(OFFER_TTL_MS + 1));
    SevenGetsNewOrder(s3, 2);
    var rest := SweepAndThirdOffer(OfferToSeven(s3, 2));
    StepFirst(s3, CreatedAtStand(2), rest);
    StepFirst(s, PassTime(OFFER_TTL_MS + 1), [CreatedAtStand(2)] + rest);
    steps := [PassTime(OFFER_TTL_MS + 1)] + ([CreatedAtStand(2)] + rest);
  }

  lemma SweepAndThirdOffer(s: State) returns (steps: seq<Step>)
    requires s.now == OFFER_TTL_MS + 1 && IsAvailable(s, 7) && s.rows == [FIRST, SECOND]
    ensures EndsWithTwoOpen(s, steps)
  {
    var s5 := SweepStealsLock(s);
    SevenGetsNewOrder(s5, 3);
    StepFirst(s5, CreatedAtStand(3), []);
    StepFirst(s, HandleExpiredOffers([0]), [CreatedAtStand(3)] + []);
    steps := [HandleExpiredOffers([0])] + ([CreatedAtStand(3)] + []);
  }

  /** The sweep of the first, expired offer frees the driver although the second is still open. */
  lemma SweepStealsLock(s: State) returns (after: State)
    requires s.now == OFFER_TTL_MS + 1 && IsAvailable(s, 7) && s.rows == [FIRST, SECOND]
    ensures Allowed(s, HandleExpiredOffers([0])) && Apply(OneDriverCity(), s, HandleExpiredOffers([0])) == after
    ensures after.rows == [FIRST.(status := TimedOut), SECOND] && after.now == s.now
    ensures IsAvailable(after, 7) && !LockHeld(after, 7)
  {
    SevenTimesOut(s);
    after := SettleRow(OneDriverCity(), s, 0, TimedOut).s;
    assert Expired(s, 0) && !Expired(s, 1);
    assert forall i: AssignmentId :: i in [0] <==> Expired(s, i);
  }
}
