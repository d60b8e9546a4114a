/** The two granularities agree: every run of whole handlers and sweeps is one of the interleavings of
    SettleRace, with each handler's calls made one after the other. */
module SerialRuns {
  import opened Common
  import opened AssignmentTable
  import opened DispatchSpec
  import opened DispatchMoves
  import opened SettleRace
  import opened SettledOrders
  import OfferRace

  /** The world has this table and this time. */
  ghost predicate Shows(w: World, s: State) {
    w.race.rows == s.rows && w.now == s.now
  }

  /** Some interleaving leads from the world to one that shows the state. */
  ghost predicate CanShow(w: World, s: State) {
    exists v :: Reaches(w, v) && Shows(v, s)
  }

  lemma ShowsAlready(w: World, s: State)
    requires Shows(w, s)
    ensures CanShow(w, s)
  {
    ReachSelf(w);
  }

  lemma ShowFirst(w: World, act: Act, s: State)
    requires Enabled(w, act) && CanShow(Next(w, act), s)
    ensures CanShow(w, s)
  {
    var v :| Reaches(Next(w, act), v) && Shows(v, s);
    ReachFirst(w, act, v);
  }

  lemma OneAct(w: World, act: Act, s: State)
    requires Enabled(w, act) && Shows(Next(w, act), s)
    ensures CanShow(w, s)
  {
    ShowsAlready(Next(w, act), s);
    ShowFirst(w, act, s);
  }

  /** The candidate loop, from its search's first call to its last. */
  lemma SearchShowsOffer(env: Env, s: State, w: World, k: nat, o: OrderId, at: Point)
    requires Shows(w, s) && k < |w.race.searches| && w.race.searches[k] == OfferRace.Begun(o)
    ensures CanShow(w, Offer(env, s, o, at).s)
  {
    var w1 := Next(w, Search(OfferRace.ReadLastAttempt(k)));
    var w2 := Next(w1, Search(OfferRace.ReadTriedDrivers(k)));
    assert w2.race.searches[k] == OfferRace.Scanning(o, LastAttempt(s.rows, o) + 1, TriedDrivers(s.rows, o));
    ScanShowsOffer(env, s, w2, k, o, at);
    ShowFirst(w1, Search(OfferRace.ReadTriedDrivers(k)), Offer(env, s, o, at).s);
    ShowFirst(w, Search(OfferRace.ReadLastAttempt(k)), Offer(env, s, o, at).s);
  }

  lemma ScanShowsOffer(env: Env, s: State, w: World, k: nat, o: OrderId, at: Point)
    requires Shows(w, s) && k < |w.race.searches|
    requires w.race.searches[k] == OfferRace.Scanning(o, LastAttempt(s.rows, o) + 1, TriedDrivers(s.rows, o))
    ensures CanShow(w, Offer(env, s, o, at).s)
  {
    var tried, candidates := TriedDrivers(s.rows, o), Candidates(env, s.geo, s.geo, at);
    FirstEligibleIsEligible(s, tried, candidates);
    match FirstEligible(s, tried, candidates)
    case None => OneAct(w, Search(OfferRace.GiveUp(k)), s);
    case Some(d) =>
      InsertWrites(env, s, o, at, d);
      NextAttemptIsFree(s.rows, o);
      var locked := Next(w, Search(OfferRace.LockDriver(k, d)));
      OneAct(locked, Search(OfferRace.Insert(k, at, s.now + OFFER_TTL_MS)), Offer(env, s, o, at).s);
      ShowFirst(w, Search(OfferRace.LockDriver(k, d)), Offer(env, s, o, at).s);
  }

  lemma FreshOfferShows(env: Env, s: State, w: World, o: OrderId, at: Point)
    requires Shows(w, s) && AllRetriable(s.rows, o)
    ensures CanShow(w, Offer(env, s, o, at).s)
  {
    SearchShowsOffer(env, s, Next(w, StartOffer(o)), |w.race.searches|, o, at);
    ShowFirst(w, StartOffer(o), Offer(env, s, o, at).s);
  }

  lemma OrderCreatedShows(env: Env, s: State, w: World, e: OrderCreatedEvent)
    requires Shows(w, s)
    ensures CanShow(w, OrderCreated(env, s, e).s)
  {
    if e.id.Some? && e.latitude.Some? && e.longitude.Some? && !HasRow(s.rows, e.id.value) {
      FreshOfferShows(env, s, w, e.id.value, Point(e.latitude.value, e.longitude.value));
    } else {
      ShowsAlready(w, s);
    }
  }

  lemma DriverEventShows(env: Env, s: State, w: World, e: DriverLifecycleEvent)
    requires Shows(w, s)
    ensures CanShow(w, DriverEvent(env, s, e).s)
  {
    if !Complete(e) || e.eventType.value.StatusChanged? {
      ShowsAlready(w, s);
    } else {
      AnswerShows(env, s, w, e);
    }
  }

  /** A row found, and then written: nothing follows but, for a rejection, the re-offer. */
  lemma FoundShows(env: Env, s: State, w: World, o: OrderId, d: DriverId, status: AssignmentStatus, i: AssignmentId)
    requires Shows(w, s) && Answers(status) && FindRow(s.rows, o, d, Needed(status)) == Some(i)
    ensures var settled := SettleRow(env, s, i, status).s;
            CanShow(w, if status.Rejected? then Offer(env, settled, o, s.rows[i].pickup).s else settled)
  {
    var find, write := Find(o, d, status), Write(|w.handlers|);
    var holding, settled := Next(w, find), SettleRow(env, s, i, status).s;
    SettleWrites(env, s, i, status);
    if status.Rejected? {
      SearchShowsOffer(env, settled, Next(holding, write), |w.race.searches|, o, s.rows[i].pickup);
      ShowFirst(holding, write, Offer(env, settled, o, s.rows[i].pickup).s);
      ShowFirst(w, find, Offer(env, settled, o, s.rows[i].pickup).s);
    } else {
      OneAct(holding, write, settled);
      ShowFirst(w, find, settled);
    }
  }

  function Answer(t: DriverEventType): AssignmentStatus {
    match t
    case AssignmentAccepted => Confirmed
    case AssignmentRejected => Rejected
    case OrderCompleted => Completed
    case _ => Cancelled
  }

  lemma AnswerShows(env: Env, s: State, w: World, e: DriverLifecycleEvent)
    requires Shows(w, s) && Complete(e) && !e.eventType.value.StatusChanged?
    ensures CanShow(w, DriverEvent(env, s, e).s)
  {
    var o, d, status := e.orderId.value, e.driverId.value, Answer(e.eventType.value);
    var found := FindRow(s.rows, o, d, Needed(status));
    if found.None? {
      OneAct(w, Find(o, d, status), s);
    } else {
      FoundShows(env, s, w, o, d, status, found.value);
      FoundIsHandled(env, s, e, found.value);
    }
  }

  lemma FoundIsHandled(env: Env, s: State, e: DriverLifecycleEvent, i: AssignmentId)
    requires Complete(e) && !e.eventType.value.StatusChanged?
    requires FindRow(s.rows, e.orderId.value, e.driverId.value, Needed(Answer(e.eventType.value))) == Some(i)
    ensures var status := Answer(e.eventType.value);
            var settled := SettleRow(env, s, i, status).s;
            DriverEvent(env, s, e).s ==
            if status.Rejected? then Offer(env, settled, e.orderId.value, s.rows[i].pickup).s else settled
  {
  }

  /** One turn of the timeout sweep. */
  lemma TurnShows(env: Env, s: State, w: World, i: AssignmentId)
    requires Shows(w, s) && Expired(s, i)
    ensures CanShow(w, TimeOut(env, s, i).s)
  {
    var after := Next(w, TimeOutRow(i));
    SettleWrites(env, s, i, TimedOut);
    if env.emitOk(s.emits) {
      var settled := SettleRow(env, s, i, TimedOut).s;
      SearchShowsOffer(env, settled, after, |w.race.searches|, s.rows[i].orderId, s.rows[i].pickup);
      ShowFirst(w, TimeOutRow(i), TimeOut(env, s, i).s);
    } else {
      OneAct(w, TimeOutRow(i), TimeOut(env, s, i).s);
    }
  }

  lemma {:induction false} ExpirySweepShows(env: Env, s: State, w: World, ids: seq<AssignmentId>)
    requires Shows(w, s) && Chain(s.rows) && OfferedIsExpired(s, ids)
    ensures CanShow(w, ExpirySweep(env, s, ids).s)
    decreases |ids|
  {
    if |ids| == 0 {
      ShowsAlready(w, s);
    } else {
      var i := ids[0];
      assert i in ids;
      var r := TimeOut(env, s, i);
      var moves: seq<Move> := [];
      if s.rows[i].status.Offered? {
        TurnShows(env, s, w, i);
        moves := TimeOutMoves(env, s, i);
      } else {
        ShowsAlready(w, s);
      }
      if !r.threw {
        MovesKeepChain(env, s, moves);
        StillExpired(s, r.s, ids);
        var u :| Reaches(w, u) && Shows(u, r.s);
        ExpirySweepShows(env, r.s, u, ids[1..]);
        ShowOn(w, u, ExpirySweep(env, s, ids).s);
      }
    }
  }

  lemma ShowOn(w: World, u: World, s: State)
    requires Reaches(w, u) && CanShow(u, s)
    ensures CanShow(w, s)
  {
    var v :| Reaches(u, v) && Shows(v, s);
    ReachOn(w, u, v);
  }

  lemma {:induction false} RetrySweepShows(env: Env, s: State, w: World, pending: seq<Pending>)
    requires Shows(w, s) && Chain(s.rows) && Ready(s.rows, pending)
    ensures CanShow(w, RetrySweep(env, s, pending).s)
    decreases |pending|
  {
    if |pending| == 0 {
      ShowsAlready(w, s);
    } else {
      var p, r := pending[0], Retry(env, s, pending[0]);
      FreshOfferShows(env, s, w, p.orderId, p.pickup);
      if r.s == s {
        ShowsAlready(w, s);
      }
      if !r.threw {
        var moves := RetryMoves(env, s, pending);
        MovesKeepChain(env, s, moves);
        var u :| Reaches(w, u) && Shows(u, r.s);
        RetrySweepShows(env, r.s, u, pending[1..]);
        ShowOn(w, u, RetrySweep(env, s, pending).s);
      }
    }
  }

  lemma StepShows(env: Env, s: State, w: World, step: DispatchSpec.Step)
    requires Shows(w, s) && Chain(s.rows) && Allowed(s, step)
    ensures CanShow(w, Apply(env, s, step))
  {
    match step
    case HandleOrderCreated(e) => OrderCreatedShows(env, s, w, e);
    case HandleDriverEvent(e) => DriverEventShows(env, s, w, e);
    case HandleExpiredOffers(ids) => ExpirySweepShows(env, s, w, ids);
    case RetryPendingOrders(pending) =>
      RetryListIsReady(s.rows, pending);
      RetrySweepShows(env, s, w, pending);
    case PassTime(ms) => OneAct(w, Tick(ms), Apply(env, s, step));
    case DriversChange(_, _) => ShowsAlready(w, Apply(env, s, step));
  }

  /** Whatever whole handlers and sweeps can make of the table, the interleaved calls can. */
  lemma {:induction false} SerialRunIsAnInterleaving(env: Env, s: State, w: World, steps: seq<DispatchSpec.Step>)
    requires Shows(w, s) && Chain(s.rows) && IsRun(env, s, steps)
    ensures CanShow(w, Run(env, s, steps))
    decreases |steps|
  {
    if |steps| == 0 {
      ShowsAlready(w, s);
    } else {
      var next := Apply(env, s, steps[0]);
      StepShows(env, s, w, steps[0]);
      var moves := StepMoves(env, s, steps[0]);
      MovesKeepChain(env, s, moves);
      var u :| Reaches(w, u) && Shows(u, next);
      SerialRunIsAnInterleaving(env, next, u, steps[1..]);
      ShowOn(w, u, Run(env, s, steps));
    }
  }
}
