/** All handlers at once, interleaved between their database calls. Confirm, reject, complete and
    cancel find a row and later update it by id without looking at its status again; the timeout sweep's
    update is guarded. A rejection or a timeout leaves a re-offer behind: a search of OfferRace that
    runs on its own and asks nothing but the unique index before it inserts. */
module SettleRace {
  import opened Common
  import opened AssignmentTable
  import opened DispatchSpec
  import OfferRace

  datatype Handler =
    | Idle
    | Holding(row: AssignmentId, status: AssignmentStatus)  // has found its row, is about to write the status

  datatype World = World(now: nat, race: OfferRace.World, handlers: seq<Handler>)

  const START := World(0, OfferRace.EMPTY, [])

  datatype Act =
    | Tick(ms: nat)
    | Find(orderId: OrderId, driverId: DriverId, status: AssignmentStatus)  // a driver event arrives
    | Write(handler: nat)
    | TimeOutRow(row: AssignmentId)                     // one turn of the timeout sweep
    | StartOffer(orderId: OrderId)                      // order.created or the retry sweep found the order free
    | Search(step: OfferRace.Step)                      // one database or Redis call of an offer

  /** The status a row must have when a handler that writes this status looks for it. */
  function Needed(status: AssignmentStatus): AssignmentStatus {
    if Final(status) then Confirmed else AssignmentStatus.Offered
  }

  /** The statuses a driver's events write. */
  predicate Answers(status: AssignmentStatus) {
    status.Confirmed? || status.Rejected? || Final(status)
  }

  ghost predicate Enabled(w: World, act: Act) {
    match act
    case Tick(_) => true
    case Find(_, _, status) => Answers(status)
    case Write(k) => k < |w.handlers| && w.handlers[k].Holding? && w.handlers[k].row < |w.race.rows|
    case TimeOutRow(i) => i < |w.race.rows|
    case StartOffer(o) => AllRetriable(w.race.rows, o)
    case Search(step) =>
      && !step.Begin? && !step.SetStatus? && OfferRace.Enabled(w.race, step)
      && (step.Insert? ==> step.expiresAt == w.now + OFFER_TTL_MS)
  }

  /** The row's new status, and the re-offer that a rejection or a timeout goes on to make. */
  function Settled(race: OfferRace.World, i: AssignmentId, status: AssignmentStatus): OfferRace.World
    requires i < |race.rows|
  {
    var written := OfferRace.Next(race, OfferRace.SetStatus(i, status));
    if Retriable(status) then OfferRace.Next(written, OfferRace.Begin(race.rows[i].orderId)) else written
  }

  predicate Lapsed(w: World, i: AssignmentId) {
    i < |w.race.rows| && w.race.rows[i].status.Offered? && w.race.rows[i].expiresAt < w.now
  }

  function Next(w: World, act: Act): World
    requires Enabled(w, act)
  {
    match act
    case Tick(ms) => w.(now := w.now + ms)
    case Find(o, d, status) =>
      var found := FindRow(w.race.rows, o, d, Needed(status));
      if found.None? then w else w.(handlers := w.handlers + [Holding(found.value, status)])
    case Write(k) =>
      var h := w.handlers[k];
      w.(race := Settled(w.race, h.row, h.status), handlers := w.handlers[k := Idle])
    case TimeOutRow(i) => if Lapsed(w, i) then w.(race := Settled(w.race, i, TimedOut)) else w
    case StartOffer(o) => w.(race := OfferRace.Next(w.race, OfferRace.Begin(o)))
    case Search(step) => w.(race := OfferRace.Next(w.race, step))
  }

  ghost predicate Interleaving(w: World, acts: seq<Act>)
    decreases |acts|
  {
    |acts| == 0 || (Enabled(w, acts[0]) && Interleaving(Next(w, acts[0]), acts[1..]))
  }

  ghost function After(w: World, acts: seq<Act>): World
    requires Interleaving(w, acts)
    decreases |acts|
  {
    if |acts| == 0 then w else After(Next(w, acts[0]), acts[1..])
  }

  /* What every interleaving keeps. */

  ghost predicate Sound(w: World) {
    OfferRace.Safe(w.race) && InBounds(w)
  }

  ghost predicate InBounds(w: World) {
    forall k | 0 <= k < |w.handlers| && w.handlers[k].Holding? ::
         w.handlers[k].row < |w.race.rows| && Answers(w.handlers[k].status)
  }

  lemma SettledIsSafe(race: OfferRace.World, i: AssignmentId, status: AssignmentStatus)
    requires OfferRace.Safe(race) && i < |race.rows|
    ensures OfferRace.Safe(Settled(race, i, status))
  {
    OfferRace.NextIsSafe(race, OfferRace.SetStatus(i, status));
    var written := OfferRace.Next(race, OfferRace.SetStatus(i, status));
    OfferRace.NextIsSafe(written, OfferRace.Begin(race.rows[i].orderId));
  }

  lemma NextIsInBounds(w: World, act: Act)
    requires InBounds(w) && Enabled(w, act)
    ensures InBounds(Next(w, act)) && |w.race.rows| <= |Next(w, act).race.rows|
  {
  }

  lemma NextIsSound(w: World, act: Act)
    requires Sound(w) && Enabled(w, act)
    ensures Sound(Next(w, act)) && |w.race.rows| <= |Next(w, act).race.rows|
  {
    NextIsInBounds(w, act);
    match act
    case Write(k) => SettledIsSafe(w.race, w.handlers[k].row, w.handlers[k].status);
    case TimeOutRow(i) => SettledIsSafe(w.race, i, TimedOut);
    case StartOffer(o) => OfferRace.NextIsSafe(w.race, OfferRace.Begin(o));
    case Search(step) => OfferRace.NextIsSafe(w.race, step);
    case _ =>
  }

  lemma {:induction false} InterleavingIsSound(w: World, acts: seq<Act>)
    requires Sound(w) && Interleaving(w, acts)
    ensures Sound(After(w, acts))
    decreases |acts|
  {
    if |acts| > 0 {
      NextIsSound(w, acts[0]);
      InterleavingIsSound(Next(w, acts[0]), acts[1..]);
    }
  }

  /** Attempts 1 to n and distinct drivers survive every interleaving of all the handlers. */
  lemma AttemptsAndDriversSurvive(acts: seq<Act>, o: OrderId)
    requires Interleaving(START, acts)
    ensures var rows := After(START, acts).race.rows;
            && (forall k: nat :: k in Attempts(rows, o) <==> 1 <= k <= Count(rows, o))
            && DistinctDrivers(rows)
  {
    InterleavingIsSound(START, acts);
    AttemptsAreOneToN(After(START, acts).race.rows, o);
  }

  /* What only some keep: all rows of an order but its newest are rejected or timed out. */

  ghost predicate IsNewest(rows: Table, i: AssignmentId)
    requires i < |rows|
  {
    forall j | i < j < |rows| :: rows[j].orderId != rows[i].orderId
  }

  /** The two ways to leave an order with two open rows: to write an open status on a row that is no
      longer its order's newest, and to insert a row while another of its order is open. */
  ghost predicate Breaks(w: World, act: Act)
    requires Enabled(w, act)
  {
    match act
    case Write(k) => !Retriable(w.handlers[k].status) && !IsNewest(w.race.rows, w.handlers[k].row)
    case Search(Insert(k, _, _)) =>
      var p := w.race.searches[k];
      !Taken(w.race.rows, p.orderId, p.attempt) && !AllRetriable(w.race.rows, p.orderId)
    case _ => false
  }

  lemma WriteKeepsOrderIff(rows: Table, i: AssignmentId, status: AssignmentStatus)
    requires OnlyNewestOpen(rows) && i < |rows|
    ensures OnlyNewestOpen(rows[i := rows[i].(status := status)]) <==> Retriable(status) || IsNewest(rows, i)
  {
    var after := rows[i := rows[i].(status := status)];
    if !Retriable(status) && !IsNewest(rows, i) {
      var j :| i < j < |rows| && rows[j].orderId == rows[i].orderId;
      assert after[i].orderId == after[j].orderId && !Retriable(after[i].status);
    }
  }

  lemma InsertKeepsOrderIff(rows: Table, row: Assignment)
    requires OnlyNewestOpen(rows)
    ensures OnlyNewestOpen(rows + [row]) <==> AllRetriable(rows, row.orderId)
  {
    var after := rows + [row];
    if !AllRetriable(rows, row.orderId) {
      var i :| 0 <= i < |rows| && rows[i].orderId == row.orderId && !Retriable(rows[i].status);
      assert after[i].orderId == after[|rows|].orderId && !Retriable(after[i].status);
    }
  }

  /** One act keeps an order's older rows closed exactly when it is neither of the two. */
  lemma ActKeepsOrderIff(w: World, act: Act)
    requires OnlyNewestOpen(w.race.rows) && Enabled(w, act)
    ensures OnlyNewestOpen(Next(w, act).race.rows) <==> !Breaks(w, act)
  {
    var rows := w.race.rows;
    match act
    case Write(k) => WriteKeepsOrderIff(rows, w.handlers[k].row, w.handlers[k].status);
    case TimeOutRow(i) => WriteKeepsOrderIff(rows, i, TimedOut);
    case Search(Insert(k, at, expiresAt)) =>
      var p := w.race.searches[k];
      InsertKeepsOrderIff(rows, Assignment(p.orderId, p.driverId, AssignmentStatus.Offered, p.attempt, at, expiresAt));
    case _ =>
  }

  ghost predicate OrderlyThroughout(w: World, acts: seq<Act>)
    requires Interleaving(w, acts)
    decreases |acts|
  {
    OnlyNewestOpen(w.race.rows) && (|acts| == 0 || OrderlyThroughout(Next(w, acts[0]), acts[1..]))
  }

  ghost predicate NoneBreaks(w: World, acts: seq<Act>)
    requires Interleaving(w, acts)
    decreases |acts|
  {
    |acts| == 0 || (!Breaks(w, acts[0]) && NoneBreaks(Next(w, acts[0]), acts[1..]))
  }

  /** Every order keeps at most one open row throughout an interleaving exactly when none of its acts is
      an open status written on an overtaken row or an insert beside an open row. */
  lemma {:induction false} InterleavingKeepsOrderIff(w: World, acts: seq<Act>)
    requires OnlyNewestOpen(w.race.rows) && Interleaving(w, acts)
    ensures OrderlyThroughout(w, acts) <==> NoneBreaks(w, acts)
    decreases |acts|
  {
    if |acts| > 0 {
      ActKeepsOrderIff(w, acts[0]);
      var next := Next(w, acts[0]);
      if OnlyNewestOpen(next.race.rows) {
        InterleavingKeepsOrderIff(next, acts[1..]);
      } else {
        assert !OrderlyThroughout(next, acts[1..]);
      }
    }
  }

  /* One handler at a time per order is enough. */

  ghost predicate HandlerOn(w: World, k: nat, o: OrderId) {
    && k < |w.handlers| && w.handlers[k].Holding?
    && w.handlers[k].row < |w.race.rows| && w.race.rows[w.handlers[k].row].orderId == o
  }

  ghost predicate SearchOn(w: World, k: nat, o: OrderId) {
    k < |w.race.searches| && !w.race.searches[k].Ended? && w.race.searches[k].orderId == o
  }

  /** At most one handler or search is under way for the order. */
  ghost predicate OneAtWork(w: World, o: OrderId) {
    && (forall j: nat, k: nat | HandlerOn(w, j, o) && HandlerOn(w, k, o) :: j == k)
    && (forall j: nat, k: nat | SearchOn(w, j, o) && SearchOn(w, k, o) :: j == k)
    && (forall j: nat, k: nat :: !(HandlerOn(w, j, o) && SearchOn(w, k, o)))
  }

  ghost predicate OneAtATime(w: World, acts: seq<Act>)
    requires Interleaving(w, acts)
    decreases |acts|
  {
    (forall o :: OneAtWork(w, o)) && (|acts| == 0 || OneAtATime(Next(w, acts[0]), acts[1..]))
  }

  /** A held row still awaits its handler, and an order being offered is free. */
  ghost predicate Undisturbed(w: World) {
    && (forall k: nat, o | HandlerOn(w, k, o) :: w.race.rows[w.handlers[k].row].status == Needed(w.handlers[k].status))
    && (forall k: nat, o | SearchOn(w, k, o) :: AllRetriable(w.race.rows, o))
  }

  /** Closing the open row of an order frees the order. */
  lemma ClosingFrees(rows: Table, i: AssignmentId, status: AssignmentStatus)
    requires OnlyNewestOpen(rows) && i < |rows| && !Retriable(rows[i].status) && Retriable(status)
    ensures AllRetriable(rows[i := rows[i].(status := status)], rows[i].orderId)
  {
    OpenRowIsNewest(rows, i);
  }

  /** The row a handler settles was open, so it is the newest, and nobody else is at work on its order. */
  lemma SettlingIsUndisturbed(w: World, i: AssignmentId, status: AssignmentStatus, handlers: seq<Handler>)
    requires OnlyNewestOpen(w.race.rows) && Undisturbed(w) && i < |w.race.rows| && !Retriable(w.race.rows[i].status)
    requires |handlers| == |w.handlers|
    requires forall k | 0 <= k < |handlers| :: handlers[k].Idle? || handlers[k] == w.handlers[k]
    requires forall k | 0 <= k < |handlers| && HandlerOn(w, k, w.race.rows[i].orderId) :: handlers[k].Idle?
    ensures Undisturbed(w.(race := Settled(w.race, i, status), handlers := handlers))
  {
    var o, rows := w.race.rows[i].orderId, w.race.rows;
    var after := w.(race := Settled(w.race, i, status), handlers := handlers);
    assert after.race.rows == rows[i := rows[i].(status := status)];
    forall k: nat, p | HandlerOn(after, k, p)
      ensures after.race.rows[handlers[k].row].status == Needed(handlers[k].status)
    {
      assert HandlerOn(w, k, p);
    }
    if Retriable(status) {
      ClosingFrees(rows, i, status);
    }
    forall k: nat, p | SearchOn(after, k, p) ensures AllRetriable(after.race.rows, p) {
      if k < |w.race.searches| {
        assert SearchOn(w, k, p);
      }
    }
  }

  lemma InsertIsUndisturbed(w: World, k: nat, at: Point)
    requires Undisturbed(w) && k < |w.race.searches| && w.race.searches[k].Locked?
    requires OneAtWork(w, w.race.searches[k].orderId) && InBounds(w)
    ensures Undisturbed(Next(w, Search(OfferRace.Insert(k, at, w.now + OFFER_TTL_MS))))
  {
    var after := Next(w, Search(OfferRace.Insert(k, at, w.now + OFFER_TTL_MS)));
    var mine := w.race.searches[k].orderId;
    assert SearchOn(w, k, mine);
    forall j: nat, o | HandlerOn(after, j, o)
      ensures after.race.rows[after.handlers[j].row].status == Needed(after.handlers[j].status)
    {
      assert HandlerOn(w, j, o);
    }
    forall j: nat, o | SearchOn(after, j, o) ensures AllRetriable(after.race.rows, o) {
      assert SearchOn(w, j, o) && j != k;
    }
  }

  lemma WriteIsUndisturbed(w: World, k: nat)
    requires OnlyNewestOpen(w.race.rows) && Undisturbed(w) && Enabled(w, Write(k))
    requires OneAtWork(w, w.race.rows[w.handlers[k].row].orderId)
    ensures Undisturbed(Next(w, Write(k))) && !Breaks(w, Write(k))
  {
    var h := w.handlers[k];
    assert HandlerOn(w, k, w.race.rows[h.row].orderId);
    OpenRowIsNewest(w.race.rows, h.row);
    SettlingIsUndisturbed(w, h.row, h.status, w.handlers[k := Idle]);
  }

  lemma TimeOutIsUndisturbed(w: World, i: AssignmentId)
    requires OnlyNewestOpen(w.race.rows) && Undisturbed(w) && Lapsed(w, i)
    requires OneAtWork(Next(w, TimeOutRow(i)), w.race.rows[i].orderId)
    ensures Undisturbed(Next(w, TimeOutRow(i)))
  {
    var after, o := Next(w, TimeOutRow(i)), w.race.rows[i].orderId;
    assert SearchOn(after, |w.race.searches|, o);
    forall k: nat | HandlerOn(w, k, o) ensures false {
      assert HandlerOn(after, k, o);
    }
    SettlingIsUndisturbed(w, i, TimedOut, w.handlers);
  }

  /** A search that reads or gives up stays on its order or ends. */
  lemma ReadingIsUndisturbed(w: World, step: OfferRace.Step)
    requires Undisturbed(w) && Enabled(w, Search(step)) && !step.Insert?
    ensures Undisturbed(Next(w, Search(step)))
  {
    var after := Next(w, Search(step));
    forall k: nat, o | HandlerOn(after, k, o)
      ensures after.race.rows[after.handlers[k].row].status == Needed(after.handlers[k].status)
    {
      assert HandlerOn(w, k, o);
    }
    forall k: nat, o | SearchOn(after, k, o) ensures AllRetriable(after.race.rows, o) {
      assert SearchOn(w, k, o);
    }
  }

  lemma ArrivalIsUndisturbed(w: World, act: Act)
    requires Undisturbed(w) && Enabled(w, act) && (act.Tick? || act.Find? || act.StartOffer?)
    ensures Undisturbed(Next(w, act))
  {
    var after := Next(w, act);
    forall k: nat, o | HandlerOn(after, k, o)
      ensures after.race.rows[after.handlers[k].row].status == Needed(after.handlers[k].status)
    {
      assert k < |w.handlers| ==> HandlerOn(w, k, o);
    }
    forall k: nat, o | SearchOn(after, k, o) ensures AllRetriable(after.race.rows, o) {
      assert k < |w.race.searches| ==> SearchOn(w, k, o);
    }
  }

  lemma ActIsUndisturbed(w: World, act: Act)
    requires InBounds(w) && OnlyNewestOpen(w.race.rows) && Undisturbed(w) && Enabled(w, act)
    requires forall o :: OneAtWork(w, o)
    requires forall o :: OneAtWork(Next(w, act), o)
    ensures Undisturbed(Next(w, act)) && !Breaks(w, act)
  {
    match act
    case Write(k) => WriteIsUndisturbed(w, k);
    case TimeOutRow(i) => if Lapsed(w, i) { TimeOutIsUndisturbed(w, i); }
    case Search(Insert(k, at, _)) =>
      assert SearchOn(w, k, w.race.searches[k].orderId);
      InsertIsUndisturbed(w, k, at);
    case Search(step) => ReadingIsUndisturbed(w, step);
    case _ => ArrivalIsUndisturbed(w, act);
  }

  /** It is enough that each order is handled by one handler or search at a time: then every order keeps at
      most one open row throughout, whatever the handlers of different orders do meanwhile. */
  lemma {:induction false} OneAtATimeIsOrderly(w: World, acts: seq<Act>)
    requires Sound(w) && OnlyNewestOpen(w.race.rows) && Undisturbed(w)
    requires Interleaving(w, acts) && OneAtATime(w, acts)
    ensures OrderlyThroughout(w, acts) && NoneBreaks(w, acts)
    decreases |acts|
  {
    if |acts| > 0 {
      var next := Next(w, acts[0]);
      assert OneAtATime(next, acts[1..]);
      ActIsUndisturbed(w, acts[0]);
      ActKeepsOrderIff(w, acts[0]);
      NextIsSound(w, acts[0]);
      OneAtATimeIsOrderly(next, acts[1..]);
    }
  }
}
