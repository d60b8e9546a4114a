/** Any number of offer searches running at once, interleaved between database and Redis calls.

    One search reads the order's last attempt, then reads the drivers already tried, then
    locks some untried driver and inserts the next row; the unique index on (orderId, attempt)
    may refuse the row. Nothing is assumed of the candidates, the driver statuses or the locks:
    a search may pick any driver it believes untried, at any time, or give up. */
module OfferRace {
  import opened Common
  import opened AssignmentTable

  datatype Search =
    | Begun(orderId: OrderId)
    | Numbering(orderId: OrderId, attempt: nat)
    | Scanning(orderId: OrderId, attempt: nat, tried: set<DriverId>)
    | Locked(orderId: OrderId, attempt: nat, tried: set<DriverId>, driverId: DriverId)
    | Ended

  datatype World = World(rows: Table, searches: seq<Search>)

  const EMPTY := World([], [])

  datatype Step =
    | Begin(orderId: OrderId)
    | ReadLastAttempt(search: nat)
    | ReadTriedDrivers(search: nat)
    | LockDriver(search: nat, driverId: DriverId)
    | Insert(search: nat, pickup: Point, expiresAt: nat)
    | GiveUp(search: nat)
    | SetStatus(row: nat, status: AssignmentStatus)  // any other handler, at any moment

  predicate Enabled(w: World, step: Step) {
    match step
    case Begin(_) => true
    case ReadLastAttempt(k) => k < |w.searches| && w.searches[k].Begun?
    case ReadTriedDrivers(k) => k < |w.searches| && w.searches[k].Numbering?
    case LockDriver(k, d) => k < |w.searches| && w.searches[k].Scanning? && d !in w.searches[k].tried
    case Insert(k, _, _) => k < |w.searches| && w.searches[k].Locked?
    case GiveUp(k) => k < |w.searches|
    case SetStatus(i, _) => i < |w.rows|
  }

  function Next(w: World, step: Step): World
    requires Enabled(w, step)
  {
    match step
    case Begin(o) => w.(searches := w.searches + [Begun(o)])
    case ReadLastAttempt(k) =>
      var o := w.searches[k].orderId;
      w.(searches := w.searches[k := Numbering(o, LastAttempt(w.rows, o) + 1)])
    case ReadTriedDrivers(k) =>
      var p := w.searches[k];
      w.(searches := w.searches[k := Scanning(p.orderId, p.attempt, TriedDrivers(w.rows, p.orderId))])
    case LockDriver(k, d) =>
      var p := w.searches[k];
      w.(searches := w.searches[k := Locked(p.orderId, p.attempt, p.tried, d)])
    case Insert(k, at, expiresAt) =>
      var p := w.searches[k];
      var ended := w.(searches := w.searches[k := Ended]);
      if Taken(w.rows, p.orderId, p.attempt) then ended
      else
        ended.(rows := w.rows + [Assignment(p.orderId, p.driverId, AssignmentStatus.Offered, p.attempt, at, expiresAt)])
    case GiveUp(k) => w.(searches := w.searches[k := Ended])
    case SetStatus(i, status) => w.(rows := w.rows[i := w.rows[i].(status := status)])
  }

  /** A search either has a stale attempt number, which the index will refuse,
      or knows exactly the drivers its order has been offered to. */
  ghost predicate SearchOk(rows: Table, p: Search) {
    && (p.Numbering? || p.Scanning? || p.Locked? ==> 1 <= p.attempt <= Count(rows, p.orderId) + 1)
    && ((p.Scanning? || p.Locked?) && p.attempt == Count(rows, p.orderId) + 1 ==> p.tried == TriedDrivers(rows, p.orderId))
    && (p.Locked? ==> p.driverId !in p.tried)
  }

  ghost predicate Safe(w: World) {
    && Numbered(w.rows) && DistinctDrivers(w.rows)
    && forall k | 0 <= k < |w.searches| :: SearchOk(w.rows, w.searches[k])
  }

  lemma SearchSurvivesInsert(rows: Table, row: Assignment, p: Search)
    requires SearchOk(rows, p)
    ensures SearchOk(rows + [row], p)
  {
    if !p.Begun? && !p.Ended? {
      var after := rows + [row];
      assert after[..|rows|] == rows;
      assert Count(after, p.orderId) == Count(rows, p.orderId) + if row.orderId == p.orderId then 1 else 0;
      TriedAfterAppend(rows, row, p.orderId);
    }
  }

  lemma SearchSurvivesStatus(rows: Table, i: nat, status: AssignmentStatus, p: Search)
    requires SearchOk(rows, p) && i < |rows|
    ensures SearchOk(rows[i := rows[i].(status := status)], p)
  {
    if !p.Begun? && !p.Ended? {
      var after := rows[i := rows[i].(status := status)];
      CountDependsOnOrders(after, rows, p.orderId);
      assert TriedDrivers(after, p.orderId) == TriedDrivers(rows, p.orderId) by {
        assert forall j | 0 <= j < |rows| :: after[j].orderId == rows[j].orderId && after[j].driverId == rows[j].driverId;
        forall d ensures d in TriedDrivers(after, p.orderId) <==> d in TriedDrivers(rows, p.orderId) {
          if j :| 0 <= j < |rows| && rows[j].orderId == p.orderId && rows[j].driverId == d {
            assert after[j].orderId == p.orderId;
          }
        }
      }
    }
  }

  /** A search that passes the unique index offers to a driver its order has not had. */
  lemma FreeAttemptMeansFreshDriver(rows: Table, p: Search)
    requires Numbered(rows) && p.Locked? && SearchOk(rows, p)
    requires !Taken(rows, p.orderId, p.attempt)
    ensures p.attempt == Count(rows, p.orderId) + 1
    ensures p.driverId !in TriedDrivers(rows, p.orderId)
  {
    AttemptsAreOneToN(rows, p.orderId);
    assert p.attempt in Attempts(rows, p.orderId) <==> p.attempt <= Count(rows, p.orderId);
  }

  lemma FreshDriverStaysDistinct(rows: Table, row: Assignment)
    requires DistinctDrivers(rows) && row.driverId !in TriedDrivers(rows, row.orderId)
    ensures DistinctDrivers(rows + [row])
  {
  }

  lemma InsertIsSafe(w: World, k: nat, at: Point, expiresAt: nat)
    requires Safe(w) && k < |w.searches| && w.searches[k].Locked?
    ensures Safe(Next(w, Insert(k, at, expiresAt)))
  {
    var p := w.searches[k];
    if !Taken(w.rows, p.orderId, p.attempt) {
      FreeAttemptMeansFreshDriver(w.rows, p);
      var row := Assignment(p.orderId, p.driverId, AssignmentStatus.Offered, p.attempt, at, expiresAt);
      AppendKeepsNumbered(w.rows, row);
      FreshDriverStaysDistinct(w.rows, row);
      forall j | 0 <= j < |w.searches| ensures SearchOk(w.rows + [row], w.searches[j]) {
        SearchSurvivesInsert(w.rows, row, w.searches[j]);
      }
    }
  }

  lemma NextIsSafe(w: World, step: Step)
    requires Safe(w) && Enabled(w, step)
    ensures Safe(Next(w, step))
  {
    match step
    case Begin(_) =>
    case ReadLastAttempt(k) => LastAttemptIsCount(w.rows, w.searches[k].orderId);
    case ReadTriedDrivers(k) =>
    case LockDriver(k, d) =>
    case Insert(k, at, expiresAt) => InsertIsSafe(w, k, at, expiresAt);
    case GiveUp(k) =>
    case SetStatus(i, status) =>
      StatusKeepsNumbered(w.rows, i, status);
      forall k | 0 <= k < |w.searches|
        ensures SearchOk(w.rows[i := w.rows[i].(status := status)], w.searches[k])
      {
        SearchSurvivesStatus(w.rows, i, status, w.searches[k]);
      }
  }

  ghost predicate Interleaving(w: World, steps: seq<Step>)
    decreases |steps|
  {
    |steps| == 0 || (Enabled(w, steps[0]) && Interleaving(Next(w, steps[0]), steps[1..]))
  }

  ghost function After(w: World, steps: seq<Step>): World
    requires Interleaving(w, steps)
    decreases |steps|
  {
    if |steps| == 0 then w else After(Next(w, steps[0]), steps[1..])
  }

  lemma StepFirst(w: World, step: Step, rest: seq<Step>)
    requires Enabled(w, step) && Interleaving(Next(w, step), rest)
    ensures Interleaving(w, [step] + rest) && After(w, [step] + rest) == After(Next(w, step), rest)
  {
    assert ([step] + rest)[1..] == rest;
  }

  lemma {:induction false} InterleavingIsSafe(w: World, steps: seq<Step>)
    requires Safe(w) && Interleaving(w, steps)
    ensures Safe(After(w, steps))
    decreases |steps|
  {
    if |steps| > 0 {
      NextIsSafe(w, steps[0]);
      InterleavingIsSafe(Next(w, steps[0]), steps[1..]);
    }
  }

  /** However any number of searches interleave, an order's rows are numbered 1 to n without
      gap or repeat and no driver appears twice, so it has at most one row per driver. */
  lemma {:induction false} ConcurrentOffersNeverRepeat(steps: seq<Step>, o: OrderId, drivers: set<DriverId>)
    requires Interleaving(EMPTY, steps)
    ensures var rows := After(EMPTY, steps).rows;
            && (forall k: nat :: k in Attempts(rows, o) <==> 1 <= k <= Count(rows, o))
            && (forall i, j | 0 <= i < j < |rows| && rows[i].orderId == o && rows[j].orderId == o ::
                  rows[i].attempt < rows[j].attempt && rows[i].driverId != rows[j].driverId)
            && (TriedDrivers(rows, o) <= drivers ==> Count(rows, o) <= |drivers|)
  {
    InterleavingIsSafe(EMPTY, steps);
    var rows := After(EMPTY, steps).rows;
    AttemptsAreOneToN(rows, o);
    forall i, j | 0 <= i < j < |rows| && rows[i].orderId == o && rows[j].orderId == o
      ensures rows[i].attempt < rows[j].attempt
    {
      AttemptsIncrease(rows, i, j);
    }
    if TriedDrivers(rows, o) <= drivers {
      OffersBoundedByDrivers(rows, o, drivers);
    }
  }
}
