/** What the two cron sweeps of the dispatch service do as a whole. */
module Sweeps {
  import opened Common
  import opened AssignmentTable
  import opened DispatchSpec
  import opened DispatchMoves

  /* The timeout sweep. */

  /** How many times the timeout of a row was announced. */
  function Timeouts(log: seq<DispatchEvent>, i: AssignmentId): nat {
    if |log| == 0 then 0
    else
      var last := log[|log| - 1];
      Timeouts(log[..|log| - 1], i) + if last.eventType.AssignmentTimeout? && last.assignmentId == i then 1 else 0
  }

  lemma TimeoutsAppend(log: seq<DispatchEvent>, e: DispatchEvent, i: AssignmentId)
    ensures Timeouts(log + [e], i) ==
            Timeouts(log, i) + if e.eventType.AssignmentTimeout? && e.assignmentId == i then 1 else 0
  {
    assert (log + [e])[..|log|] == log;
  }

  /** From `before` to `after` exactly these rows were timed out, and exactly these announced. */
  ghost predicate TimesOut(before: State, after: State, ids: set<AssignmentId>, announced: set<AssignmentId>) {
    && after.now == before.now
    && |before.rows| <= |after.rows|
    && (forall i | 0 <= i < |before.rows| ::
          after.rows[i] == if i in ids then before.rows[i].(status := TimedOut) else before.rows[i])
    && (forall i | |before.rows| <= i < |after.rows| ::
          after.rows[i].status.Offered? && after.rows[i].expiresAt == before.now + OFFER_TTL_MS)
    && (forall i :: Timeouts(after.log, i) == Timeouts(before.log, i) + if i in announced then 1 else 0)
  }

  /** The orders of these rows gained at most one row each, the others none. */
  ghost predicate GainsAtMostOne(before: Table, after: Table, ids: set<AssignmentId>) {
    forall o :: Count(after, o) <= Count(before, o) + if Touches(before, ids, o) then 1 else 0
  }

  ghost predicate Touches(rows: Table, ids: set<AssignmentId>, o: OrderId) {
    exists i | i in ids :: i < |rows| && rows[i].orderId == o
  }

  /** One turn of the sweep: the row is timed out and, unless that emit fails, announced; then its order
      may get a new offer, announced unless that emit fails. */
  lemma TimeOutWrites(env: Env, s: State, i: AssignmentId)
    returns (offer: seq<Assignment>, events: seq<DispatchEvent>)
    requires i < |s.rows| && s.rows[i].status.Offered?
    ensures var r := TimeOut(env, s, i);
            && r.s.now == s.now
            && r.s.rows == s.rows[i := s.rows[i].(status := TimedOut)] + offer
            && r.s.log == s.log + (if env.emitOk(s.emits) then [RowEvent(s.rows, i, AssignmentTimeout)] else []) + events
            && (!env.emitOk(s.emits) ==> r.threw)
    ensures |offer| <= 1 && |events| <= 1
    ensures forall row | row in offer ::
              row.orderId == s.rows[i].orderId && row.status.Offered? && row.expiresAt == s.now + OFFER_TTL_MS
    ensures forall e | e in events :: e.eventType.AssignmentOffered?
  {
    var o, at := s.rows[i].orderId, s.rows[i].pickup;
    var sent := SettleRow(env, s, i, TimedOut).s;
    SettleWrites(env, s, i, TimedOut);
    offer, events := [], [];
    if env.emitOk(s.emits) {
      match FirstEligible(sent, TriedDrivers(sent.rows, o), Candidates(env, sent.geo, sent.geo, at))
      case None =>
      case Some(d) =>
        InsertWrites(env, sent, o, at, d);
        NextAttemptIsFree(sent.rows, o);
        offer := [OfferTo(env, sent, o, at, d).s.rows[|s.rows|]];
        if env.emitOk(sent.emits) {
          events := [DispatchEvent(AssignmentOffered, o, d, |sent.rows|, LastAttempt(sent.rows, o) + 1)];
        }
    }
  }

  lemma OneTimeOutGains(env: Env, s: State, i: AssignmentId)
    requires i < |s.rows| && s.rows[i].status.Offered?
    ensures GainsAtMostOne(s.rows, TimeOut(env, s, i).s.rows, {i})
  {
    var offer, events := TimeOutWrites(env, s, i);
    RowsGain(s.rows, i, offer);
  }

  lemma RowsGain(rows: Table, i: AssignmentId, offer: seq<Assignment>)
    requires i < |rows| && |offer| <= 1 && forall row | row in offer :: row.orderId == rows[i].orderId
    ensures GainsAtMostOne(rows, rows[i := rows[i].(status := TimedOut)] + offer, {i})
  {
    var updated := rows[i := rows[i].(status := TimedOut)];
    var after := updated + offer;
    assert i in {i} && Touches(rows, {i}, rows[i].orderId);
    forall p ensures Count(after, p) <= Count(rows, p) + if Touches(rows, {i}, p) then 1 else 0 {
      CountDependsOnOrders(rows, updated, p);
      if |offer| == 1 {
        assert after[..|updated|] == updated && offer[0] in offer;
      } else {
        assert after == updated;
      }
    }
  }

  lemma OneTimeOutAnnounces(log: seq<DispatchEvent>, first: seq<DispatchEvent>, events: seq<DispatchEvent>,
                            j: AssignmentId)
    requires |first| <= 1 && |events| <= 1
    requires forall e | e in first :: e.eventType.AssignmentTimeout?
    requires forall e | e in events :: e.eventType.AssignmentOffered?
    ensures Timeouts(log + first + events, j) ==
            Timeouts(log, j) + if |first| == 1 && j == first[0].assignmentId then 1 else 0
  {
    if |first| == 1 {
      assert first == [first[0]] && first[0] in first;
      TimeoutsAppend(log, first[0], j);
    } else {
      assert log + first == log;
    }
    if |events| == 1 {
      assert events == [events[0]] && events[0] in events;
      TimeoutsAppend(log + first, events[0], j);
    } else {
      assert log + first + events == log + first;
    }
  }

  lemma RowTimesOut(s: State, after: State, i: AssignmentId,
                    offer: seq<Assignment>, first: seq<DispatchEvent>, events: seq<DispatchEvent>)
    requires i < |s.rows| && after.now == s.now && |first| <= 1 && |events| <= 1
    requires after.rows == s.rows[i := s.rows[i].(status := TimedOut)] + offer
    requires after.log == s.log + first + events
    requires forall row | row in offer :: row.status.Offered? && row.expiresAt == s.now + OFFER_TTL_MS
    requires forall e | e in first :: e.eventType.AssignmentTimeout? && e.assignmentId == i
    requires forall e | e in events :: e.eventType.AssignmentOffered?
    ensures TimesOut(s, after, {i}, if |first| == 1 then {i} else {})
  {
    forall j ensures Timeouts(after.log, j) == Timeouts(s.log, j) + if |first| == 1 && j == i then 1 else 0 {
      OneTimeOutAnnounces(s.log, first, events, j);
      assert |first| == 1 ==> first[0] in first;
    }
    forall j | |s.rows| <= j < |after.rows|
      ensures after.rows[j].status.Offered? && after.rows[j].expiresAt == s.now + OFFER_TTL_MS
    {
      assert after.rows[j] == offer[j - |s.rows|] && after.rows[j] in offer;
    }
  }

  lemma OneTimeOut(env: Env, s: State, i: AssignmentId)
    requires i < |s.rows| && s.rows[i].status.Offered?
    ensures TimesOut(s, TimeOut(env, s, i).s, {i}, if env.emitOk(s.emits) then {i} else {})
    ensures !env.emitOk(s.emits) ==> TimeOut(env, s, i).threw
  {
    var offer, events := TimeOutWrites(env, s, i);
    var first := if env.emitOk(s.emits) then [RowEvent(s.rows, i, AssignmentTimeout)] else [];
    RowTimesOut(s, TimeOut(env, s, i).s, i, offer, first, events);
  }

  ghost predicate AllExpired(s: State, ids: seq<AssignmentId>) {
    NoDuplicates(ids) && forall i | i in ids :: Expired(s, i)
  }

  function IdSet(ids: seq<AssignmentId>): set<AssignmentId> {
    set i | i in ids
  }

  lemma GainsJoin(a: Table, b: Table, c: Table, i: AssignmentId, rest: set<AssignmentId>)
    requires GainsAtMostOne(a, b, {i}) && GainsAtMostOne(b, c, rest) && Evolves(a, b)
    requires i < |a| && i !in rest && Chain(a) && a[i].status.Offered?
    requires forall j | j in rest :: j < |a| && a[j].status.Offered?
    ensures GainsAtMostOne(a, c, {i} + rest)
  {
    forall o ensures Count(c, o) <= Count(a, o) + if Touches(a, {i} + rest, o) then 1 else 0 {
      if Touches(b, rest, o) {
        var j :| j in rest && j < |b| && b[j].orderId == o;
        assert a[j].orderId == o && j in {i} + rest;
        assert a[i].orderId != o by {
          if a[i].orderId == o { OneActiveRow(a, i, j); }
        }
        assert !Touches(a, {i}, o);
        assert Touches(a, {i} + rest, o);
      } else if Touches(a, {i}, o) {
        assert i in {i} + rest;
        assert Touches(a, {i} + rest, o);
      }
    }
  }

  lemma TimesOutJoin(a: State, b: State, c: State, i: AssignmentId, rest: set<AssignmentId>, told: set<AssignmentId>)
    requires TimesOut(a, b, {i}, {i}) && TimesOut(b, c, rest, told)
    requires i !in rest && i !in told && forall j | j in rest :: j < |a.rows|
    ensures TimesOut(a, c, {i} + rest, {i} + told)
  {
    forall j | |a.rows| <= j < |c.rows|
      ensures c.rows[j].status.Offered? && c.rows[j].expiresAt == a.now + OFFER_TTL_MS
    {
      if j < |b.rows| { assert c.rows[j] == b.rows[j]; }
    }
  }

  lemma RestStillExpired(s: State, next: State, ids: seq<AssignmentId>)
    requires |ids| > 0 && AllExpired(s, ids) && TimesOut(s, next, {ids[0]}, {ids[0]})
    ensures AllExpired(next, ids[1..]) && AllExpired(s, ids[1..]) && ids[0] !in ids[1..]
  {
    var i, rest := ids[0], ids[1..];
    forall j | j in rest ensures Expired(s, j) && Expired(next, j) && j != i {
      var k :| 0 <= k < |rest| && rest[k] == j;
      assert ids[k + 1] == j && j in ids;
      assert next.rows[j] == s.rows[j];
    }
  }

  lemma IdSetFirst(ids: seq<AssignmentId>, n: nat)
    requires 0 < n <= |ids|
    ensures IdSet(ids[..n]) == {ids[0]} + IdSet(ids[1..][..n - 1])
  {
    assert ids[..n] == [ids[0]] + ids[1..][..n - 1];
  }

  lemma NoneAndFirst(ids: seq<AssignmentId>)
    ensures IdSet(ids[..0]) == {} && (|ids| > 0 ==> IdSet(ids[..1]) == {ids[0]})
  {
    assert |ids| > 0 ==> ids[..1] == [ids[0]];
  }

  lemma TurnKeepsChain(env: Env, s: State, i: AssignmentId)
    requires Chain(s.rows) && Expired(s, i)
    ensures Chain(TimeOut(env, s, i).s.rows) && Evolves(s.rows, TimeOut(env, s, i).s.rows)
  {
    var moves := TimeOutMoves(env, s, i);
    MovesKeepChain(env, s, moves);
  }

  /** When an offer is made drivers only become harder to offer to: rows and locks are only added. */
  ghost predicate Tightens(before: State, after: State) {
    && after.now == before.now && after.statuses == before.statuses && after.geo == before.geo
    && before.rows <= after.rows
    && forall d | LockHeld(before, d) :: LockHeld(after, d)
  }

  lemma OfferTightens(env: Env, s: State, o: OrderId, at: Point)
    ensures var r := Offer(env, s, o, at);
            && Tightens(s, r.s)
            && (r.threw ==> |r.s.rows| > |s.rows|)
            && (|r.s.rows| > |s.rows| ==> r.s.rows[|s.rows|].orderId == o && r.s.rows[|s.rows|].status.Offered?)
            && (|r.s.rows| == |s.rows| ==>
                  && r.s == s
                  && forall d | d in Candidates(env, s.geo, s.geo, at) :: !Eligible(s, TriedDrivers(s.rows, o), d))
  {
    var tried, candidates := TriedDrivers(s.rows, o), Candidates(env, s.geo, s.geo, at);
    FirstEligibleIsEligible(s, tried, candidates);
    match FirstEligible(s, tried, candidates)
    case None =>
    case Some(d) =>
      InsertWrites(env, s, o, at, d);
      NextAttemptIsFree(s.rows, o);
  }

  /* The timeout sweep offers the orders again. */

  /** Rows keep order, driver and pickup, and a lock goes only with the drivers freed. */
  ghost predicate Loosens(before: State, after: State, freed: set<DriverId>) {
    && after.now == before.now && after.statuses == before.statuses && after.geo == before.geo
    && |before.rows| <= |after.rows|
    && (forall i | 0 <= i < |before.rows| :: after.rows[i] == before.rows[i].(status := after.rows[i].status))
    && (forall d | LockHeld(before, d) && d !in freed :: LockHeld(after, d))
  }

  lemma LoosensOn(a: State, b: State, c: State, freed1: set<DriverId>, freed2: set<DriverId>)
    requires Loosens(a, b, freed1) && Loosens(b, c, freed2)
    ensures Loosens(a, c, freed1 + freed2)
  {
    forall i | 0 <= i < |a.rows| ensures c.rows[i] == a.rows[i].(status := c.rows[i].status) {
      assert b.rows[i] == a.rows[i].(status := b.rows[i].status);
    }
  }

  function DriversOf(rows: Table, ids: seq<AssignmentId>): set<DriverId> {
    set i | i in ids && i < |rows| :: rows[i].driverId
  }

  /** The order got a new offer at the row's pickup since, or no candidate can take one even now, save drivers
      whose locks the sweep deleted afterwards. */
  ghost predicate Reoffered(env: Env, before: nat, after: State, row: Assignment, freed: set<DriverId>) {
    || (exists k | before <= k < |after.rows| :: ReoffersRow(row, after.rows[k]))
    || (forall d | d in Candidates(env, after.geo, after.geo, row.pickup) && d !in freed ::
          !Eligible(after, TriedDrivers(after.rows, row.orderId), d))
  }

  predicate ReoffersRow(row: Assignment, offer: Assignment) {
    offer.orderId == row.orderId && offer.pickup == row.pickup && offer.status.Offered?
  }

  lemma TurnLoosens(env: Env, s: State, i: AssignmentId)
    requires i < |s.rows| && s.rows[i].status.Offered?
    ensures Loosens(s, TimeOut(env, s, i).s, {s.rows[i].driverId})
  {
    SettleWrites(env, s, i, TimedOut);
    var settled := SettleRow(env, s, i, TimedOut).s;
    assert Loosens(s, settled, {s.rows[i].driverId});
    OfferTightens(env, settled, s.rows[i].orderId, s.rows[i].pickup);
  }

  /** One turn of the sweep whose announcement was sent. */
  lemma TurnReoffers(env: Env, s: State, i: AssignmentId)
    requires i < |s.rows| && s.rows[i].status.Offered? && env.emitOk(s.emits)
    ensures Reoffered(env, |s.rows|, TimeOut(env, s, i).s, s.rows[i], {})
  {
    var settled, row := SettleRow(env, s, i, TimedOut).s, s.rows[i];
    SettleWrites(env, s, i, TimedOut);
    OfferTightens(env, settled, row.orderId, row.pickup);
    var after := TimeOut(env, s, i).s;
    assert after == Offer(env, settled, row.orderId, row.pickup).s;
    if |after.rows| > |s.rows| {
      assert ReoffersRow(row, after.rows[|s.rows|]);
    }
  }

  lemma LoosensTried(before: State, after: State, freed: set<DriverId>, o: OrderId, d: DriverId)
    requires Loosens(before, after, freed) && d !in freed && !Eligible(before, TriedDrivers(before.rows, o), d)
    ensures !Eligible(after, TriedDrivers(after.rows, o), d)
  {
    if d in TriedDrivers(before.rows, o) {
      var i :| 0 <= i < |before.rows| && before.rows[i].orderId == o && before.rows[i].driverId == d;
      assert after.rows[i] == before.rows[i].(status := after.rows[i].status);
    }
  }

  lemma ReofferedStays(env: Env, before: nat, next: State, last: State, row: Assignment, freed: set<DriverId>)
    requires Reoffered(env, before, next, row, {}) && Loosens(next, last, freed)
    requires forall k | before <= k < |next.rows| :: last.rows[k] == next.rows[k]
    ensures Reoffered(env, before, last, row, freed)
  {
    if k :| before <= k < |next.rows| && ReoffersRow(row, next.rows[k]) {
      assert ReoffersRow(row, last.rows[k]);
    } else {
      forall d | d in Candidates(env, last.geo, last.geo, row.pickup) && d !in freed
        ensures !Eligible(last, TriedDrivers(last.rows, row.orderId), d)
      {
        LoosensTried(next, last, freed, row.orderId, d);
      }
    }
  }

  lemma {:induction false} SweepLoosens(env: Env, s: State, ids: seq<AssignmentId>)
    requires forall i | i in ids :: i < |s.rows|
    ensures Loosens(s, ExpirySweep(env, s, ids).s, DriversOf(s.rows, ids))
    decreases |ids|
  {
    if |ids| > 0 {
      var i, rest := ids[0], ids[1..];
      assert i in ids && forall j | j in rest :: j in ids;
      var next := TimeOut(env, s, i).s;
      if s.rows[i].status.Offered? {
        TurnLoosens(env, s, i);
      }
      assert Loosens(s, next, {s.rows[i].driverId});
      if !TimeOut(env, s, i).threw {
        SweepLoosens(env, next, rest);
        LoosensOn(s, next, ExpirySweep(env, next, rest).s, {s.rows[i].driverId}, DriversOf(next.rows, rest));
      }
      FreedGrows(s, next, ids);
    }
  }

  lemma FreedGrows(s: State, next: State, ids: seq<AssignmentId>)
    requires |ids| > 0 && |s.rows| <= |next.rows| && ids[0] < |s.rows| && forall i | i in ids :: i < |s.rows|
    requires forall i | 0 <= i < |s.rows| :: next.rows[i].driverId == s.rows[i].driverId
    ensures {s.rows[ids[0]].driverId} + DriversOf(next.rows, ids[1..]) <= DriversOf(s.rows, ids)
  {
    assert ids[0] in ids && forall j | j in ids[1..] :: j in ids;
    forall d | d in DriversOf(next.rows, ids[1..]) ensures d in DriversOf(s.rows, ids) {
      var j :| j in ids[1..] && j < |next.rows| && next.rows[j].driverId == d;
      assert j in ids;
      assert s.rows[j].driverId == d;
    }
  }

  lemma SameDriversOf(rows: Table, later: Table, ids: seq<AssignmentId>)
    requires (forall i | i in ids :: i < |rows|) && |rows| <= |later|
    requires forall i | 0 <= i < |rows| :: later[i].driverId == rows[i].driverId
    ensures DriversOf(later, ids) == DriversOf(rows, ids)
  {
  }

  lemma {:induction false} SweepKeepsOthers(env: Env, s: State, ids: seq<AssignmentId>, j: AssignmentId)
    requires j < |s.rows| && j !in ids
    ensures var last := ExpirySweep(env, s, ids).s; j < |last.rows| && last.rows[j] == s.rows[j]
    decreases |ids|
  {
    if |ids| > 0 {
      assert ids[0] in ids && forall i | i in ids[1..] :: i in ids;
      if ids[0] >= |s.rows| {
        SweepKeepsOthers(env, s, ids[1..], j);
      } else {
        TurnKeepsOthers(env, s, ids[0], j);
        if !TimeOut(env, s, ids[0]).threw {
          SweepKeepsOthers(env, TimeOut(env, s, ids[0]).s, ids[1..], j);
        }
      }
    }
  }

  lemma TurnKeepsOthers(env: Env, s: State, i: AssignmentId, j: AssignmentId)
    requires i < |s.rows| && j < |s.rows| && i != j
    ensures var next := TimeOut(env, s, i).s; j < |next.rows| && next.rows[j] == s.rows[j]
  {
    if s.rows[i].status.Offered? {
      SettleWrites(env, s, i, TimedOut);
      OfferTightens(env, SettleRow(env, s, i, TimedOut).s, s.rows[i].orderId, s.rows[i].pickup);
    }
  }

  ghost predicate Announced(before: State, after: State, i: AssignmentId) {
    Timeouts(before.log, i) < Timeouts(after.log, i)
  }

  /** The order of each row announced was offered again. */
  ghost predicate AnnouncedReoffered(env: Env, s: State, last: State, ids: seq<AssignmentId>) {
    forall k | 0 <= k < |ids| && ids[k] < |s.rows| && Announced(s, last, ids[k]) ::
      Reoffered(env, |s.rows|, last, s.rows[ids[k]], DriversOf(s.rows, ids[k + 1..]))
  }

  lemma FirstReoffered(env: Env, s: State, ids: seq<AssignmentId>)
    requires |ids| > 0 && AllExpired(s, ids) && ids[0] < |s.rows| && s.rows[ids[0]].status.Offered?
    requires env.emitOk(s.emits) && forall i | i in ids[1..] :: i < |s.rows|
    ensures Reoffered(env, |s.rows|, ExpirySweep(env, s, ids).s, s.rows[ids[0]], DriversOf(s.rows, ids[1..]))
  {
    var i, rest := ids[0], ids[1..];
    var r, next, last := TimeOut(env, s, i), TimeOut(env, s, i).s, ExpirySweep(env, s, ids).s;
    TurnReoffers(env, s, i);
    TurnLoosens(env, s, i);
    SameDriversOf(s.rows, next.rows, rest);
    if r.threw {
      ReofferedStays(env, |s.rows|, next, last, s.rows[i], DriversOf(s.rows, rest));
    } else {
      SweepLoosens(env, next, rest);
      forall k | |s.rows| <= k < |next.rows| ensures last.rows[k] == next.rows[k] {
        SweepKeepsOthers(env, next, rest, k);
      }
      ReofferedStays(env, |s.rows|, next, last, s.rows[i], DriversOf(s.rows, rest));
    }
  }

  /** What holds of the rest of the list from its first turn on holds from before it. */
  lemma RestReoffered(env: Env, s: State, next: State, last: State, ids: seq<AssignmentId>, k: nat)
    requires 0 < k < |ids| && (forall i | i in ids :: i < |s.rows|) && ids[k] < |s.rows| <= |next.rows|
    requires forall i | 0 <= i < |s.rows| :: next.rows[i] == s.rows[i].(status := next.rows[i].status)
    requires AnnouncedReoffered(env, next, last, ids[1..]) && Announced(next, last, ids[k])
    ensures Reoffered(env, |s.rows|, last, s.rows[ids[k]], DriversOf(s.rows, ids[k + 1..]))
  {
    var rest := ids[1..];
    assert rest[k - 1] == ids[k] && rest[k..] == ids[k + 1..];
    var later := ids[k + 1..];
    forall i | i in later ensures i in ids {
      var j :| 0 <= j < |later| && later[j] == i;
      assert ids[k + 1 + j] in ids;
    }
    SameDriversOf(s.rows, next.rows, later);
    assert Reoffered(env, |next.rows|, last, next.rows[ids[k]], DriversOf(next.rows, rest[k..]));
  }

  lemma {:induction false} SweepReoffers(env: Env, s: State, ids: seq<AssignmentId>)
    requires AllExpired(s, ids)
    ensures AnnouncedReoffered(env, s, ExpirySweep(env, s, ids).s, ids)
    decreases |ids|
  {
    if |ids| > 0 {
      var i, rest := ids[0], ids[1..];
      assert i in ids && forall j | j in rest :: j in ids;
      OneTimeOut(env, s, i);
      TurnLoosens(env, s, i);
      var next, last := TimeOut(env, s, i).s, ExpirySweep(env, s, ids).s;
      if env.emitOk(s.emits) {
        FirstReoffered(env, s, ids);
      }
      if !TimeOut(env, s, i).threw {
        assert env.emitOk(s.emits) && TimesOut(s, next, {i}, {i});
        RestStillExpired(s, next, ids);
        SweepReoffers(env, next, rest);
      }
      forall k | 0 <= k < |ids| && ids[k] < |s.rows| && Announced(s, last, ids[k])
        ensures Reoffered(env, |s.rows|, last, s.rows[ids[k]], DriversOf(s.rows, ids[k + 1..]))
      {
        if k > 0 {
          assert ids[k] != i;
          RestReoffered(env, s, next, last, ids, k);
        }
      }
    }
  }

  /** The sweep settles the first n of its rows, all of them unless it throws, announces those n, or all but
      the last of them when it throws. */
  lemma {:induction false} SweepTimesOut(env: Env, s: State, ids: seq<AssignmentId>) returns (n: nat, told: nat)
    requires Chain(s.rows) && AllExpired(s, ids)
    ensures n <= |ids| && told <= n
    ensures var r := ExpirySweep(env, s, ids);
            && (if r.threw then n <= told + 1 else n == told == |ids|)
            && TimesOut(s, r.s, IdSet(ids[..n]), IdSet(ids[..told]))
            && GainsAtMostOne(s.rows, r.s.rows, IdSet(ids[..n]))
    decreases |ids|
  {
    NoneAndFirst(ids);
    if |ids| == 0 {
      n, told := 0, 0;
    } else {
      var i, rest := ids[0], ids[1..];
      assert i in ids;
      OneTimeOut(env, s, i);
      OneTimeOutGains(env, s, i);
      var next := TimeOut(env, s, i).s;
      if TimeOut(env, s, i).threw {
        n, told := 1, if env.emitOk(s.emits) then 1 else 0;
      } else {
        RestStillExpired(s, next, ids);
        TurnKeepsChain(env, s, i);
        n, told := SweepTimesOut(env, next, rest);
        SweepJoin(s, next, ExpirySweep(env, next, rest).s, ids, n, told);
        n, told := n + 1, told + 1;
      }
    }
  }

  lemma SweepJoin(s: State, next: State, last: State, ids: seq<AssignmentId>, n: nat, told: nat)
    requires Chain(s.rows) && AllExpired(s, ids) && told <= n < |ids|
    requires TimesOut(s, next, {ids[0]}, {ids[0]}) && GainsAtMostOne(s.rows, next.rows, {ids[0]})
    requires Evolves(s.rows, next.rows)
    requires TimesOut(next, last, IdSet(ids[1..][..n]), IdSet(ids[1..][..told]))
    requires GainsAtMostOne(next.rows, last.rows, IdSet(ids[1..][..n]))
    ensures TimesOut(s, last, IdSet(ids[..n + 1]), IdSet(ids[..told + 1]))
    ensures GainsAtMostOne(s.rows, last.rows, IdSet(ids[..n + 1]))
  {
    var rest := ids[1..];
    RestStillExpired(s, next, ids);
    assert ids[0] in ids && forall j | j in rest[..n] || j in rest[..told] :: j in rest;
    IdSetFirst(ids, n + 1);
    IdSetFirst(ids, told + 1);
    TimesOutJoin(s, next, last, ids[0], IdSet(rest[..n]), IdSet(rest[..told]));
    GainsJoin(s.rows, next.rows, last.rows, ids[0], IdSet(rest[..n]));
  }

  lemma ToldAreReoffered(env: Env, s: State, last: State, ids: seq<AssignmentId>, told: nat)
    requires told <= |ids| && (forall i | i in ids :: i < |s.rows|) && AnnouncedReoffered(env, s, last, ids)
    requires forall i | i in ids[..told] :: Announced(s, last, i)
    ensures forall k | 0 <= k < told ::
              ids[k] < |s.rows| && Reoffered(env, |s.rows|, last, s.rows[ids[k]], DriversOf(s.rows, ids[k + 1..]))
  {
    forall k | 0 <= k < told
      ensures ids[k] < |s.rows| && Reoffered(env, |s.rows|, last, s.rows[ids[k]], DriversOf(s.rows, ids[k + 1..]))
    {
      assert ids[k] in ids && ids[..told][k] == ids[k];
      assert Announced(s, last, ids[k]);
    }
  }

  /** What a timeout sweep does over the expired rows as listed, whichever emits fail: it times out the first
      n of them and nothing else, all of them unless it throws; it announces each of those exactly once,
      save perhaps the last when it throws; the order of each row announced gets a new offer at the row's
      pickup, unless every candidate is tried, unavailable or locked even now or is the driver of a row later
      in the list, whose lock the sweep deleted after that order's turn; only those orders get one, one each at
      most; and what is expired afterwards is exactly the rest of the list. */
  lemma SweepSettlesExpiredOffers(env: Env, s: State, ids: seq<AssignmentId>) returns (n: nat, told: nat)
    requires Chain(s.rows) && IsExpiredListing(s, ids)
    ensures told <= n <= |ids|
    ensures var r := ExpirySweep(env, s, ids);
            && (if r.threw then n <= told + 1 else n == told == |ids|)
            && (BrokerUp(env) ==> !r.threw)
            && |s.rows| <= |r.s.rows|
            && (forall i | 0 <= i < |s.rows| ::
                  r.s.rows[i] == if i in ids[..n] then s.rows[i].(status := TimedOut) else s.rows[i])
            && (forall i: AssignmentId ::
                  Timeouts(r.s.log, i) == Timeouts(s.log, i) + if i in ids[..told] then 1 else 0)
            && (forall k | 0 <= k < told ::
                  && ids[k] < |s.rows|
                  && Reoffered(env, |s.rows|, r.s, s.rows[ids[k]], DriversOf(s.rows, ids[k + 1..])))
            && (forall o :: Count(r.s.rows, o) <=
                            Count(s.rows, o) + if Touches(s.rows, IdSet(ids[..n]), o) then 1 else 0)
            && (forall i: AssignmentId :: Expired(r.s, i) <==> i in ids[n..])
  {
    n, told := SweepTimesOut(env, s, ids);
    var r := ExpirySweep(env, s, ids);
    SweepReoffers(env, s, ids);
    ToldAreReoffered(env, s, r.s, ids, told);
    if BrokerUp(env) {
      BrokerUpSweepEnds(env, s, ids);
    }
    forall i: AssignmentId ensures Expired(r.s, i) <==> i in ids[n..] {
      SplitList(ids, n, i);
    }
  }

  /** Where Redis shows none of the timed-out drivers AVAILABLE, as when it has followed their offers, the sweep
      leaves none of the orders it announced waiting for a driver it could have. */
  lemma SweepIsMaximalWhenRedisFollows(env: Env, s: State, ids: seq<AssignmentId>) returns (n: nat, told: nat)
    requires Chain(s.rows) && IsExpiredListing(s, ids)
    requires forall i | i in ids :: !IsAvailable(s, s.rows[i].driverId)
    ensures told <= n <= |ids|
    ensures var r := ExpirySweep(env, s, ids);
            && (if r.threw then n <= told + 1 else told == |ids|)
            && forall k | 0 <= k < told ::
                 ids[k] < |s.rows| && Reoffered(env, |s.rows|, r.s, s.rows[ids[k]], {})
  {
    n, told := SweepSettlesExpiredOffers(env, s, ids);
    SweepLoosens(env, s, ids);
    var last := ExpirySweep(env, s, ids).s;
    forall k | 0 <= k < told
      ensures ids[k] < |s.rows| && Reoffered(env, |s.rows|, last, s.rows[ids[k]], {})
    {
      var freed := DriversOf(s.rows, ids[k + 1..]);
      assert Reoffered(env, |s.rows|, last, s.rows[ids[k]], freed);
      forall d | d in freed ensures !IsAvailable(last, d) {
        var j :| j in ids[k + 1..] && j < |s.rows| && s.rows[j].driverId == d;
        assert j in ids;
      }
    }
  }

  const PLACE := Point(0.0, 0.0)

  /** Offers to drivers 1 and 9 have lapsed; 9, still AVAILABLE in Redis, has a newer offer and its lock. */
  ghost function OverdueOffers(): State {
    State(100, [Assignment(1, 1, AssignmentStatus.Offered, 1, PLACE, 50),
                Assignment(2, 9, AssignmentStatus.Offered, 1, PLACE, 60),
                Assignment(3, 9, AssignmentStatus.Offered, 1, PLACE, 30060)],
          map[9 := Available], map[], map[9 := Lock(3, 30060)], [], [], 0)
  }

  lemma NineSettles(s: State, i: AssignmentId)
    requires i < |s.rows| && s.rows[i].status.Offered? && s.rows[i].pickup == PLACE
    requires s.rows[i].driverId == 9 || (s.rows[i].driverId != 9 && LockHeld(s, 9))
    ensures var env := Env((geo, at, radius) => [9], k => true);
            TimeOut(env, s, i) == SettleRow(env, s, i, TimedOut)
  {
    var env := Env((geo, at, radius) => [9], k => true);
    var settled, o := SettleRow(env, s, i, TimedOut).s, s.rows[i].orderId;
    var candidates := Candidates(env, settled.geo, settled.geo, PLACE);
    OnlyNine([9]);
    assert candidates == [9];
    assert settled.rows[i].orderId == o && settled.rows[i].driverId == s.rows[i].driverId;
    FirstEligibleIsEligible(settled, TriedDrivers(settled.rows, o), candidates);
  }

  lemma OnlyNine(s: seq<DriverId>)
    requires s == [9]
    ensures Without(s, Members(s)) == []
  {
    assert s[..0] == [] && 9 in Members(s);
  }

  /** The exception does happen: driver 9 is locked when the first order has its turn, and the second
      turn deletes the lock of 9's newer offer, so the first order could have had 9 after all. */
  lemma FreedDriverIsMissed()
    ensures var env, s := Env((geo, at, radius) => [9], k => true), OverdueOffers();
            var r := ExpirySweep(env, s, [0, 1]);
            && IsExpiredListing(s, [0, 1]) && !r.threw
            && |r.s.rows| == |s.rows| && 9 in Candidates(env, r.s.geo, r.s.geo, s.rows[0].pickup)
            && Eligible(r.s, TriedDrivers(r.s.rows, s.rows[0].orderId), 9)
  {
    var env, s := Env((geo, at, radius) => [9], k => true), OverdueOffers();
    assert Expired(s, 0) && Expired(s, 1) && !Expired(s, 2);
    assert forall i: AssignmentId :: i in [0, 1] <==> Expired(s, i);
    NineSettles(s, 0);
    var next := SettleRow(env, s, 0, TimedOut).s;
    NineSettles(next, 1);
    var last := SettleRow(env, next, 1, TimedOut).s;
    assert [0, 1][1..] == [1] && [1][1..] == [];
    assert ExpirySweep(env, last, []) == Outcome(last, false);
    assert ExpirySweep(env, next, [1]) == Outcome(last, false);
    assert ExpirySweep(env, s, [0, 1]) == Outcome(last, false);
    assert env.search(last.geo, PLACE, SEARCH_RADIUS_KM)[0] == 9;
  }

  lemma SplitList(ids: seq<AssignmentId>, n: nat, i: AssignmentId)
    requires NoDuplicates(ids) && n <= |ids|
    ensures i in ids[n..] <==> i in ids && i !in ids[..n]
  {
    if i in ids && i !in ids[..n] {
      var k :| 0 <= k < |ids| && ids[k] == i;
      assert k >= n && ids[n..][k - n] == i;
    }
  }

  lemma {:induction false} BrokerUpSweepEnds(env: Env, s: State, ids: seq<AssignmentId>)
    requires BrokerUp(env)
    ensures !ExpirySweep(env, s, ids).threw
    decreases |ids|
  {
    if |ids| > 0 {
      if ids[0] < |s.rows| {
        BrokerUpSweepEnds(env, TimeOut(env, s, ids[0]).s, ids[1..]);
      } else {
        BrokerUpSweepEnds(env, s, ids[1..]);
      }
    }
  }

  /* The retry sweep. */

  /** The retry sweep without its check for an untried available driver. */
  function PlainRetrySweep(env: Env, s: State, pending: seq<Pending>): Outcome
    decreases |pending|
  {
    if |pending| == 0 then Outcome(s, false)
    else
      var r := Offer(env, s, pending[0].orderId, pending[0].pickup);
      if r.threw then r else PlainRetrySweep(env, r.s, pending[1..])
  }

  lemma CheckChangesNothing(env: Env, s: State, p: Pending)
    ensures Retry(env, s, p) == Offer(env, s, p.orderId, p.pickup)
  {
    FirstEligibleIsEligible(s, TriedDrivers(s.rows, p.orderId), Candidates(env, s.geo, s.geo, p.pickup));
  }

  /** The check changes neither the state nor the log, for any list of orders,
      although offers early in the sweep take locks that later ones see. */
  lemma {:induction false} RetryCheckIsRedundant(env: Env, s: State, pending: seq<Pending>)
    ensures RetrySweep(env, s, pending) == PlainRetrySweep(env, s, pending)
    decreases |pending|
  {
    if |pending| > 0 {
      CheckChangesNothing(env, s, pending[0]);
      var r := Offer(env, s, pending[0].orderId, pending[0].pickup);
      RetryCheckIsRedundant(env, r.s, pending[1..]);
    }
  }

  lemma StillIneligible(before: State, after: State, o: OrderId, d: DriverId)
    requires Tightens(before, after) && !Eligible(before, TriedDrivers(before.rows, o), d)
    ensures !Eligible(after, TriedDrivers(after.rows, o), d)
  {
    if d in TriedDrivers(before.rows, o) {
      var i :| 0 <= i < |before.rows| && before.rows[i].orderId == o && before.rows[i].driverId == d;
      assert after.rows[i] == before.rows[i];
    }
  }

  /** The order got a new offer since, or no candidate of its can take one. */
  ghost predicate Served(env: Env, before: nat, after: State, p: Pending) {
    || (exists k | before <= k < |after.rows| :: after.rows[k].orderId == p.orderId && after.rows[k].status.Offered?)
    || (forall d | d in Candidates(env, after.geo, after.geo, p.pickup) ::
          !Eligible(after, TriedDrivers(after.rows, p.orderId), d))
  }

  lemma OfferServes(env: Env, s: State, p: Pending, last: State)
    requires var next := Offer(env, s, p.orderId, p.pickup).s; next == last || Tightens(next, last)
    ensures Served(env, |s.rows|, last, p)
  {
    OfferTightens(env, s, p.orderId, p.pickup);
    var next := Offer(env, s, p.orderId, p.pickup).s;
    if |next.rows| > |s.rows| {
      assert last.rows[|s.rows|] == next.rows[|s.rows|];
    } else {
      forall d | d in Candidates(env, last.geo, last.geo, p.pickup)
        ensures !Eligible(last, TriedDrivers(last.rows, p.orderId), d)
      {
        StillIneligible(s, last, p.orderId, d);
      }
    }
  }

  /** The sweep serves the first n orders of its list, all of them unless it throws. */
  lemma {:induction false} SweepServes(env: Env, s: State, pending: seq<Pending>) returns (n: nat)
    ensures n <= |pending|
    ensures var r := RetrySweep(env, s, pending);
            && (if r.threw then n > 0 else n == |pending|)
            && Tightens(s, r.s)
            && forall i | 0 <= i < n :: Served(env, |s.rows|, r.s, pending[i])
    decreases |pending|
  {
    if |pending| == 0 {
      n := 0;
    } else {
      var p := pending[0];
      CheckChangesNothing(env, s, p);
      OfferTightens(env, s, p.orderId, p.pickup);
      var r := Offer(env, s, p.orderId, p.pickup);
      var last := RetrySweep(env, s, pending).s;
      n := 1;
      if !r.threw {
        n := SweepServes(env, r.s, pending[1..]);
        forall i | 0 < i < n + 1 ensures Served(env, |s.rows|, last, pending[i]) {
          assert pending[i] == pending[1..][i - 1];
          assert Served(env, |r.s.rows|, last, pending[i]);
        }
        n := n + 1;
      }
      OfferServes(env, s, p, last);
    }
  }

  /** Whichever emits fail, a retry sweep serves its list from the front, to the end unless it throws: each
      order served got an offer in this sweep, or every candidate is tried, unavailable or locked even
      now. So when the sweep ends no order that needed a driver waits for one it could have had. */
  lemma RetrySweepIsMaximal(env: Env, s: State, pending: seq<Pending>) returns (n: nat)
    requires IsRetryList(s.rows, pending)
    ensures n <= |pending|
    ensures var r := RetrySweep(env, s, pending);
            && (if r.threw then n > 0 else n == |pending|)
            && (forall i | 0 <= i < n :: Served(env, |s.rows|, r.s, pending[i]))
            && (!r.threw ==> forall o | HasRow(s.rows, o) && AllRetriable(s.rows, o) ::
                  exists i | 0 <= i < |pending| :: pending[i].orderId == o && Served(env, |s.rows|, r.s, pending[i]))
  {
    n := SweepServes(env, s, pending);
    var r := RetrySweep(env, s, pending);
    forall o | !r.threw && HasRow(s.rows, o) && AllRetriable(s.rows, o)
      ensures exists i | 0 <= i < |pending| :: pending[i].orderId == o && Served(env, |s.rows|, r.s, pending[i])
    {
      assert Lists(pending, o);
      var i :| 0 <= i < |pending| && pending[i].orderId == o;
      assert Served(env, |s.rows|, r.s, pending[i]);
    }
  }

  /** Any listing of the table gives the same orders to retry. */
  lemma ListingOrderIsImmaterial(rows: Table, listing: seq<Assignment>, pending: seq<Pending>)
    requires multiset(rows) == multiset(listing) && IsRetryList(listing, pending)
    ensures IsRetryList(rows, pending)
  {
    assert forall row :: row in rows <==> row in multiset(rows);
    assert forall row :: row in listing <==> row in multiset(listing);
    SameRows(rows, listing);
    SameRows(listing, rows);
    forall o ensures Lists(pending, o) <==> HasRow(rows, o) && AllRetriable(rows, o) {
    }
    forall i | 0 <= i < |pending|
      ensures HasPickup(rows, pending[i].orderId, pending[i].pickup)
    {
      var k :| 0 <= k < |listing| && listing[k].orderId == pending[i].orderId && listing[k].pickup == pending[i].pickup;
      assert listing[k] in rows;
      var r :| 0 <= r < |rows| && rows[r] == listing[k];
      assert rows[r].orderId == pending[i].orderId;
    }
  }

  lemma SameRows(a: seq<Assignment>, b: seq<Assignment>)
    requires forall row | row in a :: row in b
    ensures forall o | HasRow(a, o) :: HasRow(b, o)
    ensures forall o | AllRetriable(b, o) :: AllRetriable(a, o)
  {
    forall o | HasRow(a, o) ensures HasRow(b, o) {
      var i :| 0 <= i < |a| && a[i].orderId == o;
      assert a[i] in b;
      var j :| 0 <= j < |b| && b[j] == a[i];
      assert b[j].orderId == o;
    }
    forall o, i | AllRetriable(b, o) && 0 <= i < |a| && a[i].orderId == o ensures Retriable(a[i].status) {
      assert a[i] in b;
    }
  }
}
