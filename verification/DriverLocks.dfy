/** The per-driver lock (SET NX EX 30) against time: what it gives and what it does not. */
module DriverLocks {
  import opened Common
  import opened AssignmentTable
  import opened DispatchSpec
  import opened DispatchMoves
  import opened DispatchSafety

  /** The lock command that went with a row. */
  ghost predicate TookLock(op: LockOp, row: Assignment) {
    && op.Acquired? && op.driverId == row.driverId && op.orderId == row.orderId
    && op.at + OFFER_TTL_MS == row.expiresAt
  }

  ghost predicate NotReleasedSince(ops: seq<LockOp>, a: nat)
    requires a < |ops|
  {
    forall k | a < k < |ops| :: ops[k] != Released(ops[a].driverId)
  }

  /** A lock not released since it was taken is still set, at least for its own 30 seconds. */
  ghost predicate LocksFollowOps(ops: seq<LockOp>, locks: map<DriverId, Lock>, now: nat) {
    forall a | 0 <= a < |ops| && ops[a].Acquired? ::
      && ops[a].at <= now
      && (NotReleasedSince(ops, a) ==>
            ops[a].driverId in locks && ops[a].at + OFFER_TTL_MS <= locks[ops[a].driverId].until)
  }

  predicate Live(status: AssignmentStatus) {
    status.Offered? || status.Confirmed?
  }

  /** The row a lock guards: same driver, same order, same deadline, and not over yet. */
  ghost predicate Guards(lock: Lock, d: DriverId, row: Assignment) {
    row.driverId == d && row.orderId == lock.orderId && row.expiresAt == lock.until && Live(row.status)
  }

  ghost predicate GuardsSome(lock: Lock, d: DriverId, rows: Table) {
    exists i | 0 <= i < |rows| :: Guards(lock, d, rows[i])
  }

  ghost predicate LocksGuardRows(rows: Table, locks: map<DriverId, Lock>) {
    forall d | d in locks :: GuardsSome(locks[d], d, rows)
  }

  ghost predicate HasLockOp(ops: seq<LockOp>, row: Assignment) {
    exists a | 0 <= a < |ops| :: TookLock(ops[a], row)
  }

  ghost predicate ReleasedAt(ops: seq<LockOp>, a: nat, k: nat, b: nat, first: Assignment, second: Assignment) {
    && a < k < b < |ops|
    && TookLock(ops[a], first) && ops[k] == Released(first.driverId) && TookLock(ops[b], second)
  }

  /** The driver's lock was taken for the first row, released, and taken for the second, in this order. */
  ghost predicate ReleasedBetween(ops: seq<LockOp>, first: Assignment, second: Assignment) {
    exists a: nat, k: nat, b: nat :: ReleasedAt(ops, a, k, b, first, second)
  }

  ghost predicate Separated(rows: Table, ops: seq<LockOp>) {
    && (forall i | 0 <= i < |rows| :: HasLockOp(ops, rows[i]))
    && (forall i, j | 0 <= i < j < |rows| && rows[i].driverId == rows[j].driverId
                      && rows[j].expiresAt <= rows[i].expiresAt + OFFER_TTL_MS ::
          ReleasedBetween(ops, rows[i], rows[j]))
  }

  ghost predicate LocksOk(s: State) {
    LocksFollowOps(s.lockOps, s.locks, s.now) && LocksGuardRows(s.rows, s.locks) && Separated(s.rows, s.lockOps)
  }

  lemma AcquireFollows(ops: seq<LockOp>, locks: map<DriverId, Lock>, now: nat, d: DriverId, o: OrderId)
    requires LocksFollowOps(ops, locks, now)
    ensures LocksFollowOps(ops + [Acquired(d, o, now)], locks[d := Lock(o, now + OFFER_TTL_MS)], now)
  {
    var after := ops + [Acquired(d, o, now)];
    forall a | 0 <= a < |ops| && NotReleasedSince(after, a) ensures NotReleasedSince(ops, a) {
      forall k | a < k < |ops| ensures ops[k] != Released(ops[a].driverId) {
        assert after[k] == ops[k];
      }
    }
  }

  lemma ReleaseFollows(ops: seq<LockOp>, locks: map<DriverId, Lock>, now: nat, d: DriverId)
    requires LocksFollowOps(ops, locks, now)
    ensures LocksFollowOps(ops + [Released(d)], locks - {d}, now)
  {
    var after := ops + [Released(d)];
    forall a | 0 <= a < |ops| && ops[a].Acquired? && NotReleasedSince(after, a)
      ensures ops[a].driverId != d && NotReleasedSince(ops, a)
    {
      assert after[|ops|] == Released(d);
      forall k | a < k < |ops| ensures ops[k] != Released(ops[a].driverId) {
        assert after[k] == ops[k];
      }
    }
  }

  lemma LockOpStays(ops: seq<LockOp>, more: seq<LockOp>, row: Assignment, later: Assignment)
    requires HasLockOp(ops, row) && later == row.(status := later.status)
    ensures HasLockOp(ops + more, later)
  {
    var a :| 0 <= a < |ops| && TookLock(ops[a], row);
    assert TookLock((ops + more)[a], later);
  }

  lemma ReleaseStays(ops: seq<LockOp>, more: seq<LockOp>, first: Assignment, second: Assignment,
                     later1: Assignment, later2: Assignment)
    requires ReleasedBetween(ops, first, second)
    requires later1 == first.(status := later1.status) && later2 == second.(status := later2.status)
    ensures ReleasedBetween(ops + more, later1, later2)
  {
    var a: nat, k: nat, b: nat :| ReleasedAt(ops, a, k, b, first, second);
    assert ReleasedAt(ops + more, a, k, b, later1, later2);
  }

  lemma SeparatedGrows(before: Table, after: Table, ops: seq<LockOp>, more: seq<LockOp>)
    requires Separated(before, ops) && |before| == |after|
    requires forall i | 0 <= i < |before| :: after[i] == before[i].(status := after[i].status)
    ensures Separated(after, ops + more)
  {
    forall i | 0 <= i < |after| ensures HasLockOp(ops + more, after[i]) {
      LockOpStays(ops, more, before[i], after[i]);
    }
    forall i, j | 0 <= i < j < |after| && after[i].driverId == after[j].driverId
                  && after[j].expiresAt <= after[i].expiresAt + OFFER_TTL_MS
      ensures ReleasedBetween(ops + more, after[i], after[j])
    {
      ReleaseStays(ops, more, before[i], before[j], after[i], after[j]);
    }
  }

  /** A lock is only granted within 30 seconds of the driver's last offer if it was released meanwhile. */
  lemma GrantMeansReleased(s: State, d: DriverId, o: OrderId, i: nat, row: Assignment)
    requires LocksOk(s) && !LockHeld(s, d)
    requires i < |s.rows| && s.rows[i].driverId == d
    requires row.driverId == d && row.orderId == o && row.expiresAt == s.now + OFFER_TTL_MS
    requires row.expiresAt <= s.rows[i].expiresAt + OFFER_TTL_MS
    ensures ReleasedBetween(s.lockOps + [Acquired(d, o, s.now)], s.rows[i], row)
  {
    var ops := s.lockOps;
    var all := ops + [Acquired(d, o, s.now)];
    assert HasLockOp(ops, s.rows[i]);
    var a :| 0 <= a < |ops| && TookLock(ops[a], s.rows[i]);
    assert !NotReleasedSince(ops, a);
    var k :| a < k < |ops| && ops[k] == Released(ops[a].driverId);
    assert ReleasedAt(all, a, k, |ops|, s.rows[i], row);
  }

  lemma InsertSeparates(s: State, row: Assignment)
    requires LocksOk(s) && !LockHeld(s, row.driverId) && row.expiresAt == s.now + OFFER_TTL_MS
    ensures Separated(s.rows + [row], s.lockOps + [Acquired(row.driverId, row.orderId, s.now)])
  {
    var d := row.driverId;
    var all := s.lockOps + [Acquired(d, row.orderId, s.now)];
    SeparatedGrows(s.rows, s.rows, s.lockOps, [Acquired(d, row.orderId, s.now)]);
    assert TookLock(all[|s.lockOps|], row);
    forall i | 0 <= i < |s.rows| && s.rows[i].driverId == d && row.expiresAt <= s.rows[i].expiresAt + OFFER_TTL_MS
      ensures ReleasedBetween(all, s.rows[i], row)
    {
      GrantMeansReleased(s, d, row.orderId, i, row);
    }
  }

  lemma GuardsSurvive(before: Table, after: Table, locks: map<DriverId, Lock>, fewer: map<DriverId, Lock>)
    requires LocksGuardRows(before, locks) && |before| <= |after|
    requires forall i | 0 <= i < |before| :: after[i] == before[i].(status := after[i].status)
    requires forall d | d in fewer :: d in locks && fewer[d] == locks[d]
    requires forall i | 0 <= i < |before| && before[i].driverId in fewer && Live(before[i].status) :: Live(after[i].status)
    ensures LocksGuardRows(after, fewer)
  {
    forall d | d in fewer ensures GuardsSome(fewer[d], d, after) {
      assert GuardsSome(locks[d], d, before);
      var i :| 0 <= i < |before| && Guards(locks[d], d, before[i]);
      assert Guards(fewer[d], d, after[i]);
    }
  }

  /** An offer takes the lock, and gives it back when its emit fails. */
  lemma InsertLocks(env: Env, s: State, o: OrderId, at: Point, d: DriverId)
    ensures var after := OfferTo(env, s, o, at, d).s;
            var taken := s.locks[d := Lock(o, s.now + OFFER_TTL_MS)];
            var ops := s.lockOps + [Acquired(d, o, s.now)];
            && after.lockOps == (if env.emitOk(s.emits) then ops else ops + [Released(d)])
            && after.locks == (if env.emitOk(s.emits) then taken else taken - {d})
  {
    NextAttemptIsFree(s.rows, o);
  }

  lemma InsertGuards(s: State, row: Assignment)
    requires LocksGuardRows(s.rows, s.locks) && row.expiresAt == s.now + OFFER_TTL_MS && row.status.Offered?
    ensures var taken := s.locks[row.driverId := Lock(row.orderId, s.now + OFFER_TTL_MS)];
            LocksGuardRows(s.rows + [row], taken) && LocksGuardRows(s.rows + [row], taken - {row.driverId})
  {
    var d, after := row.driverId, s.rows + [row];
    var taken := s.locks[d := Lock(row.orderId, s.now + OFFER_TTL_MS)];
    GuardsSurvive(s.rows, after, s.locks, s.locks);
    assert Guards(taken[d], d, after[|s.rows|]);
    GuardsSurvive(after, after, taken, taken - {d});
  }

  lemma InsertKeepsLocks(env: Env, s: State, m: Move)
    requires LocksOk(s) && m.Insert? && Legal(s, m)
    ensures LocksOk(Do(env, s, m))
  {
    var o, d := m.orderId, m.driverId;
    InsertWrites(env, s, o, m.pickup, d);
    InsertLocks(env, s, o, m.pickup, d);
    var after := Do(env, s, m);
    var row := after.rows[|s.rows|];
    assert after.rows == s.rows + [row];
    OfferLocks(s, row);
    if env.emitOk(s.emits) {
      assert after.locks == s.locks[d := Lock(o, s.now + OFFER_TTL_MS)];
    } else {
      assert after.lockOps == s.lockOps + [Acquired(d, o, s.now)] + [Released(d)];
    }
  }

  /** Both ways an offer can leave the locks. */
  lemma OfferLocks(s: State, row: Assignment)
    requires LocksOk(s) && !LockHeld(s, row.driverId) && row.expiresAt == s.now + OFFER_TTL_MS && row.status.Offered?
    ensures var d := row.driverId;
            var rows, taken := s.rows + [row], s.locks[d := Lock(row.orderId, s.now + OFFER_TTL_MS)];
            var ops := s.lockOps + [Acquired(d, row.orderId, s.now)];
            && LocksOk(s.(rows := rows, locks := taken, lockOps := ops))
            && LocksOk(s.(rows := rows, locks := taken - {d}, lockOps := ops + [Released(d)]))
  {
    var d, o := row.driverId, row.orderId;
    var rows, taken := s.rows + [row], s.locks[d := Lock(o, s.now + OFFER_TTL_MS)];
    var ops := s.lockOps + [Acquired(d, o, s.now)];
    InsertSeparates(s, row);
    InsertGuards(s, row);
    AcquireFollows(s.lockOps, s.locks, s.now, d, o);
    SeparatedGrows(rows, rows, ops, [Released(d)]);
    ReleaseFollows(ops, taken, s.now, d);
  }

  lemma SettleKeepsLocks(env: Env, s: State, m: Move)
    requires LocksOk(s) && m.Settle? && Legal(s, m)
    ensures LocksOk(Do(env, s, m))
  {
    var after := Do(env, s, m);
    var d := s.rows[m.row].driverId;
    SettleWrites(env, s, m.row, m.status);
    SeparatedGrows(s.rows, after.rows, s.lockOps, if m.status.Confirmed? then [] else [Released(d)]);
    GuardsSurvive(s.rows, after.rows, s.locks, after.locks);
    if !m.status.Confirmed? {
      ReleaseFollows(s.lockOps, s.locks, s.now, d);
    }
  }

  lemma {:induction false} MovesKeepLocks(env: Env, s: State, moves: seq<Move>)
    requires LocksOk(s) && AllLegal(env, s, moves)
    ensures LocksOk(DoAll(env, s, moves))
    decreases |moves|
  {
    if |moves| > 0 {
      match moves[0] {
        case Insert(_, _, _, _) => InsertKeepsLocks(env, s, moves[0]);
        case Settle(_, _) => SettleKeepsLocks(env, s, moves[0]);
        case _ =>
      }
      MovesKeepLocks(env, Do(env, s, moves[0]), moves[1..]);
    }
  }

  /** In every run, two offers to one driver at most 30 seconds apart have a release of the
      driver's lock between them, and every lock guards an offer that is open or accepted, and lapses
      no later than that offer: a row rejected, timed out, completed or cancelled leaves no lock. */
  lemma OffersAreSeparatedByRelease(env: Env, steps: seq<Step>)
    requires IsRun(env, EMPTY, steps)
    ensures var s := Run(env, EMPTY, steps);
            && (forall i, j | 0 <= i < j < |s.rows| && s.rows[i].driverId == s.rows[j].driverId
                              && s.rows[j].expiresAt <= s.rows[i].expiresAt + OFFER_TTL_MS ::
                  ReleasedBetween(s.lockOps, s.rows[i], s.rows[j]))
            && LocksGuardRows(s.rows, s.locks)
  {
    var moves := RunMoves(env, EMPTY, steps);
    MovesKeepLocks(env, EMPTY, moves);
  }

  /** When the timeout sweep picks an offer, the offer's own lock has lapsed. A lock the sweep's
      unconditional delete does remove is therefore another order's, still guarding another offer. */
  lemma SweepOnlyFreesForeignLocks(env: Env, steps: seq<Step>, i: AssignmentId)
    requires IsRun(env, EMPTY, steps)
    ensures var s := Run(env, EMPTY, steps);
            Expired(s, i) && LockHeld(s, s.rows[i].driverId) ==>
              exists j | 0 <= j < |s.rows| ::
                && Guards(s.locks[s.rows[i].driverId], s.rows[i].driverId, s.rows[j])
                && s.rows[j].orderId != s.rows[i].orderId && s.now <= s.rows[j].expiresAt
  {
    OffersAreSeparatedByRelease(env, steps);
    RunKeepsChain(env, EMPTY, steps);
    var s := Run(env, EMPTY, steps);
    if Expired(s, i) && LockHeld(s, s.rows[i].driverId) {
      HeldLockIsForeign(s, i);
    }
  }

  lemma HeldLockIsForeign(s: State, i: AssignmentId)
    requires DistinctDrivers(s.rows) && LocksGuardRows(s.rows, s.locks)
    requires Expired(s, i) && LockHeld(s, s.rows[i].driverId)
    ensures var d := s.rows[i].driverId;
            exists j | 0 <= j < |s.rows| ::
              Guards(s.locks[d], d, s.rows[j]) && s.rows[j].orderId != s.rows[i].orderId && s.now <= s.rows[j].expiresAt
  {
    var d := s.rows[i].driverId;
    assert GuardsSome(s.locks[d], d, s.rows);
    var j :| 0 <= j < |s.rows| && Guards(s.locks[d], d, s.rows[j]);
    assert i != j;
    assert s.rows[i].driverId == s.rows[j].driverId;
  }
}
