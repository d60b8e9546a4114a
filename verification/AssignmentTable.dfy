/** The dispatch service's `assignments` table and the queries it runs on it.
    A row's position is its id: rows are only ever appended and updated in place. */
module AssignmentTable {
  import opened Common

  type AssignmentId = nat

  datatype AssignmentStatus = Offered | Confirmed | Rejected | TimedOut | Cancelled | Completed

  datatype Assignment = Assignment(
    orderId: OrderId,
    driverId: DriverId,
    status: AssignmentStatus,
    attempt: nat,
    pickup: Point,
    expiresAt: nat)

  type Table = seq<Assignment>

  /** Statuses that leave the order free for another offer. */
  predicate Retriable(status: AssignmentStatus) {
    status.Rejected? || status.TimedOut?
  }

  /** Statuses that stop the retry sweep from offering the order again. */
  predicate Blocking(status: AssignmentStatus) {
    status.Offered? || status.Confirmed? || status.Completed? || status.Cancelled?
  }

  predicate Final(status: AssignmentStatus) {
    status.Completed? || status.Cancelled?
  }

  /** The drivers the order was already offered to. */
  function TriedDrivers(rows: Table, o: OrderId): set<DriverId> {
    set i | 0 <= i < |rows| && rows[i].orderId == o :: rows[i].driverId
  }

  /** The attempt numbers the order has used. */
  function Attempts(rows: Table, o: OrderId): set<nat> {
    set i | 0 <= i < |rows| && rows[i].orderId == o :: rows[i].attempt
  }

  /** The highest attempt number of the order, 0 when it has no row. */
  function LastAttempt(rows: Table, o: OrderId): nat {
    if |rows| == 0 then 0
    else
      var before := LastAttempt(rows[..|rows| - 1], o);
      var last := rows[|rows| - 1];
      if last.orderId == o && before < last.attempt then last.attempt else before
  }

  /** Whether the unique index on (orderId, attempt) already holds this key. */
  predicate Taken(rows: Table, o: OrderId, attempt: nat) {
    exists i | 0 <= i < |rows| :: rows[i].orderId == o && rows[i].attempt == attempt
  }

  /** First row of this order and driver with this status. */
  function FindRow(rows: Table, o: OrderId, d: DriverId, status: AssignmentStatus): (found: Option<AssignmentId>)
    ensures found.Some? ==> found.value < |rows|
    ensures found.Some? ==> rows[found.value].orderId == o && rows[found.value].driverId == d
    ensures found.Some? ==> rows[found.value].status == status
    ensures found.None? ==>
              forall i | 0 <= i < |rows| :: !(rows[i].orderId == o && rows[i].driverId == d && rows[i].status == status)
  {
    if |rows| == 0 then None
    else
      var n := |rows| - 1;
      var earlier := FindRow(rows[..n], o, d, status);
      if earlier.Some? then earlier
      else if rows[n].orderId == o && rows[n].driverId == d && rows[n].status == status then
        assert forall i | 0 <= i < n :: rows[..n][i] == rows[i];
        Some(n)
      else
        assert forall i | 0 <= i < n :: rows[..n][i] == rows[i];
        None
  }

  /** How many rows the order has. */
  function Count(rows: Table, o: OrderId): nat {
    if |rows| == 0 then 0
    else Count(rows[..|rows| - 1], o) + if rows[|rows| - 1].orderId == o then 1 else 0
  }

  ghost predicate HasRow(rows: Table, o: OrderId) {
    exists i | 0 <= i < |rows| :: rows[i].orderId == o
  }

  ghost predicate AllRetriable(rows: Table, o: OrderId) {
    forall i | 0 <= i < |rows| && rows[i].orderId == o :: Retriable(rows[i].status)
  }

  ghost predicate AllAt(rows: Table, o: OrderId, at: Point) {
    forall i | 0 <= i < |rows| && rows[i].orderId == o :: rows[i].pickup == at
  }

  ghost predicate HasPickup(rows: Table, o: OrderId, at: Point) {
    exists i | 0 <= i < |rows| :: rows[i].orderId == o && rows[i].pickup == at
  }

  /* What holds of the table. */

  /** The k-th row of an order carries attempt number k. */
  ghost predicate Numbered(rows: Table) {
    forall i | 0 <= i < |rows| :: rows[i].attempt == Count(rows[..i], rows[i].orderId) + 1
  }

  ghost predicate DistinctDrivers(rows: Table) {
    forall i, j | 0 <= i < j < |rows| && rows[i].orderId == rows[j].orderId ::
      rows[i].driverId != rows[j].driverId
  }

  /** Every row of an order except its newest was rejected or timed out. */
  ghost predicate OnlyNewestOpen(rows: Table) {
    forall i, j | 0 <= i < j < |rows| && rows[i].orderId == rows[j].orderId ::
      Retriable(rows[i].status)
  }

  ghost predicate OnePickup(rows: Table) {
    forall i, j | 0 <= i < j < |rows| && rows[i].orderId == rows[j].orderId ::
      rows[i].pickup == rows[j].pickup
  }

  ghost predicate Chain(rows: Table) {
    Numbered(rows) && DistinctDrivers(rows) && OnlyNewestOpen(rows) && OnePickup(rows)
  }

  /* How a table may change. */

  predicate MovesTo(before: AssignmentStatus, after: AssignmentStatus) {
    before == after || before.Offered? || (before.Confirmed? && Final(after))
  }

  /** Rows are kept, only their status moves on, and new rows come after them. */
  ghost predicate Evolves(before: Table, after: Table) {
    && |before| <= |after|
    && forall i | 0 <= i < |before| ::
         && after[i] == before[i].(status := after[i].status)
         && MovesTo(before[i].status, after[i].status)
  }

  lemma EvolvesTransitive(a: Table, b: Table, c: Table)
    requires Evolves(a, b) && Evolves(b, c)
    ensures Evolves(a, c)
  {
    forall i | 0 <= i < |a|
      ensures c[i] == a[i].(status := c[i].status) && MovesTo(a[i].status, c[i].status)
    {
      assert b[i] == a[i].(status := b[i].status);
      assert c[i] == b[i].(status := c[i].status);
    }
  }

  /* Counting. */

  lemma {:induction false} CountDependsOnOrders(a: Table, b: Table, o: OrderId)
    requires |a| == |b|
    requires forall i | 0 <= i < |a| :: a[i].orderId == b[i].orderId
    ensures Count(a, o) == Count(b, o)
  {
    if |a| > 0 {
      CountDependsOnOrders(a[..|a| - 1], b[..|b| - 1], o);
    }
  }

  lemma {:induction false} CountMonotone(rows: Table, n: nat, o: OrderId)
    requires n <= |rows|
    ensures Count(rows[..n], o) <= Count(rows, o)
    ensures n < |rows| && rows[n].orderId == o ==> Count(rows[..n], o) < Count(rows, o)
  {
    if n == |rows| {
      assert rows[..n] == rows;
    } else {
      var front := rows[..|rows| - 1];
      CountMonotone(front, n, o);
      assert front[..n] == rows[..n];
    }
  }

  lemma {:induction false} LastAttemptIsHighest(rows: Table, o: OrderId)
    ensures forall i | 0 <= i < |rows| && rows[i].orderId == o :: rows[i].attempt <= LastAttempt(rows, o)
  {
    if |rows| > 0 {
      LastAttemptIsHighest(rows[..|rows| - 1], o);
      forall i | 0 <= i < |rows| && rows[i].orderId == o
        ensures rows[i].attempt <= LastAttempt(rows, o)
      {
        if i < |rows| - 1 {
          assert rows[..|rows| - 1][i] == rows[i];
        }
      }
    }
  }

  lemma NumberedFront(rows: Table, n: nat)
    requires Numbered(rows) && n <= |rows|
    ensures Numbered(rows[..n])
  {
    forall i | 0 <= i < n ensures rows[..n][i].attempt == Count(rows[..n][..i], rows[..n][i].orderId) + 1 {
      assert rows[..n][..i] == rows[..i];
    }
  }

  lemma {:induction false} LastAttemptIsCount(rows: Table, o: OrderId)
    requires Numbered(rows)
    ensures LastAttempt(rows, o) == Count(rows, o)
  {
    if |rows| > 0 {
      var front := rows[..|rows| - 1];
      NumberedFront(rows, |rows| - 1);
      LastAttemptIsCount(front, o);
    }
  }

  lemma {:induction false} CountZero(rows: Table, o: OrderId)
    ensures Count(rows, o) == 0 <==> !HasRow(rows, o)
  {
    if |rows| > 0 {
      var n := |rows| - 1;
      CountZero(rows[..n], o);
      if HasRow(rows[..n], o) {
        var i :| 0 <= i < n && rows[..n][i].orderId == o;
        assert rows[i].orderId == o;
      }
      if HasRow(rows, o) && rows[n].orderId != o {
        var i :| 0 <= i < |rows| && rows[i].orderId == o;
        assert rows[..n][i].orderId == o;
      }
    }
  }

  lemma {:induction false} NoRowNoAttempt(rows: Table, o: OrderId)
    requires !HasRow(rows, o)
    ensures LastAttempt(rows, o) == 0 && TriedDrivers(rows, o) == {}
  {
    if |rows| > 0 {
      var front := rows[..|rows| - 1];
      assert forall i | 0 <= i < |front| :: front[i] == rows[i];
      NoRowNoAttempt(front, o);
    }
  }

  /** The branch for a unique-index violation cannot run when nothing is written
      between reading the last attempt and inserting the next one. */
  lemma NextAttemptIsFree(rows: Table, o: OrderId)
    ensures !Taken(rows, o, LastAttempt(rows, o) + 1)
  {
    LastAttemptIsHighest(rows, o);
  }

  lemma AttemptsAfterAppend(rows: Table, row: Assignment, o: OrderId)
    ensures Attempts(rows + [row], o) == Attempts(rows, o) + if row.orderId == o then {row.attempt} else {}
  {
    var after := rows + [row];
    forall a | a in Attempts(rows, o) ensures a in Attempts(after, o) {
      var i :| 0 <= i < |rows| && rows[i].orderId == o && rows[i].attempt == a;
      assert after[i] == rows[i];
    }
    if row.orderId == o {
      assert after[|rows|] == row;
    }
  }

  lemma AttemptsIncrease(rows: Table, i: nat, j: nat)
    requires Numbered(rows) && i < j < |rows| && rows[i].orderId == rows[j].orderId
    ensures rows[i].attempt < rows[j].attempt
  {
    CountMonotone(rows[..j], i, rows[i].orderId);
    assert rows[..j][..i] == rows[..i];
  }

  /** Numbering said as a set: an order with n rows has exactly the attempts 1 to n. */
  lemma {:induction false} AttemptsAreOneToN(rows: Table, o: OrderId)
    requires Numbered(rows)
    ensures forall k: nat :: k in Attempts(rows, o) <==> 1 <= k <= Count(rows, o)
  {
    if |rows| > 0 {
      var n := |rows| - 1;
      NumberedFront(rows, n);
      AttemptsAreOneToN(rows[..n], o);
      AttemptsAfterAppend(rows[..n], rows[n], o);
      assert rows[..n] + [rows[n]] == rows;
    }
  }

  /** A row that is not free for a re-offer is the newest of its order. */
  lemma OpenRowIsNewest(rows: Table, i: nat)
    requires OnlyNewestOpen(rows) && i < |rows| && !Retriable(rows[i].status)
    ensures forall j | i < j < |rows| :: rows[j].orderId != rows[i].orderId
  {
  }

  /* The two ways the table changes keep the chain. */

  lemma AppendKeepsNumbered(rows: Table, row: Assignment)
    requires Numbered(rows) && row.attempt == Count(rows, row.orderId) + 1
    ensures Numbered(rows + [row])
  {
    var after := rows + [row];
    forall i | 0 <= i < |after| ensures after[i].attempt == Count(after[..i], after[i].orderId) + 1 {
      assert after[..i] == if i < |rows| then rows[..i] else rows;
    }
  }

  lemma AppendKeepsChain(rows: Table, row: Assignment)
    requires Chain(rows)
    requires AllRetriable(rows, row.orderId) && AllAt(rows, row.orderId, row.pickup)
    requires row.driverId !in TriedDrivers(rows, row.orderId)
    requires row.attempt == LastAttempt(rows, row.orderId) + 1
    ensures Chain(rows + [row]) && Evolves(rows, rows + [row])
  {
    LastAttemptIsCount(rows, row.orderId);
    AppendKeepsNumbered(rows, row);
  }

  lemma StatusKeepsNumbered(rows: Table, i: nat, status: AssignmentStatus)
    requires Numbered(rows) && i < |rows|
    ensures Numbered(rows[i := rows[i].(status := status)])
  {
    var after := rows[i := rows[i].(status := status)];
    forall j | 0 <= j < |after| ensures after[j].attempt == Count(after[..j], after[j].orderId) + 1 {
      CountDependsOnOrders(after[..j], rows[..j], after[j].orderId);
    }
  }

  lemma StatusKeepsOnlyNewestOpen(rows: Table, i: nat, status: AssignmentStatus)
    requires OnlyNewestOpen(rows) && i < |rows| && !Retriable(rows[i].status)
    ensures OnlyNewestOpen(rows[i := rows[i].(status := status)])
  {
    OpenRowIsNewest(rows, i);
  }

  lemma StatusKeepsKeys(rows: Table, i: nat, status: AssignmentStatus)
    requires i < |rows|
    ensures DistinctDrivers(rows) ==> DistinctDrivers(rows[i := rows[i].(status := status)])
    ensures OnePickup(rows) ==> OnePickup(rows[i := rows[i].(status := status)])
  {
  }

  lemma StatusKeepsChain(rows: Table, i: nat, status: AssignmentStatus)
    requires Chain(rows) && i < |rows|
    requires !Retriable(rows[i].status) && MovesTo(rows[i].status, status)
    ensures Chain(rows[i := rows[i].(status := status)])
    ensures Evolves(rows, rows[i := rows[i].(status := status)])
  {
    StatusKeepsNumbered(rows, i, status);
    StatusKeepsOnlyNewestOpen(rows, i, status);
    StatusKeepsKeys(rows, i, status);
  }

  /* Consequences of the chain. */

  /** At most one row of an order is offered, confirmed, completed or cancelled. */
  lemma OneActiveRow(rows: Table, i: nat, j: nat)
    requires Chain(rows)
    requires i < |rows| && j < |rows| && rows[i].orderId == rows[j].orderId
    requires Blocking(rows[i].status) && Blocking(rows[j].status)
    ensures i == j && rows[i].attempt == Count(rows, rows[i].orderId)
  {
    OpenRowIsNewest(rows, i);
    OpenRowIsNewest(rows, j);
    CountOfLast(rows, i);
  }

  lemma {:induction false} CountOfLast(rows: Table, i: nat)
    requires i < |rows|
    requires forall j | i < j < |rows| :: rows[j].orderId != rows[i].orderId
    ensures Count(rows, rows[i].orderId) == Count(rows[..i], rows[i].orderId) + 1
  {
    if i < |rows| - 1 {
      CountOfLast(rows[..|rows| - 1], i);
      assert rows[..|rows| - 1][..i] == rows[..i];
    }
  }

  /** A query for an order's row by driver and status has at most one answer. */
  lemma FindRowIsUnique(rows: Table, o: OrderId, d: DriverId, status: AssignmentStatus, i: nat)
    requires Chain(rows) && i < |rows|
    requires rows[i].orderId == o && rows[i].driverId == d && rows[i].status == status
    ensures FindRow(rows, o, d, status) == Some(i)
  {
    var found := FindRow(rows, o, d, status);
    assert found.Some?;
    if found.value != i {
      assert false;
    }
  }

  /** An order never has more rows than there are drivers. */
  lemma {:induction false} OffersBoundedByDrivers(rows: Table, o: OrderId, drivers: set<DriverId>)
    requires DistinctDrivers(rows) && TriedDrivers(rows, o) <= drivers
    ensures Count(rows, o) == |TriedDrivers(rows, o)| <= |drivers|
  {
    TriedCount(rows, o);
    SubsetSize(TriedDrivers(rows, o), drivers);
  }

  lemma {:induction false} TriedCount(rows: Table, o: OrderId)
    requires DistinctDrivers(rows)
    ensures Count(rows, o) == |TriedDrivers(rows, o)|
  {
    if |rows| > 0 {
      var n := |rows| - 1;
      var front := rows[..n];
      TriedCount(front, o);
      TriedAfterAppend(front, rows[n], o);
      assert front + [rows[n]] == rows;
    }
  }

  lemma TriedAfterAppend(rows: Table, row: Assignment, o: OrderId)
    ensures TriedDrivers(rows + [row], o) == TriedDrivers(rows, o) + if row.orderId == o then {row.driverId} else {}
  {
    var after := rows + [row];
    forall d | d in TriedDrivers(rows, o) ensures d in TriedDrivers(after, o) {
      var i :| 0 <= i < |rows| && rows[i].orderId == o && rows[i].driverId == d;
      assert after[i] == rows[i];
    }
    if row.orderId == o {
      assert after[|rows|] == row;
    }
  }

  lemma {:induction false} SubsetSize<T>(a: set<T>, b: set<T>)
    requires a <= b
    ensures |a| <= |b|
  {
    assert b == a + (b - a);
  }
}
