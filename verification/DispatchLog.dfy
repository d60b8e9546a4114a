/** The events an order's dispatch publishes, when emits succeed: exactly what its rows say. */
module DispatchLog {
  import opened Common
  import opened AssignmentTable
  import opened DispatchSpec
  import opened DispatchMoves

  function OrderLog(log: seq<DispatchEvent>, o: OrderId): seq<DispatchEvent> {
    if |log| == 0 then []
    else
      var n := |log| - 1;
      if log[n].orderId == o then OrderLog(log[..n], o) + [log[n]] else OrderLog(log[..n], o)
  }

  function About(row: Assignment, id: AssignmentId, t: EventType): DispatchEvent {
    DispatchEvent(t, row.orderId, row.driverId, id, row.attempt)
  }

  /** What one row has published. A rejection is silent. */
  function RowEvents(row: Assignment, id: AssignmentId): seq<DispatchEvent> {
    match row.status
    case Offered => [About(row, id, AssignmentOffered)]
    case Rejected => [About(row, id, AssignmentOffered)]
    case TimedOut => [About(row, id, AssignmentOffered), About(row, id, AssignmentTimeout)]
    case Confirmed => [About(row, id, AssignmentOffered), About(row, id, AssignmentConfirmed)]
    case Completed =>
      [About(row, id, AssignmentOffered), About(row, id, AssignmentConfirmed), About(row, id, AssignmentCompleted)]
    case Cancelled =>
      [About(row, id, AssignmentOffered), About(row, id, AssignmentConfirmed), About(row, id, AssignmentCancelled)]
  }

  /** What all rows of an order have published, oldest row first. */
  function Word(rows: Table, o: OrderId): seq<DispatchEvent> {
    if |rows| == 0 then []
    else
      var n := |rows| - 1;
      if rows[n].orderId == o then Word(rows[..n], o) + RowEvents(rows[n], n) else Word(rows[..n], o)
  }

  ghost predicate LogMatches(s: State) {
    forall o :: OrderLog(s.log, o) == Word(s.rows, o)
  }

  lemma {:induction false} WordUnchanged(before: Table, after: Table, o: OrderId)
    requires |before| == |after|
    requires forall i | 0 <= i < |before| :: before[i] == after[i] || (before[i].orderId != o && after[i].orderId != o)
    ensures Word(before, o) == Word(after, o)
  {
    if |before| > 0 {
      WordUnchanged(before[..|before| - 1], after[..|after| - 1], o);
    }
  }

  lemma {:induction false} WordEndsWithNewest(rows: Table, i: AssignmentId)
    requires i < |rows|
    requires forall j | i < j < |rows| :: rows[j].orderId != rows[i].orderId
    ensures Word(rows, rows[i].orderId) == Word(rows[..i], rows[i].orderId) + RowEvents(rows[i], i)
  {
    if i < |rows| - 1 {
      WordEndsWithNewest(rows[..|rows| - 1], i);
      assert rows[..|rows| - 1][..i] == rows[..i];
    }
  }

  lemma OrderLogAppend(log: seq<DispatchEvent>, e: DispatchEvent, o: OrderId)
    ensures OrderLog(log + [e], o) == OrderLog(log, o) + if e.orderId == o then [e] else []
  {
    assert (log + [e])[..|log|] == log;
  }

  lemma InsertKeepsLog(env: Env, s: State, m: Move)
    requires BrokerUp(env) && LogMatches(s) && m.Insert?
    ensures LogMatches(Do(env, s, m))
  {
    InsertWrites(env, s, m.orderId, m.pickup, m.driverId);
    NextAttemptIsFree(s.rows, m.orderId);
    var after := Do(env, s, m);
    var n := |s.rows|;
    assert after.rows[..n] == s.rows;
    var e := DispatchEvent(AssignmentOffered, m.orderId, m.driverId, n, LastAttempt(s.rows, m.orderId) + 1);
    assert after.log == s.log + [e];
    forall o ensures OrderLog(after.log, o) == Word(after.rows, o) {
      OrderLogAppend(s.log, e, o);
      assert RowEvents(after.rows[n], n) == [e];
    }
  }

  lemma SettleExtendsRow(rows: Table, i: AssignmentId, status: AssignmentStatus)
    requires i < |rows|
    requires (rows[i].status.Offered? && (status.Confirmed? || status.Rejected? || status.TimedOut?))
             || (rows[i].status.Confirmed? && Final(status))
    ensures RowEvents(rows[i].(status := status), i) ==
            RowEvents(rows[i], i) + if status.Rejected? then [] else [RowEvent(rows, i, EventOf(status))]
  {
  }

  lemma Regroup(a: seq<DispatchEvent>, b: seq<DispatchEvent>, c: seq<DispatchEvent>)
    ensures a + (b + c) == a + b + c
  {
  }

  /** Settling the newest row of an order adds one event to the order's word, none for a rejection. */
  lemma SettleExtendsWord(rows: Table, i: AssignmentId, status: AssignmentStatus)
    requires Chain(rows) && i < |rows|
    requires (rows[i].status.Offered? && (status.Confirmed? || status.Rejected? || status.TimedOut?))
             || (rows[i].status.Confirmed? && Final(status))
    ensures Word(rows[i := rows[i].(status := status)], rows[i].orderId) ==
            Word(rows, rows[i].orderId) + if status.Rejected? then [] else [RowEvent(rows, i, EventOf(status))]
  {
    OpenRowIsNewest(rows, i);
    UpdateNewest(rows, i, rows[i].(status := status));
    SettleExtendsRow(rows, i, status);
    Regroup(Word(rows[..i], rows[i].orderId), RowEvents(rows[i], i),
            if status.Rejected? then [] else [RowEvent(rows, i, EventOf(status))]);
  }

  lemma UpdateNewest(rows: Table, i: AssignmentId, row: Assignment)
    requires i < |rows| && row.orderId == rows[i].orderId
    requires forall j | i < j < |rows| :: rows[j].orderId != rows[i].orderId
    ensures Word(rows, row.orderId) == Word(rows[..i], row.orderId) + RowEvents(rows[i], i)
    ensures Word(rows[i := row], row.orderId) == Word(rows[..i], row.orderId) + RowEvents(row, i)
  {
    WordEndsWithNewest(rows, i);
    WordEndsWithNewest(rows[i := row], i);
    assert rows[i := row][..i] == rows[..i];
  }

  lemma SettleKeepsLog(env: Env, s: State, m: Move)
    requires BrokerUp(env) && Chain(s.rows) && LogMatches(s) && m.Settle? && Legal(s, m)
    ensures LogMatches(Do(env, s, m))
  {
    var i := m.row;
    var after := Do(env, s, m);
    var e := RowEvent(s.rows, i, EventOf(m.status));
    SettleWrites(env, s, i, m.status);
    if m.status.Rejected? {
      assert after.log == s.log;
    }
    forall p ensures OrderLog(after.log, p) == Word(after.rows, p) {
      OrderLogAppend(s.log, e, p);
      if p == s.rows[i].orderId {
        SettleExtendsWord(s.rows, i, m.status);
      } else {
        WordUnchanged(s.rows, after.rows, p);
      }
    }
  }

  lemma {:induction false} MovesKeepLog(env: Env, s: State, moves: seq<Move>)
    requires BrokerUp(env) && Chain(s.rows) && LogMatches(s) && AllLegal(env, s, moves)
    ensures LogMatches(DoAll(env, s, moves))
    decreases |moves|
  {
    if |moves| > 0 {
      MoveKeepsChain(env, s, moves[0]);
      match moves[0]
      case Insert(_, _, _, _) => InsertKeepsLog(env, s, moves[0]);
      case Settle(_, _) => SettleKeepsLog(env, s, moves[0]);
      case _ =>
    }
    if |moves| > 0 {
      MovesKeepLog(env, Do(env, s, moves[0]), moves[1..]);
    }
  }

  /** In every run with successful emits, each order's log is exactly its rows' word. */
  lemma RunLogMatches(env: Env, steps: seq<Step>)
    requires BrokerUp(env) && IsRun(env, EMPTY, steps)
    ensures LogMatches(Run(env, EMPTY, steps)) && Chain(Run(env, EMPTY, steps).rows)
  {
    var moves := RunMoves(env, EMPTY, steps);
    MovesKeepChain(env, EMPTY, moves);
    MovesKeepLog(env, EMPTY, moves);
  }

  /* The shape of the log, told by a reader that knows nothing of the table. */

  datatype Stage = Waiting | Open | Held | Closed

  datatype Reader = Reader(stage: Stage, attempt: nat, driverId: DriverId, assignmentId: AssignmentId)

  const START := Reader(Waiting, 0, 0, 0)

  predicate Continues(r: Reader, e: DispatchEvent) {
    e.attempt == r.attempt && e.driverId == r.driverId && e.assignmentId == r.assignmentId
  }

  /** Reads one event of an order; None when it could not come next. */
  function Read(r: Reader, e: DispatchEvent): Option<Reader> {
    match e.eventType
    case AssignmentOffered =>
      if (r.stage.Waiting? || r.stage.Open?) && e.attempt == r.attempt + 1
      then Some(Reader(Open, e.attempt, e.driverId, e.assignmentId)) else None
    case AssignmentTimeout => if r.stage.Open? && Continues(r, e) then Some(r.(stage := Waiting)) else None
    case AssignmentConfirmed => if r.stage.Open? && Continues(r, e) then Some(r.(stage := Held)) else None
    case AssignmentCompleted => if r.stage.Held? && Continues(r, e) then Some(r.(stage := Closed)) else None
    case AssignmentCancelled => if r.stage.Held? && Continues(r, e) then Some(r.(stage := Closed)) else None
  }

  function ReadAll(events: seq<DispatchEvent>): Option<Reader> {
    if |events| == 0 then Some(START)
    else
      var before := ReadAll(events[..|events| - 1]);
      if before.None? then None else Read(before.value, events[|events| - 1])
  }

  function StageOf(status: AssignmentStatus): Stage {
    match status
    case Offered => Open
    case Rejected => Open
    case TimedOut => Waiting
    case Confirmed => Held
    case Completed => Closed
    case Cancelled => Closed
  }

  /** The newest row of an order. */
  function Newest(rows: Table, o: OrderId): Option<AssignmentId> {
    if |rows| == 0 then None
    else if rows[|rows| - 1].orderId == o then Some(|rows| - 1)
    else Newest(rows[..|rows| - 1], o)
  }

  lemma {:induction false} NewestIsLast(rows: Table, o: OrderId)
    ensures var n := Newest(rows, o);
            && (n.None? <==> !HasRow(rows, o))
            && (n.Some? ==> n.value < |rows| && rows[n.value].orderId == o)
            && (n.Some? ==> forall j | n.value < j < |rows| :: rows[j].orderId != o)
  {
    if |rows| > 0 && rows[|rows| - 1].orderId != o {
      var front := rows[..|rows| - 1];
      NewestIsLast(front, o);
      if HasRow(rows, o) {
        var i :| 0 <= i < |rows| && rows[i].orderId == o;
        assert front[i].orderId == o;
      }
      if HasRow(front, o) {
        var i :| 0 <= i < |front| && front[i].orderId == o;
        assert rows[i].orderId == o;
      }
      forall j | Newest(rows, o).Some? && Newest(rows, o).value < j < |rows| ensures rows[j].orderId != o {
        if j < |front| { assert front[j].orderId != o; }
      }
    } else if |rows| > 0 {
      assert rows[|rows| - 1].orderId == o;
    }
  }

  /** Where the reader stands after an order's whole word. */
  function ReaderOf(rows: Table, o: OrderId): Reader {
    var n := Newest(rows, o);
    if n.None? || n.value >= |rows| then START
    else Reader(StageOf(rows[n.value].status), rows[n.value].attempt, rows[n.value].driverId, n.value)
  }

  lemma ReadOne(events: seq<DispatchEvent>, e: DispatchEvent)
    ensures ReadAll(events + [e]) == if ReadAll(events).None? then None else Read(ReadAll(events).value, e)
  {
    assert (events + [e])[..|events|] == events;
  }

  /** The reader after one, two and three events of a row. */
  lemma ReadOffered(events: seq<DispatchEvent>, row: Assignment, id: AssignmentId)
    requires ReadAll(events).Some? && (ReadAll(events).value.stage.Waiting? || ReadAll(events).value.stage.Open?)
    requires row.attempt == ReadAll(events).value.attempt + 1
    ensures ReadAll(events + [About(row, id, AssignmentOffered)]) == Some(Reader(Open, row.attempt, row.driverId, id))
  {
    ReadOne(events, About(row, id, AssignmentOffered));
  }

  lemma ReadSecond(events: seq<DispatchEvent>, row: Assignment, id: AssignmentId, t: EventType)
    requires t.AssignmentTimeout? || t.AssignmentConfirmed?
    requires var offered := About(row, id, AssignmentOffered);
             ReadAll(events + [offered]) == Some(Reader(Open, row.attempt, row.driverId, id))
    ensures ReadAll(events + [About(row, id, AssignmentOffered), About(row, id, t)]) ==
            Some(Reader(if t.AssignmentTimeout? then Waiting else Held, row.attempt, row.driverId, id))
  {
    var a, b := About(row, id, AssignmentOffered), About(row, id, t);
    ReadOne(events + [a], b);
    assert events + [a] + [b] == events + [a, b];
  }

  lemma ReadThird(events: seq<DispatchEvent>, row: Assignment, id: AssignmentId, t: EventType)
    requires t.AssignmentCompleted? || t.AssignmentCancelled?
    requires var a, b := About(row, id, AssignmentOffered), About(row, id, AssignmentConfirmed);
             ReadAll(events + [a, b]) == Some(Reader(Held, row.attempt, row.driverId, id))
    ensures ReadAll(events + [About(row, id, AssignmentOffered), About(row, id, AssignmentConfirmed), About(row, id, t)]) ==
            Some(Reader(Closed, row.attempt, row.driverId, id))
  {
    var a, b, c := About(row, id, AssignmentOffered), About(row, id, AssignmentConfirmed), About(row, id, t);
    ReadOne(events + [a, b], c);
    assert events + [a, b] + [c] == events + [a, b, c];
  }

  lemma ReadRow(events: seq<DispatchEvent>, row: Assignment, id: AssignmentId)
    requires ReadAll(events).Some? && (ReadAll(events).value.stage.Waiting? || ReadAll(events).value.stage.Open?)
    requires row.attempt == ReadAll(events).value.attempt + 1
    ensures ReadAll(events + RowEvents(row, id)) == Some(Reader(StageOf(row.status), row.attempt, row.driverId, id))
  {
    ReadOffered(events, row, id);
    if row.status.TimedOut? {
      ReadSecond(events, row, id, AssignmentTimeout);
    } else if row.status.Confirmed? || Final(row.status) {
      ReadSecond(events, row, id, AssignmentConfirmed);
      if Final(row.status) {
        ReadThird(events, row, id, if row.status.Completed? then AssignmentCompleted else AssignmentCancelled);
      }
    }
  }

  lemma ChainOfFront(rows: Table, n: nat)
    requires Chain(rows) && n <= |rows|
    ensures Chain(rows[..n])
  {
    var front := rows[..n];
    forall i | 0 <= i < n ensures front[i].attempt == Count(front[..i], front[i].orderId) + 1 {
      assert front[..i] == rows[..i];
    }
  }

  lemma {:induction false} WordIsReadable(rows: Table, o: OrderId)
    requires Chain(rows)
    ensures ReadAll(Word(rows, o)) == Some(ReaderOf(rows, o))
    ensures ReaderOf(rows, o).attempt == Count(rows, o)
  {
    if |rows| > 0 {
      var n := |rows| - 1;
      var front := rows[..n];
      ChainOfFront(rows, n);
      WordIsReadable(front, o);
      NewestIsLast(front, o);
      if rows[n].orderId == o {
        var m := Newest(front, o);
        assert m.Some? ==> Retriable(rows[m.value].status);
        var r := ReaderOf(front, o);
        assert r.stage.Waiting? || r.stage.Open?;
        assert rows[n].attempt == r.attempt + 1;
        ReadRow(Word(front, o), rows[n], n);
        assert Newest(rows, o) == Some(n);
      }
    }
  }

  /** An order's dispatch log always reads (OFFERED(i) TIMEOUT(i)?) for i = 1..n, then possibly
      CONFIRMED(n), then possibly COMPLETED(n) or CANCELLED(n), each about the i-th row and its driver. */
  lemma OrderLogIsWellFormed(env: Env, steps: seq<Step>, o: OrderId)
    requires BrokerUp(env) && IsRun(env, EMPTY, steps)
    ensures var s := Run(env, EMPTY, steps);
            && ReadAll(OrderLog(s.log, o)) == Some(ReaderOf(s.rows, o))
            && ReaderOf(s.rows, o).attempt == Count(s.rows, o)
  {
    RunLogMatches(env, steps);
    WordIsReadable(Run(env, EMPTY, steps).rows, o);
  }

  /* Counting events against rows. */

  function Events(log: seq<DispatchEvent>, t: EventType): nat {
    if |log| == 0 then 0
    else Events(log[..|log| - 1], t) + if log[|log| - 1].eventType == t then 1 else 0
  }

  /** Whether a row with this status has published an event of this type. */
  predicate CallsFor(status: AssignmentStatus, t: EventType) {
    match t
    case AssignmentOffered => true
    case AssignmentTimeout => status.TimedOut?
    case AssignmentConfirmed => status.Confirmed? || Final(status)
    case AssignmentCompleted => status.Completed?
    case AssignmentCancelled => status.Cancelled?
  }

  function RowsCallingFor(rows: Table, o: OrderId, t: EventType): nat {
    if |rows| == 0 then 0
    else
      var last := rows[|rows| - 1];
      RowsCallingFor(rows[..|rows| - 1], o, t) + if last.orderId == o && CallsFor(last.status, t) then 1 else 0
  }

  lemma {:induction false} EventsJoin(a: seq<DispatchEvent>, b: seq<DispatchEvent>, t: EventType)
    ensures Events(a + b, t) == Events(a, t) + Events(b, t)
  {
    if |b| == 0 {
      assert a + b == a;
    } else {
      EventsJoin(a, b[..|b| - 1], t);
      assert (a + b)[..|a + b| - 1] == a + b[..|b| - 1];
    }
  }

  lemma EventsOfFew(a: DispatchEvent, b: DispatchEvent, c: DispatchEvent, t: EventType)
    ensures Events([a], t) == if a.eventType == t then 1 else 0
    ensures Events([a, b], t) == Events([a], t) + if b.eventType == t then 1 else 0
    ensures Events([a, b, c], t) == Events([a, b], t) + if c.eventType == t then 1 else 0
  {
    assert [a][..0] == [] && [a, b][..1] == [a] && [a, b, c][..2] == [a, b];
  }

  lemma RowEventCounts(row: Assignment, id: AssignmentId, t: EventType)
    ensures Events(RowEvents(row, id), t) == if CallsFor(row.status, t) then 1 else 0
  {
    EventsOfFew(About(row, id, AssignmentOffered),
                About(row, id, if row.status.TimedOut? then AssignmentTimeout else AssignmentConfirmed),
                About(row, id, if row.status.Completed? then AssignmentCompleted else AssignmentCancelled), t);
  }

  lemma {:induction false} WordCounts(rows: Table, o: OrderId, t: EventType)
    ensures Events(Word(rows, o), t) == RowsCallingFor(rows, o, t)
  {
    if |rows| > 0 {
      var n := |rows| - 1;
      WordCounts(rows[..n], o, t);
      if rows[n].orderId == o {
        EventsJoin(Word(rows[..n], o), RowEvents(rows[n], n), t);
        RowEventCounts(rows[n], n, t);
      }
    }
  }

  /** Each kind of event was published exactly once for each row whose status calls for it. */
  lemma EventCountsMatchRows(env: Env, steps: seq<Step>, o: OrderId, t: EventType)
    requires BrokerUp(env) && IsRun(env, EMPTY, steps)
    ensures var s := Run(env, EMPTY, steps);
            Events(OrderLog(s.log, o), t) == RowsCallingFor(s.rows, o, t)
  {
    RunLogMatches(env, steps);
    WordCounts(Run(env, EMPTY, steps).rows, o, t);
  }
}
