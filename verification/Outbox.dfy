/** The outbox and its relay: a bounded number of tries per row, 50 rows a sweep, oldest first. */
module Outbox {
  import opened Common

  const BATCH := 50
  const LAST_RETRY := 5

  datatype OutboxStatus = Pending | Processed | Failed

  /** The order.created payload, down to the fields its consumers act on. */
  datatype OrderPayload = OrderPayload(id: OrderId, pickup: Point)

  /** A row's position is its id, and rows stand in order of creation. */
  datatype OutboxRow = OutboxRow(
    aggregateId: OrderId, payload: OrderPayload, status: OutboxStatus, retryCount: nat)

  datatype Message = Message(key: OrderId, payload: OrderPayload)

  /** How one try to publish ends: the emit fails, or it succeeds and marking the row may still throw. */
  datatype Try = Delivered | NotSent | SentNotMarked

  datatype Relay = Relay(
    rows: seq<OutboxRow>,
    published: seq<Message>,   // topic order.created
    tried: seq<nat>)           // the row of every try so far

  function MessageOf(row: OutboxRow): Message {
    Message(row.aggregateId, row.payload)
  }

  function AfterTry(row: OutboxRow, t: Try): OutboxRow {
    if t.Delivered? then row.(status := Processed)
    else row.(retryCount := row.retryCount + 1, status := if row.retryCount >= LAST_RETRY then Failed else Pending)
  }

  function Process(tries: nat -> Try, s: Relay, id: nat): Relay {
    if id >= |s.rows| || !s.rows[id].status.Pending? then s
    else
      var t := tries(|s.tried|);
      Relay(s.rows[id := AfterTry(s.rows[id], t)],
            if t.NotSent? then s.published else s.published + [MessageOf(s.rows[id])],
            s.tried + [id])
  }

  /** Ids of the pending rows among the first n, oldest first. */
  function PendingIds(rows: seq<OutboxRow>, n: nat): seq<nat>
    requires n <= |rows|
  {
    if n == 0 then []
    else if rows[n - 1].status.Pending? then PendingIds(rows, n - 1) + [n - 1]
    else PendingIds(rows, n - 1)
  }

  function Batch(rows: seq<OutboxRow>): seq<nat> {
    var ids := PendingIds(rows, |rows|);
    if |ids| <= BATCH then ids else ids[..BATCH]
  }

  function ProcessAll(tries: nat -> Try, s: Relay, ids: seq<nat>): Relay
    decreases |ids|
  {
    if |ids| == 0 then s else ProcessAll(tries, Process(tries, s, ids[0]), ids[1..])
  }

  datatype Op =
    | Enqueue(orderId: OrderId, payload: OrderPayload)  // an order was created
    | Notified(id: nat)                                 // the in-process event for one row
    | Cron                                              // the sweep

  function Apply(tries: nat -> Try, s: Relay, op: Op): Relay {
    match op
    case Enqueue(o, payload) => s.(rows := s.rows + [OutboxRow(o, payload, Pending, 0)])
    case Notified(id) => Process(tries, s, id)
    case Cron => ProcessAll(tries, s, Batch(s.rows))
  }

  function Run(tries: nat -> Try, s: Relay, ops: seq<Op>): Relay
    decreases |ops|
  {
    if |ops| == 0 then s else Run(tries, Apply(tries, s, ops[0]), ops[1..])
  }

  const EMPTY := Relay([], [], [])

  /* The service. */

  class OutboxRelayService {
    const tries: nat -> Try
    var rows: seq<OutboxRow>
    var published: seq<Message>
    var tried: seq<nat>

    ghost function Model(): Relay
      reads this
    {
      Relay(rows, published, tried)
    }

    constructor (tries: nat -> Try)
      ensures Model() == EMPTY && this.tries == tries
    {
      this.tries := tries;
      rows, published, tried := [], [], [];
    }

    method ProcessSingleEvent(id: nat)
      modifies this`rows, this`published, this`tried
      ensures Model() == Process(tries, old(Model()), id)
    {
      if id >= |rows| || !rows[id].status.Pending? {
        return;
      }
      var event := rows[id];
      var t := tries(|tried|);
      tried := tried + [id];
      if !t.NotSent? {
        published := published + [Message(event.aggregateId, event.payload)];
      }
      if t.Delivered? {
        rows := rows[id := event.(status := Processed)];
      } else {
        rows := rows[id := event.(retryCount := event.retryCount + 1,
                                  status := if event.retryCount >= 5 then Failed else Pending)];
      }
    }

    method HandleCronFallback()
      modifies this`rows, this`published, this`tried
      ensures Model() == Apply(tries, old(Model()), Cron)
    {
      var pendingEvents := Batch(rows);
      for k := 0 to |pendingEvents|
        invariant ProcessAll(tries, old(Model()), pendingEvents) == ProcessAll(tries, Model(), pendingEvents[k..])
      {
        assert pendingEvents[k..][1..] == pendingEvents[k + 1..];
        ProcessSingleEvent(pendingEvents[k]);
      }
      assert pendingEvents[|pendingEvents|..] == [];
    }
  }

  /* Progress: rows leave PENDING for good, and their retry count never falls. */

  ghost predicate Progress(before: seq<OutboxRow>, after: seq<OutboxRow>) {
    && |before| <= |after|
    && forall i | 0 <= i < |before| ::
         && (before[i].status.Pending? || after[i] == before[i])
         && before[i].retryCount <= after[i].retryCount
         && MessageOf(after[i]) == MessageOf(before[i])
  }

  ghost predicate Capped(rows: seq<OutboxRow>) {
    forall i | 0 <= i < |rows| && rows[i].status.Pending? :: rows[i].retryCount <= LAST_RETRY
  }

  lemma {:induction false} ProcessAllProgress(tries: nat -> Try, s: Relay, ids: seq<nat>)
    requires Capped(s.rows)
    ensures var after := ProcessAll(tries, s, ids);
            Capped(after.rows) && Progress(s.rows, after.rows) && |after.rows| == |s.rows|
    decreases |ids|
  {
    if |ids| > 0 {
      ProcessAllProgress(tries, Process(tries, s, ids[0]), ids[1..]);
    }
  }

  lemma ApplyProgress(tries: nat -> Try, s: Relay, op: Op)
    requires Capped(s.rows)
    ensures Capped(Apply(tries, s, op).rows) && Progress(s.rows, Apply(tries, s, op).rows)
  {
    if op.Cron? {
      ProcessAllProgress(tries, s, Batch(s.rows));
    }
  }

  lemma {:induction false} RunProgress(tries: nat -> Try, s: Relay, ops: seq<Op>)
    requires Capped(s.rows)
    ensures Capped(Run(tries, s, ops).rows) && Progress(s.rows, Run(tries, s, ops).rows)
    decreases |ops|
  {
    if |ops| > 0 {
      ApplyProgress(tries, s, ops[0]);
      RunProgress(tries, Apply(tries, s, ops[0]), ops[1..]);
    }
  }

  /* A row within the first 50 pending ones is tried by every sweep. */

  lemma {:induction false} PendingIdsPrefix(rows: seq<OutboxRow>, m: nat, n: nat)
    requires m <= n <= |rows|
    ensures PendingIds(rows, m) <= PendingIds(rows, n)
  {
    if m < n {
      PendingIdsPrefix(rows, m, n - 1);
    }
  }

  lemma OldPendingIsInBatch(rows: seq<OutboxRow>, x: nat)
    requires x < |rows| && rows[x].status.Pending? && |PendingIds(rows, x)| < BATCH
    ensures x in Batch(rows)
  {
    PendingIdsPrefix(rows, x + 1, |rows|);
    var k := |PendingIds(rows, x)|;
    assert PendingIds(rows, x + 1)[k] == x;
    assert PendingIds(rows, |rows|)[k] == x;
    assert Batch(rows)[k] == x;
  }

  lemma {:induction false} SweepTries(tries: nat -> Try, s: Relay, ids: seq<nat>, x: nat)
    requires Capped(s.rows) && x < |s.rows| && x in ids && s.rows[x].status.Pending?
    ensures x < |ProcessAll(tries, s, ids).rows|
    ensures var row := ProcessAll(tries, s, ids).rows[x];
            row.status.Pending? ==> s.rows[x].retryCount < row.retryCount
    decreases |ids|
  {
    var next := Process(tries, s, ids[0]);
    ProcessAllProgress(tries, next, ids[1..]);
    if ids[0] != x {
      SweepTries(tries, next, ids[1..], x);
    }
  }

  /* Ranks only fall. */

  lemma {:induction false} PendingBetweenFalls(before: seq<OutboxRow>, after: seq<OutboxRow>, m: nat, n: nat)
    requires Progress(before, after) && m <= n <= |before|
    ensures |PendingIds(after, n)| - |PendingIds(after, m)| <= |PendingIds(before, n)| - |PendingIds(before, m)|
  {
    if m < n {
      PendingBetweenFalls(before, after, m, n - 1);
    }
  }

  function Crons(ops: seq<Op>): nat {
    if |ops| == 0 then 0 else (if ops[0].Cron? then 1 else 0) + Crons(ops[1..])
  }

  lemma {:induction false} RetriesGrow(tries: nat -> Try, s: Relay, ops: seq<Op>, x: nat)
    requires Capped(s.rows) && x < |s.rows| && |PendingIds(s.rows, x)| < BATCH
    ensures x < |Run(tries, s, ops).rows|
    ensures var row := Run(tries, s, ops).rows[x];
            row.status.Pending? ==> s.rows[x].retryCount + Crons(ops) <= row.retryCount
    decreases |ops|
  {
    RunProgress(tries, s, ops);
    if |ops| > 0 && s.rows[x].status.Pending? {
      var next := Apply(tries, s, ops[0]);
      ApplyProgress(tries, s, ops[0]);
      PendingBetweenFalls(s.rows, next.rows, 0, x);
      if ops[0].Cron? {
        OldPendingIsInBatch(s.rows, x);
        SweepTries(tries, s, Batch(s.rows), x);
      }
      RetriesGrow(tries, next, ops[1..], x);
      RunProgress(tries, next, ops[1..]);
    }
  }

  lemma SixSweepsSettle(tries: nat -> Try, s: Relay, ops: seq<Op>, x: nat)
    requires Capped(s.rows) && x < |s.rows| && |PendingIds(s.rows, x)| < BATCH && Crons(ops) >= LAST_RETRY + 1
    ensures x < |Run(tries, s, ops).rows| && !Run(tries, s, ops).rows[x].status.Pending?
  {
    RunProgress(tries, s, ops);
    RetriesGrow(tries, s, ops, x);
  }

  lemma {:induction false} RankBoundary(rows: seq<OutboxRow>, n: nat, k: nat) returns (b: nat)
    requires n <= |rows| && k <= |PendingIds(rows, n)|
    ensures b <= n && |PendingIds(rows, b)| == k
  {
    b := n;
    while |PendingIds(rows, b)| != k
      invariant b <= n && k <= |PendingIds(rows, b)|
      decreases b
    {
      b := b - 1;
    }
  }

  lemma {:induction false} NoneLeft(rows: seq<OutboxRow>, b: nat)
    requires b <= |rows| && forall i | 0 <= i < b :: !rows[i].status.Pending?
    ensures PendingIds(rows, b) == []
  {
    if b > 0 {
      NoneLeft(rows, b - 1);
    }
  }

  /** Six sweeps clear the 50 oldest pending rows, so a later row moves up by 50. */
  lemma SixSweepsClearABatch(tries: nat -> Try, s: Relay, ops: seq<Op>, x: nat)
    requires Capped(s.rows) && x < |s.rows| && BATCH <= |PendingIds(s.rows, x)| && Crons(ops) >= LAST_RETRY + 1
    ensures x < |Run(tries, s, ops).rows|
    ensures |PendingIds(Run(tries, s, ops).rows, x)| <= |PendingIds(s.rows, x)| - BATCH
  {
    RunProgress(tries, s, ops);
    var after := Run(tries, s, ops).rows;
    var b := RankBoundary(s.rows, x, BATCH);
    forall i | 0 <= i < b ensures !after[i].status.Pending? {
      if s.rows[i].status.Pending? {
        PendingIdsPrefix(s.rows, i + 1, b);
        SixSweepsSettle(tries, s, ops, i);
      }
    }
    NoneLeft(after, b);
    PendingBetweenFalls(s.rows, after, b, x);
  }

  lemma {:induction false} CutAfterCrons(ops: seq<Op>, n: nat) returns (a: seq<Op>, b: seq<Op>)
    requires n <= Crons(ops)
    ensures ops == a + b && Crons(a) == n && Crons(b) == Crons(ops) - n
  {
    if n == 0 {
      a, b := [], ops;
    } else {
      a, b := CutAfterCrons(ops[1..], if ops[0].Cron? then n - 1 else n);
      a := [ops[0]] + a;
      assert a[1..] + b == ops[1..];
    }
  }

  lemma {:induction false} RunJoin(tries: nat -> Try, s: Relay, a: seq<Op>, b: seq<Op>)
    ensures Run(tries, s, a + b) == Run(tries, Run(tries, s, a), b)
    decreases |a|
  {
    if |a| == 0 {
      assert a + b == b;
    } else {
      RunJoin(tries, Apply(tries, s, a[0]), a[1..], b);
      assert (a + b)[1..] == a[1..] + b;
    }
  }

  /** No starvation: a pending row with k older pending rows is settled within
      6 * (k / 50 + 1) sweeps, whatever fails and whatever is enqueued meanwhile. */
  lemma {:induction false} PendingRowIsSettled(tries: nat -> Try, s: Relay, ops: seq<Op>, x: nat)
    requires Capped(s.rows) && x < |s.rows|
    requires Crons(ops) >= (LAST_RETRY + 1) * (|PendingIds(s.rows, x)| / BATCH + 1)
    ensures x < |Run(tries, s, ops).rows| && !Run(tries, s, ops).rows[x].status.Pending?
    decreases |PendingIds(s.rows, x)|
  {
    RunProgress(tries, s, ops);
    var k := |PendingIds(s.rows, x)|;
    if k < BATCH {
      SixSweepsSettle(tries, s, ops, x);
    } else {
      var a, b := CutAfterCrons(ops, LAST_RETRY + 1);
      RunJoin(tries, s, a, b);
      RunProgress(tries, s, a);
      SixSweepsClearABatch(tries, s, a, x);
      PendingRowIsSettled(tries, Run(tries, s, a), b, x);
    }
  }

  /* What one sweep tries. */

  ghost predicate Ascending(ids: seq<nat>) {
    forall j, k | 0 <= j < k < |ids| :: ids[j] < ids[k]
  }

  lemma {:induction false} PendingIdsAreExact(rows: seq<OutboxRow>, n: nat)
    requires n <= |rows|
    ensures Ascending(PendingIds(rows, n))
    ensures forall i :: i in PendingIds(rows, n) <==> 0 <= i < n && rows[i].status.Pending?
  {
    if n > 0 {
      PendingIdsAreExact(rows, n - 1);
      var before := PendingIds(rows, n - 1);
      assert forall k | 0 <= k < |before| :: before[k] in before;
    }
  }

  /** The batch is the oldest 50 pending rows, oldest first: a pending row is left out only by 50 older ones. */
  lemma BatchIsOldest(rows: seq<OutboxRow>)
    ensures var batch := Batch(rows);
            && |batch| <= 50 && Ascending(batch)
            && (forall i | i in batch :: i < |rows| && rows[i].status.Pending?)
            && (forall i | 0 <= i < |rows| && rows[i].status.Pending? && i !in batch ::
                  |batch| == 50 && forall k | k in batch :: k < i)
  {
    PendingIdsAreExact(rows, |rows|);
    var ids, batch := PendingIds(rows, |rows|), Batch(rows);
    assert forall k | 0 <= k < |batch| :: batch[k] == ids[k] && ids[k] in ids;
    forall i | 0 <= i < |rows| && rows[i].status.Pending? && i !in batch
      ensures |batch| == 50 && forall k | k in batch :: k < i
    {
      var at :| 0 <= at < |ids| && ids[at] == i;
      assert at >= |batch|;
    }
  }

  lemma {:induction false} EachIsTried(tries: nat -> Try, s: Relay, ids: seq<nat>)
    requires Ascending(ids) && forall i | i in ids :: i < |s.rows| && s.rows[i].status.Pending?
    ensures ProcessAll(tries, s, ids).tried == s.tried + ids
    decreases |ids|
  {
    if |ids| > 0 {
      var next, rest := Process(tries, s, ids[0]), ids[1..];
      assert ids[0] in ids;
      forall i | i in rest ensures i < |next.rows| && next.rows[i].status.Pending? {
        var k :| 0 <= k < |rest| && rest[k] == i;
        assert ids[k + 1] == i && i in ids;
      }
      EachIsTried(tries, next, rest);
      assert s.tried + ids == s.tried + [ids[0]] + rest;
    }
  }

  /** A sweep tries each row of its batch once, oldest first, and no other; the in-process event tries its row. */
  lemma SweepTriesBatch(tries: nat -> Try, s: Relay, id: nat)
    ensures Apply(tries, s, Cron).tried == s.tried + Batch(s.rows)
    ensures Apply(tries, s, Notified(id)).tried ==
            s.tried + if id < |s.rows| && s.rows[id].status.Pending? then [id] else []
  {
    BatchIsOldest(s.rows);
    EachIsTried(tries, s, Batch(s.rows));
  }

  /* Serial accounting. */

  function TriesOf(tried: seq<nat>, id: nat): nat {
    if |tried| == 0 then 0 else TriesOf(tried[..|tried| - 1], id) + if tried[|tried| - 1] == id then 1 else 0
  }

  /** The rows whose message went out, in order: those of the tries that sent it. */
  function Sent(tries: nat -> Try, tried: seq<nat>): seq<nat> {
    if |tried| == 0 then []
    else
      var n := |tried| - 1;
      if tries(n).NotSent? then Sent(tries, tried[..n]) else Sent(tries, tried[..n]) + [tried[n]]
  }

  /** One of the row's tries both sent the message and marked the row. */
  ghost predicate WasDelivered(tries: nat -> Try, tried: seq<nat>, i: nat) {
    exists k | 0 <= k < |tried| :: tried[k] == i && tries(k).Delivered?
  }

  ghost predicate NoneAfterDelivery(tries: nat -> Try, tried: seq<nat>, i: nat) {
    forall j, k | 0 <= j < k < |tried| && tried[j] == i && tried[k] == i :: !tries(j).Delivered?
  }

  ghost predicate RowAccounted(tries: nat -> Try, s: Relay, i: nat)
    requires i < |s.rows|
  {
    var row := s.rows[i];
    && TriesOf(s.tried, i) == row.retryCount + (if row.status.Processed? then 1 else 0)
    && (row.status.Failed? <==> row.retryCount == LAST_RETRY + 1)
    && row.retryCount <= LAST_RETRY + 1
    && (row.status.Processed? <==> WasDelivered(tries, s.tried, i))
    && NoneAfterDelivery(tries, s.tried, i)
  }

  /** The topic holds exactly the messages of the rows sent, in that order. */
  ghost predicate TopicTells(s: Relay, sent: seq<nat>) {
    && |s.published| == |sent|
    && forall k | 0 <= k < |sent| :: sent[k] < |s.rows| && s.published[k] == MessageOf(s.rows[sent[k]])
  }

  ghost predicate Accounted(tries: nat -> Try, s: Relay) {
    && (forall i | 0 <= i < |s.rows| :: RowAccounted(tries, s, i))
    && (forall k | 0 <= k < |s.tried| :: s.tried[k] < |s.rows|)
    && TopicTells(s, Sent(tries, s.tried))
  }

  lemma SentAppend(tries: nat -> Try, tried: seq<nat>, id: nat)
    ensures Sent(tries, tried + [id]) ==
            Sent(tries, tried) + if tries(|tried|).NotSent? then [] else [id]
    ensures forall i | i in Sent(tries, tried) :: i in Sent(tries, tried + [id])
  {
    assert (tried + [id])[..|tried|] == tried;
  }

  lemma DeliveryAppend(tries: nat -> Try, tried: seq<nat>, id: nat, i: nat)
    ensures WasDelivered(tries, tried + [id], i) <==>
            WasDelivered(tries, tried, i) || (id == i && tries(|tried|).Delivered?)
    ensures NoneAfterDelivery(tries, tried + [id], i) <==>
            NoneAfterDelivery(tries, tried, i) && (id == i ==> !WasDelivered(tries, tried, i))
  {
    var all := tried + [id];
    assert all[|tried|] == id && forall k | 0 <= k < |tried| :: all[k] == tried[k];
    if WasDelivered(tries, tried, i) {
      var k :| 0 <= k < |tried| && tried[k] == i && tries(k).Delivered?;
      assert all[k] == i;
    }
    if NoneAfterDelivery(tries, all, i) {
      forall j, k | 0 <= j < k < |tried| && tried[j] == i && tried[k] == i ensures !tries(j).Delivered? {
        assert all[j] == i && all[k] == i;
      }
    }
  }

  lemma ProcessAccounts(tries: nat -> Try, s: Relay, id: nat)
    requires Accounted(tries, s)
    ensures Accounted(tries, Process(tries, s, id))
  {
    var after := Process(tries, s, id);
    if after != s {
      assert after.tried[..|s.tried|] == s.tried;
      SentAppend(tries, s.tried, id);
      forall i | 0 <= i < |after.rows| ensures RowAccounted(tries, after, i) {
        assert RowAccounted(tries, s, i);
        DeliveryAppend(tries, s.tried, id, i);
      }
    }
  }

  lemma {:induction false} NeverTried(tried: seq<nat>, id: nat)
    requires forall k | 0 <= k < |tried| :: tried[k] < id
    ensures TriesOf(tried, id) == 0
  {
    if |tried| > 0 {
      NeverTried(tried[..|tried| - 1], id);
    }
  }

  lemma {:induction false} ProcessAllAccounts(tries: nat -> Try, s: Relay, ids: seq<nat>)
    requires Accounted(tries, s)
    ensures Accounted(tries, ProcessAll(tries, s, ids))
    decreases |ids|
  {
    if |ids| > 0 {
      ProcessAccounts(tries, s, ids[0]);
      ProcessAllAccounts(tries, Process(tries, s, ids[0]), ids[1..]);
    }
  }

  lemma EnqueueAccounts(tries: nat -> Try, s: Relay, o: OrderId, payload: OrderPayload)
    requires Accounted(tries, s)
    ensures Accounted(tries, Apply(tries, s, Enqueue(o, payload)))
  {
    var after := Apply(tries, s, Enqueue(o, payload));
    NeverTried(s.tried, |s.rows|);
    forall i | 0 <= i < |s.rows| ensures RowAccounted(tries, after, i) {
      assert RowAccounted(tries, s, i);
    }
    assert RowAccounted(tries, after, |s.rows|);
  }

  lemma {:induction false} RunAccounts(tries: nat -> Try, s: Relay, ops: seq<Op>)
    requires Accounted(tries, s)
    ensures Accounted(tries, Run(tries, s, ops))
    decreases |ops|
  {
    if |ops| > 0 {
      match ops[0] {
        case Enqueue(o, payload) => EnqueueAccounts(tries, s, o, payload);
        case Notified(id) => ProcessAccounts(tries, s, id);
        case Cron => ProcessAllAccounts(tries, s, Batch(s.rows));
      }
      RunAccounts(tries, Apply(tries, s, ops[0]), ops[1..]);
    }
  }

  lemma {:induction false} SentIsTried(tries: nat -> Try, tried: seq<nat>, id: nat)
    ensures TriesOf(Sent(tries, tried), id) <= TriesOf(tried, id)
  {
    if |tried| > 0 {
      var n := |tried| - 1;
      var sent := Sent(tries, tried[..n]);
      SentIsTried(tries, tried[..n], id);
      assert (sent + [tried[n]])[..|sent|] == sent;
    }
  }

  /** None of the row's tries sent its message. */
  ghost predicate AllFailedToSend(tries: nat -> Try, tried: seq<nat>, id: nat) {
    forall k | 0 <= k < |tried| && tried[k] == id :: tries(k).NotSent?
  }

  lemma AllFailedFront(tries: nat -> Try, tried: seq<nat>, id: nat)
    requires |tried| > 0
    ensures var n := |tried| - 1;
            AllFailedToSend(tries, tried, id) <==>
            AllFailedToSend(tries, tried[..n], id) && (tried[n] == id ==> tries(n).NotSent?)
  {
    assert forall k | 0 <= k < |tried| - 1 :: tried[..|tried| - 1][k] == tried[k];
  }

  lemma {:induction false} NotSentIffAllFailed(tries: nat -> Try, tried: seq<nat>, id: nat)
    ensures id !in Sent(tries, tried) <==> AllFailedToSend(tries, tried, id)
  {
    if |tried| > 0 {
      AllFailedFront(tries, tried, id);
      NotSentIffAllFailed(tries, tried[..|tried| - 1], id);
    }
  }

  lemma {:induction false} DeliveredIsSent(tries: nat -> Try, tried: seq<nat>, i: nat)
    requires WasDelivered(tries, tried, i)
    ensures i in Sent(tries, tried)
  {
    NotSentIffAllFailed(tries, tried, i);
  }

  /** In serial runs a row is PROCESSED exactly when one of its tries was delivered, which is then its last,
      FAILED exactly after six tries of which none was, and PENDING otherwise. So it is tried, and published,
      at most six times, and it never leaves PROCESSED or FAILED. The topic holds the messages of the rows
      sent, in order, and nothing else. */
  lemma SerialRelayIsBounded(tries: nat -> Try, ops: seq<Op>, more: seq<Op>, i: nat)
    requires i < |Run(tries, EMPTY, ops).rows|
    ensures var s := Run(tries, EMPTY, ops);
            && (s.rows[i].status.Processed? <==> WasDelivered(tries, s.tried, i))
            && (s.rows[i].status.Failed? <==> TriesOf(s.tried, i) == 6 && !WasDelivered(tries, s.tried, i))
            && NoneAfterDelivery(tries, s.tried, i)
            && s.rows[i].retryCount == TriesOf(s.tried, i) - (if s.rows[i].status.Processed? then 1 else 0)
            && TriesOf(Sent(tries, s.tried), i) <= TriesOf(s.tried, i) <= 6
            && (s.rows[i].status.Processed? ==> i in Sent(tries, s.tried))
            && TopicTells(s, Sent(tries, s.tried))
            && (!s.rows[i].status.Pending? ==>
                  i < |Run(tries, s, more).rows| && Run(tries, s, more).rows[i] == s.rows[i])
  {
    RunAccounts(tries, EMPTY, ops);
    RunProgress(tries, EMPTY, ops);
    var s := Run(tries, EMPTY, ops);
    assert RowAccounted(tries, s, i);
    SentIsTried(tries, s.tried, i);
    if s.rows[i].status.Processed? {
      DeliveredIsSent(tries, s.tried, i);
    }
    RunProgress(tries, s, more);
  }

  /** A row that is settled was never published exactly when all of its six tries failed to send it. */
  lemma RowIsLostIff(tries: nat -> Try, ops: seq<Op>, i: nat)
    requires i < |Run(tries, EMPTY, ops).rows| && !Run(tries, EMPTY, ops).rows[i].status.Pending?
    ensures var s := Run(tries, EMPTY, ops);
            i !in Sent(tries, s.tried) <==>
            && TriesOf(s.tried, i) == LAST_RETRY + 1
            && AllFailedToSend(tries, s.tried, i)
  {
    RunAccounts(tries, EMPTY, ops);
    var s := Run(tries, EMPTY, ops);
    assert RowAccounted(tries, s, i);
    NotSentIffAllFailed(tries, s.tried, i);
    if s.rows[i].status.Processed? {
      DeliveredIsSent(tries, s.tried, i);
    }
  }

  /** Where no other row carries the same message, as when every order has one outbox row, the
      topic lacks a settled row's message exactly then. */
  lemma MessageIsLostIff(tries: nat -> Try, ops: seq<Op>, i: nat)
    requires i < |Run(tries, EMPTY, ops).rows| && !Run(tries, EMPTY, ops).rows[i].status.Pending?
    requires var rows := Run(tries, EMPTY, ops).rows;
             forall j | 0 <= j < |rows| && j != i :: MessageOf(rows[j]) != MessageOf(rows[i])
    ensures var s := Run(tries, EMPTY, ops);
            MessageOf(s.rows[i]) !in s.published <==>
            && TriesOf(s.tried, i) == LAST_RETRY + 1
            && AllFailedToSend(tries, s.tried, i)
  {
    RowIsLostIff(tries, ops, i);
    RunAccounts(tries, EMPTY, ops);
    var s := Run(tries, EMPTY, ops);
    var sent := Sent(tries, s.tried);
    if i in sent {
      var k :| 0 <= k < |sent| && sent[k] == i;
      assert s.published[k] == MessageOf(s.rows[i]);
    }
  }

  lemma {:induction false} NothingSent(tries: nat -> Try, tried: seq<nat>)
    requires forall k: nat :: tries(k).NotSent?
    ensures Sent(tries, tried) == []
  {
    if |tried| > 0 {
      NothingSent(tries, tried[..|tried| - 1]);
    }
  }

  /** While nothing can be sent, six sweeps give an order's row up and its message is lost, whatever
      else is enqueued or notified. */
  lemma SilenceLosesOrder(tries: nat -> Try, o: OrderId, payload: OrderPayload, ops: seq<Op>)
    requires (forall k: nat :: tries(k).NotSent?) && Crons(ops) >= LAST_RETRY + 1
    ensures var s := Run(tries, EMPTY, [Enqueue(o, payload)] + ops);
            |s.rows| > 0 && s.rows[0].status.Failed? && s.published == []
  {
    var all := [Enqueue(o, payload)] + ops;
    assert all[1..] == ops;
    var s := Run(tries, EMPTY, all);
    SixSweepsSettle(tries, Apply(tries, EMPTY, all[0]), ops, 0);
    RunAccounts(tries, EMPTY, all);
    NothingSent(tries, s.tried);
    assert RowAccounted(tries, s, 0);
    assert !WasDelivered(tries, s.tried, 0);
  }

  const SILENCE: nat -> Try := k => NotSent

  /** It does happen: the broker is away for six sweeps, and the order is never announced. */
  lemma OrderCanBeLost(o: OrderId, payload: OrderPayload)
    ensures var s := Run(SILENCE, EMPTY, [Enqueue(o, payload), Cron, Cron, Cron, Cron, Cron, Cron]);
            |s.rows| > 0 && s.rows[0].status.Failed? && s.published == []
  {
    var crons := [Cron, Cron, Cron, Cron, Cron, Cron];
    SilenceLosesOrder(SILENCE, o, payload, crons);
    assert [Enqueue(o, payload)] + crons == [Enqueue(o, payload), Cron, Cron, Cron, Cron, Cron, Cron];
  }
}
