/** Several relay workers at once, interleaved between reading a row, publishing it and updating it.
    Neither the read nor the updates are guarded by the row's status. */
module OutboxWorkers {
  import opened Common
  import opened Outbox

  datatype Worker =
    | Free
    | Publishing(id: nat, seenRetries: nat)
    | Published(id: nat, seenRetries: nat)
    | Refused(id: nat, seenRetries: nat)

  datatype World = World(rows: seq<OutboxRow>, workers: seq<Worker>, published: seq<nat>)

  datatype Step =
    | Hire
    | Enqueue(orderId: OrderId, payload: OrderPayload)
    | Read(worker: nat, id: nat)
    | EmitSucceeds(worker: nat)
    | EmitFails(worker: nat)
    | MarkProcessed(worker: nat)
    | MarkThrows(worker: nat)
    | RecordFailure(worker: nat)

  predicate Enabled(w: World, step: Step) {
    match step
    case Hire => true
    case Enqueue(_, _) => true
    case Read(k, id) => k < |w.workers| && w.workers[k].Free? && id < |w.rows|
    case EmitSucceeds(k) => k < |w.workers| && w.workers[k].Publishing?
    case EmitFails(k) => k < |w.workers| && w.workers[k].Publishing?
    case MarkProcessed(k) => k < |w.workers| && w.workers[k].Published? && w.workers[k].id < |w.rows|
    case MarkThrows(k) => k < |w.workers| && w.workers[k].Published?
    case RecordFailure(k) => k < |w.workers| && w.workers[k].Refused? && w.workers[k].id < |w.rows|
  }

  function Next(w: World, step: Step): World
    requires Enabled(w, step)
  {
    match step
    case Hire => w.(workers := w.workers + [Free])
    case Enqueue(o, payload) => w.(rows := w.rows + [OutboxRow(o, payload, Pending, 0)])
    case Read(k, id) =>
      if w.rows[id].status.Pending?
      then w.(workers := w.workers[k := Publishing(id, w.rows[id].retryCount)])
      else w
    case EmitSucceeds(k) =>
      var p := w.workers[k];
      w.(workers := w.workers[k := Published(p.id, p.seenRetries)], published := w.published + [p.id])
    case EmitFails(k) =>
      var p := w.workers[k];
      w.(workers := w.workers[k := Refused(p.id, p.seenRetries)])
    case MarkProcessed(k) =>
      var p := w.workers[k];
      w.(rows := w.rows[p.id := w.rows[p.id].(status := Processed)], workers := w.workers[k := Free])
    case MarkThrows(k) =>
      var p := w.workers[k];
      w.(workers := w.workers[k := Refused(p.id, p.seenRetries)])
    case RecordFailure(k) =>
      var p := w.workers[k];
      var row := w.rows[p.id];
      w.(rows := w.rows[p.id := row.(retryCount := row.retryCount + 1,
                                     status := if p.seenRetries >= LAST_RETRY then Failed else Pending)],
         workers := w.workers[k := Free])
  }

  ghost predicate Interleaving(w: World, steps: seq<Step>)
    decreases |steps|
  {
    |steps| == 0 || (Enabled(w, steps[0]) && Interleaving(Next(w, steps[0]), steps[1..]))
  }

  ghost function After(w: World, steps: seq<Step>): World
    requires Interleaving(w, steps)
    decreases |steps|
  {
    if |steps| == 0 then w else After(Next(w, steps[0]), steps[1..])
  }

  const EMPTY := World([], [], [])

  ghost predicate Sound(w: World) {
    && (forall i | 0 <= i < |w.rows| ::
          && (w.rows[i].status.Processed? ==> i in w.published)
          && (w.rows[i].status.Failed? ==> w.rows[i].retryCount >= LAST_RETRY + 1))
    && (forall k | 0 <= k < |w.workers| && !w.workers[k].Free? ::
          && w.workers[k].id < |w.rows|
          && w.workers[k].seenRetries <= w.rows[w.workers[k].id].retryCount
          && (w.workers[k].Published? ==> w.workers[k].id in w.published))
  }

  lemma NextIsSound(w: World, step: Step)
    requires Sound(w) && Enabled(w, step)
    ensures Sound(Next(w, step))
  {
  }

  lemma {:induction false} InterleavingIsSound(w: World, steps: seq<Step>)
    requires Sound(w) && Interleaving(w, steps)
    ensures Sound(After(w, steps))
    decreases |steps|
  {
    if |steps| > 0 {
      NextIsSound(w, steps[0]);
      InterleavingIsSound(Next(w, steps[0]), steps[1..]);
    }
  }

  /** However the workers interleave, a PROCESSED row was published and a FAILED one failed six times. */
  lemma ConcurrentRelayIsSound(steps: seq<Step>, i: nat)
    requires Interleaving(EMPTY, steps) && i < |After(EMPTY, steps).rows|
    ensures var w := After(EMPTY, steps);
            && (w.rows[i].status.Processed? ==> i in w.published)
            && (w.rows[i].status.Failed? ==> w.rows[i].retryCount >= LAST_RETRY + 1)
  {
    InterleavingIsSound(EMPTY, steps);
  }

  /* PROCESSED is not final once workers overlap. */

  ghost predicate InFlight(w: World, i: nat) {
    exists k | 0 <= k < |w.workers| :: !w.workers[k].Free? && w.workers[k].id == i
  }

  ghost predicate StaysProcessed(w: World, i: nat) {
    forall steps | Interleaving(w, steps) ::
      i < |After(w, steps).rows| && After(w, steps).rows[i].status.Processed?
  }

  lemma {:induction false} QuietRowStaysProcessed(w: World, steps: seq<Step>, i: nat)
    requires i < |w.rows| && w.rows[i].status.Processed? && !InFlight(w, i)
    requires Interleaving(w, steps)
    ensures i < |After(w, steps).rows| && After(w, steps).rows[i].status.Processed?
    decreases |steps|
  {
    if |steps| > 0 {
      var next := Next(w, steps[0]);
      assert forall k | 0 <= k < |w.workers| && !w.workers[k].Free? :: w.workers[k].id != i;
      assert !InFlight(next, i);
      QuietRowStaysProcessed(next, steps[1..], i);
    }
  }

  lemma StepFirst(w: World, step: Step, rest: seq<Step>)
    requires Enabled(w, step) && Interleaving(Next(w, step), rest)
    ensures Interleaving(w, [step] + rest) && After(w, [step] + rest) == After(Next(w, step), rest)
  {
    assert ([step] + rest)[1..] == rest;
  }

  /** Some interleaving turns the row back, whatever the worker that still holds it is doing. */
  lemma OverlapCanUndo(w: World, k: nat) returns (steps: seq<Step>)
    requires k < |w.workers| && !w.workers[k].Free? && w.workers[k].id < |w.rows|
    ensures Interleaving(w, steps) && |After(w, steps).rows| == |w.rows|
    ensures !After(w, steps).rows[w.workers[k].id].status.Processed?
  {
    if w.workers[k].Refused? {
      steps := [RecordFailure(k)] + [];
      StepFirst(w, RecordFailure(k), []);
    } else {
      var first := if w.workers[k].Publishing? then EmitFails(k) else MarkThrows(k);
      var next := Next(w, first);
      StepFirst(next, RecordFailure(k), []);
      StepFirst(w, first, [RecordFailure(k)] + []);
      steps := [first] + ([RecordFailure(k)] + []);
    }
  }

  /** A PROCESSED row is certain to stay so exactly when no worker still holds it. */
  lemma ProcessedIsFinalIffQuiet(w: World, i: nat)
    requires Sound(w) && i < |w.rows| && w.rows[i].status.Processed?
    ensures StaysProcessed(w, i) <==> !InFlight(w, i)
  {
    if InFlight(w, i) {
      var k :| 0 <= k < |w.workers| && !w.workers[k].Free? && w.workers[k].id == i;
      var steps := OverlapCanUndo(w, k);
      assert Interleaving(w, steps) && !After(w, steps).rows[i].status.Processed?;
    } else {
      forall steps | Interleaving(w, steps)
        ensures i < |After(w, steps).rows| && After(w, steps).rows[i].status.Processed?
      {
        QuietRowStaysProcessed(w, steps, i);
      }
    }
  }

  /** The overlap is reachable: two workers read one pending row, one delivers it and marks it PROCESSED,
      and the other's late failure puts it back to PENDING. */
  lemma DeliveredRowCanBePendingAgain(payload: OrderPayload) returns (steps: seq<Step>, late: seq<Step>)
    ensures Interleaving(EMPTY, steps) && Interleaving(After(EMPTY, steps), late)
    ensures var w := After(EMPTY, steps);
            |w.rows| == 1 && w.rows[0].status.Processed? && w.published == [0]
    ensures var w := After(After(EMPTY, steps), late);
            |w.rows| == 1 && w.rows[0].status.Pending? && w.published == [0]
  {
    var row := OutboxRow(payload.id, payload, Pending, 0);
    var w3 := World([row], [Free, Free], []);
    var w5 := World([row], [Publishing(0, 0), Publishing(0, 0)], []);
    var w7 := World([row.(status := Processed)], [Free, Publishing(0, 0)], [0]);
    var w9 := World([row.(retryCount := 1)], [Free, Free], [0]);
    late := LateFailure(w7, w9);
    steps := FirstDelivers(w5, w7);
    var w4 := Next(w3, Read(0, 0));
    assert Next(w4, Read(1, 0)) == w5;
    StepFirst(w4, Read(1, 0), steps);
    steps := [Read(1, 0)] + steps;
    StepFirst(w3, Read(0, 0), steps);
    steps := [Read(0, 0)] + steps;
    var w1 := Next(EMPTY, Hire);
    var w2 := Next(w1, Hire);
    assert w1.workers == [Free] && w2.workers == [Free, Free];
    assert Next(w2, Step.Enqueue(payload.id, payload)).rows == [row];
    StepFirst(w2, Step.Enqueue(payload.id, payload), steps);
    steps := [Step.Enqueue(payload.id, payload)] + steps;
    StepFirst(w1, Hire, steps);
    steps := [Hire] + steps;
    StepFirst(EMPTY, Hire, steps);
    steps := [Hire] + steps;
  }

  lemma FirstDelivers(w: World, after: World) returns (steps: seq<Step>)
    requires |w.rows| == 1 && |w.workers| == 2 && w.workers[0] == Publishing(0, 0)
    requires after == Next(Next(w, EmitSucceeds(0)), MarkProcessed(0))
    ensures Interleaving(w, steps) && After(w, steps) == after
  {
    steps := TwoSteps(w, EmitSucceeds(0), MarkProcessed(0));
  }

  lemma LateFailure(w: World, after: World) returns (steps: seq<Step>)
    requires |w.rows| == 1 && |w.workers| == 2 && w.workers[1] == Publishing(0, 0)
    requires after == Next(Next(w, EmitFails(1)), RecordFailure(1))
    ensures Interleaving(w, steps) && After(w, steps) == after
  {
    steps := TwoSteps(w, EmitFails(1), RecordFailure(1));
  }

  /* The two granularities agree. */

  /** One worker's try of a row, run without interruption, is the serial relay's. */
  lemma UninterruptedTryIsProcess(w: World, k: nat, tries: nat -> Try, s: Relay, id: nat) returns (steps: seq<Step>)
    requires k < |w.workers| && w.workers[k].Free? && w.rows == s.rows && id < |s.rows|
    ensures Interleaving(w, steps)
    ensures var v, after := After(w, steps), Process(tries, s, id);
            && v.rows == after.rows && v.workers == w.workers
            && v.published == w.published + if |after.published| > |s.published| then [id] else []
  {
    if !w.rows[id].status.Pending? {
      StepFirst(w, Read(k, id), []);
      steps := [Read(k, id)] + [];
    } else {
      var reading := Next(w, Read(k, id));
      match tries(|s.tried|) {
        case Delivered => steps := TwoSteps(reading, EmitSucceeds(k), MarkProcessed(k));
        case NotSent => steps := TwoSteps(reading, EmitFails(k), RecordFailure(k));
        case SentNotMarked =>
          steps := TwoSteps(Next(reading, EmitSucceeds(k)), MarkThrows(k), RecordFailure(k));
          StepFirst(reading, EmitSucceeds(k), steps);
          steps := [EmitSucceeds(k)] + steps;
      }
      StepFirst(w, Read(k, id), steps);
      steps := [Read(k, id)] + steps;
    }
  }

  lemma TwoSteps(w: World, first: Step, second: Step) returns (steps: seq<Step>)
    requires Enabled(w, first) && Enabled(Next(w, first), second)
    ensures Interleaving(w, steps) && After(w, steps) == Next(Next(w, first), second)
  {
    StepFirst(Next(w, first), second, []);
    StepFirst(w, first, [second] + []);
    steps := [first] + ([second] + []);
  }
}
