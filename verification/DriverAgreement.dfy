/** Dispatch and driver service together, every event handled before the next operation begins and
    drivers doing only what the control panel offers them: no driver ever serves two orders. */
module DriverAgreement {
  import opened Common
  import opened AssignmentTable
  import opened DispatchSpec
  import opened DispatchMoves
  import opened DriverService

  /** Both services share Redis, which is held in the dispatch state. */
  datatype Sys = Sys(disp: State, drivers: map<DriverId, Driver>)

  function StoresOf(sys: Sys): Stores {
    Stores(sys.drivers, sys.disp.statuses, sys.disp.geo, [], 0)
  }

  function WithStores(disp: State, st: Stores): Sys {
    Sys(disp.(statuses := st.statuses, geo := st.geo), st.drivers)
  }

  function HearAll(st: Stores, events: seq<DispatchEvent>): Stores {
    if |events| == 0 then st else Hear(HearAll(st, events[..|events| - 1]), events[|events| - 1])
  }

  /** The driver service catches up on what a dispatch handler published. */
  function CatchUp(sys: Sys, disp: State): Sys {
    if |sys.disp.log| <= |disp.log|
    then WithStores(disp, HearAll(StoresOf(Sys(disp, sys.drivers)), disp.log[|sys.disp.log|..]))
    else Sys(disp, sys.drivers)
  }

  datatype Op =
    | OrderPlaced(event: OrderCreatedEvent)
    | SweepExpired(ids: seq<AssignmentId>)
    | SweepRetries(pending: seq<Pending>)
    | Wait(ms: nat)
    | GoOnline(driver: DriverId)
    | GoOffline(driver: DriverId)
    | AcceptOffer(driver: DriverId, row: AssignmentId)
    | DeclineOffer(driver: DriverId, row: AssignmentId)
    | CompleteOrder(driver: DriverId, row: AssignmentId)
    | CancelOrder(driver: DriverId, row: AssignmentId)

  predicate Shows(sys: Sys, d: DriverId, status: DriverStatus) {
    d in sys.drivers && sys.drivers[d].status == status
  }

  predicate RowOf(sys: Sys, d: DriverId, i: AssignmentId, status: AssignmentStatus) {
    i < |sys.disp.rows| && sys.disp.rows[i].driverId == d && sys.disp.rows[i].status == status
  }

  /** The panel's buttons: by the driver's status, and on an assignment of theirs with the matching status. */
  ghost predicate Permitted(sys: Sys, op: Op) {
    match op
    case SweepExpired(ids) => IsExpiredListing(sys.disp, ids)
    case SweepRetries(pending) => IsRetryList(sys.disp.rows, pending)
    case GoOnline(d) => Shows(sys, d, Offline)
    case GoOffline(d) => Shows(sys, d, Available)
    case AcceptOffer(d, i) => Shows(sys, d, DriverStatus.Offered) && RowOf(sys, d, i, AssignmentStatus.Offered)
    case DeclineOffer(d, i) => Shows(sys, d, DriverStatus.Offered) && RowOf(sys, d, i, AssignmentStatus.Offered)
    case CompleteOrder(d, i) => Shows(sys, d, Busy) && RowOf(sys, d, i, Confirmed)
    case CancelOrder(d, i) => Shows(sys, d, Busy) && RowOf(sys, d, i, Confirmed)
    case _ => true
  }

  /** The driver service's reply to the button, then dispatch's to the driver event, then the catching up. */
  function Press(env: Env, sys: Sys, d: DriverId, dto: UpdateDriverStatus): Sys {
    var st := Patch(k => true, StoresOf(sys), d, dto).s;
    var told := WithStores(sys.disp, st);
    if |st.events| == 0 then told
    else CatchUp(told, DriverEvent(env, told.disp, st.events[|st.events| - 1]).s)
  }

  function About(sys: Sys, i: AssignmentId, status: DriverStatus, action: DriverAction): UpdateDriverStatus
    requires i < |sys.disp.rows|
  {
    var row := sys.disp.rows[i];
    if action.Complete?
    then UpdateDriverStatus(status, Some(action), Some(row.pickup.latitude), Some(row.pickup.longitude), Some(row.orderId))
    else UpdateDriverStatus(status, Some(action), None, None, Some(row.orderId))
  }

  function Do(env: Env, sys: Sys, op: Op): Sys {
    match op
    case OrderPlaced(e) => CatchUp(sys, OrderCreated(env, sys.disp, e).s)
    case SweepExpired(ids) => CatchUp(sys, ExpirySweep(env, sys.disp, ids).s)
    case SweepRetries(pending) => CatchUp(sys, RetrySweep(env, sys.disp, pending).s)
    case Wait(ms) => sys.(disp := sys.disp.(now := sys.disp.now + ms))
    case GoOnline(d) => Press(env, sys, d, UpdateDriverStatus(Available, None, None, None, None))
    case GoOffline(d) => Press(env, sys, d, UpdateDriverStatus(Offline, None, None, None, None))
    case AcceptOffer(d, i) => if i < |sys.disp.rows| then Press(env, sys, d, About(sys, i, Busy, Accept)) else sys
    case DeclineOffer(d, i) => if i < |sys.disp.rows| then Press(env, sys, d, About(sys, i, Available, Decline)) else sys
    case CompleteOrder(d, i) => if i < |sys.disp.rows| then Press(env, sys, d, About(sys, i, Available, Complete)) else sys
    case CancelOrder(d, i) => if i < |sys.disp.rows| then Press(env, sys, d, About(sys, i, Available, Cancel)) else sys
  }

  ghost predicate IsRun(env: Env, sys: Sys, ops: seq<Op>)
    decreases |ops|
  {
    |ops| == 0 || (Permitted(sys, ops[0]) && IsRun(env, Do(env, sys, ops[0]), ops[1..]))
  }

  function Run(env: Env, sys: Sys, ops: seq<Op>): Sys
    decreases |ops|
  {
    if |ops| == 0 then sys else Run(env, Do(env, sys, ops[0]), ops[1..])
  }

  /* Agreement between rows and statuses. */

  predicate Active(status: AssignmentStatus) {
    status.Offered? || status.Confirmed?
  }

  predicate Is(statuses: map<DriverId, DriverStatus>, d: DriverId, status: DriverStatus) {
    d in statuses && statuses[d] == status
  }

  ghost predicate HasRowWith(rows: Table, d: DriverId, status: AssignmentStatus) {
    exists i | 0 <= i < |rows| :: rows[i].driverId == d && rows[i].status == status
  }

  ghost predicate OneActive(rows: Table) {
    forall i, j | 0 <= i < j < |rows| && rows[i].driverId == rows[j].driverId ::
      !(Active(rows[i].status) && Active(rows[j].status))
  }

  ghost predicate Agree(rows: Table, statuses: map<DriverId, DriverStatus>) {
    && (forall i | 0 <= i < |rows| && rows[i].status.Offered? :: Is(statuses, rows[i].driverId, DriverStatus.Offered))
    && (forall i | 0 <= i < |rows| && rows[i].status.Confirmed? :: Is(statuses, rows[i].driverId, Busy))
    && OneActive(rows)
    && (forall d | Is(statuses, d, DriverStatus.Offered) :: HasRowWith(rows, d, AssignmentStatus.Offered))
    && (forall d | Is(statuses, d, Busy) :: HasRowWith(rows, d, Confirmed))
  }

  lemma AppendedRow(rows: Table, row: Assignment, d: DriverId, status: AssignmentStatus)
    ensures HasRowWith(rows, d, status) ==> HasRowWith(rows + [row], d, status)
    ensures HasRowWith(rows + [row], row.driverId, row.status)
  {
    var after := rows + [row];
    assert after[|rows|] == row;
    if HasRowWith(rows, d, status) {
      var i :| 0 <= i < |rows| && rows[i].driverId == d && rows[i].status == status;
      assert after[i].driverId == d;
    }
  }

  lemma OfferAgrees(rows: Table, statuses: map<DriverId, DriverStatus>, row: Assignment)
    requires Agree(rows, statuses) && row.status.Offered? && Is(statuses, row.driverId, Available)
    ensures Agree(rows + [row], statuses[row.driverId := DriverStatus.Offered])
  {
    var next := statuses[row.driverId := DriverStatus.Offered];
    forall d, status | HasRowWith(rows, d, status)
      ensures HasRowWith(rows + [row], d, status)
    {
      AppendedRow(rows, row, d, status);
    }
    AppendedRow(rows, row, row.driverId, AssignmentStatus.Offered);
    forall d | Is(next, d, DriverStatus.Offered) ensures HasRowWith(rows + [row], d, AssignmentStatus.Offered) {
      assert d == row.driverId || Is(statuses, d, DriverStatus.Offered);
    }
    forall d | Is(next, d, Busy) ensures HasRowWith(rows + [row], d, Confirmed) {
      assert Is(statuses, d, Busy);
    }
  }

  function DriverAfter(status: AssignmentStatus): DriverStatus {
    if status.Confirmed? then Busy else Available
  }

  lemma SettleAgrees(rows: Table, statuses: map<DriverId, DriverStatus>, i: AssignmentId, status: AssignmentStatus)
    requires Agree(rows, statuses) && i < |rows| && Active(rows[i].status) && !status.Offered?
    ensures Agree(rows[i := rows[i].(status := status)], statuses[rows[i].driverId := DriverAfter(status)])
  {
    var mine := rows[i].driverId;
    var after, next := rows[i := rows[i].(status := status)], statuses[mine := DriverAfter(status)];
    assert forall j | 0 <= j < |rows| && j != i && rows[j].driverId == mine :: !Active(rows[j].status);
    assert after[i].driverId == mine && after[i].status == status;
    forall d, st | d != mine && HasRowWith(rows, d, st)
      ensures HasRowWith(after, d, st)
    {
      var j :| 0 <= j < |rows| && rows[j].driverId == d && rows[j].status == st;
      assert after[j] == rows[j];
    }
    forall d | Is(next, d, DriverStatus.Offered) ensures HasRowWith(after, d, AssignmentStatus.Offered) {
      assert d != mine && Is(statuses, d, DriverStatus.Offered);
    }
    forall d | Is(next, d, Busy) ensures HasRowWith(after, d, Confirmed) {
      assert d == mine || Is(statuses, d, Busy);
    }
  }

  /** A driver who was free stays free when going on or off line. */
  lemma ShiftAgrees(rows: Table, statuses: map<DriverId, DriverStatus>, d: DriverId, status: DriverStatus)
    requires Agree(rows, statuses) && !Is(statuses, d, DriverStatus.Offered) && !Is(statuses, d, Busy)
    requires status.Available? || status.Offline?
    ensures Agree(rows, statuses[d := status])
  {
    var next := statuses[d := status];
    forall e | Is(next, e, DriverStatus.Offered) ensures HasRowWith(rows, e, AssignmentStatus.Offered) {
      assert Is(statuses, e, DriverStatus.Offered);
    }
    forall e | Is(next, e, Busy) ensures HasRowWith(rows, e, Confirmed) {
      assert Is(statuses, e, Busy);
    }
  }

  /** The geo set holds exactly the drivers who are not offline and whose place is known, at that place. */
  ghost predicate Placed(drivers: map<DriverId, Driver>, geo: GeoSet) {
    && (forall d | d in geo ::
          && d in drivers && !drivers[d].status.Offline?
          && drivers[d].lastLat == Some(geo[d].latitude) && drivers[d].lastLng == Some(geo[d].longitude))
    && (forall d | d in drivers && !drivers[d].status.Offline? && HasPlace(drivers[d]) :: d in geo)
  }

  predicate HasPlace(driver: Driver) {
    driver.lastLat.Some? && driver.lastLng.Some?
  }

  /** Redis repeats the driver rows; a driver Redis does not know is offline. */
  ghost predicate Mirror(st: Stores) {
    && (forall d | d in st.statuses :: d in st.drivers && st.drivers[d].status == st.statuses[d])
    && (forall d | d in st.drivers && d !in st.statuses :: st.drivers[d].status.Offline?)
    && Placed(st.drivers, st.geo)
  }

  /* Inside one dispatch handler: the driver service has not heard yet. */

  /** `st` is what the driver service had when the handler began, with c events in the log.
      A driver whose status Redis still shows as AVAILABLE though an offer is on its way is locked. */
  ghost predicate Midway(st: Stores, c: nat, s: State) {
    && c <= |s.log| && s.statuses == st.statuses && s.geo == st.geo
    && var heard := HearAll(st, s.log[c..]);
       && Agree(s.rows, heard.statuses) && Mirror(heard)
       && heard.geo == st.geo
       && (forall d | IsAvailable(s, d) :: d in heard.statuses && (heard.statuses[d].Available? || LockHeld(s, d)))
  }

  lemma HearOne(st: Stores, log: seq<DispatchEvent>, c: nat, e: DispatchEvent)
    requires c <= |log|
    ensures HearAll(st, (log + [e])[c..]) == Hear(HearAll(st, log[c..]), e)
  {
    assert (log + [e])[c..] == log[c..] + [e];
    assert (log[c..] + [e])[..|log| - c] == log[c..];
  }

  /** What hearing an offer or a timeout does, for a driver Redis knows. */
  lemma HearWrites(heard: Stores, e: DispatchEvent, status: DriverStatus)
    requires Mirror(heard) && e.driverId in heard.statuses && !heard.statuses[e.driverId].Offline?
    requires (status.Available? && e.eventType.AssignmentTimeout?) || (status.Offered? && e.eventType.AssignmentOffered?)
    ensures var next := Hear(heard, e);
            && Mirror(next) && next.geo == heard.geo && next.statuses == heard.statuses[e.driverId := status]
  {
  }

  /** One more event, about a driver the service knows. */
  lemma HearChange(st: Stores, c: nat, s: State, after: State, e: DispatchEvent, status: DriverStatus)
    requires Midway(st, c, s) && after.log == s.log + [e]
    requires after.statuses == s.statuses && after.geo == s.geo
    requires (status.Available? && e.eventType.AssignmentTimeout?) || (status.Offered? && e.eventType.AssignmentOffered?)
    requires var heard := HearAll(st, s.log[c..]);
             && e.driverId in heard.statuses && !heard.statuses[e.driverId].Offline?
             && Agree(after.rows, heard.statuses[e.driverId := status])
    requires forall d | d != e.driverId && LockHeld(s, d) :: LockHeld(after, d)
    requires status.Available? || LockHeld(after, e.driverId)
    ensures Midway(st, c, after)
  {
    HearOne(st, s.log, c, e);
    HearWrites(HearAll(st, s.log[c..]), e, status);
  }

  lemma InsertMidway(env: Env, st: Stores, c: nat, s: State, m: Move)
    requires BrokerUp(env) && Midway(st, c, s) && m.Insert? && Legal(s, m)
    ensures Midway(st, c, DispatchMoves.Do(env, s, m))
  {
    var o, d := m.orderId, m.driverId;
    InsertWrites(env, s, o, m.pickup, d);
    NextAttemptIsFree(s.rows, o);
    var after := DispatchMoves.Do(env, s, m);
    var row := after.rows[|s.rows|];
    assert after.rows == s.rows + [row];
    OfferAgrees(s.rows, HearAll(st, s.log[c..]).statuses, row);
    HearChange(st, c, s, after, DispatchEvent(AssignmentOffered, o, d, |s.rows|, row.attempt), DriverStatus.Offered);
  }

  lemma TimeOutMidway(env: Env, st: Stores, c: nat, s: State, m: Move)
    requires BrokerUp(env) && Midway(st, c, s) && m.Settle? && m.status.TimedOut? && Legal(s, m)
    ensures Midway(st, c, DispatchMoves.Do(env, s, m))
  {
    var after := DispatchMoves.Do(env, s, m);
    assert after.rows == s.rows[m.row := s.rows[m.row].(status := TimedOut)];
    SettleAgrees(s.rows, HearAll(st, s.log[c..]).statuses, m.row, TimedOut);
    HearChange(st, c, s, after, RowEvent(s.rows, m.row, AssignmentTimeout), Available);
  }

  lemma {:induction false} MovesMidway(env: Env, st: Stores, c: nat, s: State, moves: seq<Move>)
    requires BrokerUp(env) && Midway(st, c, s) && AllLegal(env, s, moves)
    requires forall m | m in moves :: m.Insert? || (m.Settle? && m.status.TimedOut?)
    ensures Midway(st, c, DoAll(env, s, moves))
    decreases |moves|
  {
    if |moves| > 0 {
      if moves[0].Insert? {
        InsertMidway(env, st, c, s, moves[0]);
      } else {
        TimeOutMidway(env, st, c, s, moves[0]);
      }
      MovesMidway(env, st, c, DispatchMoves.Do(env, s, moves[0]), moves[1..]);
    }
  }

  /* Between operations. */

  ghost predicate InStep(sys: Sys) {
    Chain(sys.disp.rows) && Agree(sys.disp.rows, sys.disp.statuses) && Mirror(StoresOf(sys))
  }

  lemma StartsMidway(sys: Sys)
    requires InStep(sys)
    ensures Midway(StoresOf(sys), |sys.disp.log|, sys.disp)
  {
    assert sys.disp.log[|sys.disp.log|..] == [];
  }

  lemma CaughtUp(sys: Sys, disp: State)
    requires Chain(disp.rows) && Midway(StoresOf(sys), |sys.disp.log|, disp)
    ensures InStep(CatchUp(sys, disp))
  {
    assert StoresOf(Sys(disp, sys.drivers)) == StoresOf(sys);
    HearKeepsEvents(StoresOf(sys), disp.log[|sys.disp.log|..]);
  }

  lemma {:induction false} HearKeepsEvents(st: Stores, events: seq<DispatchEvent>)
    ensures HearAll(st, events).events == st.events && HearAll(st, events).emits == st.emits
  {
    if |events| > 0 {
      HearKeepsEvents(st, events[..|events| - 1]);
    }
  }

  /** A dispatch operation that no driver caused. */
  lemma SweepInStep(env: Env, sys: Sys, step: Step)
    requires BrokerUp(env) && InStep(sys) && Allowed(sys.disp, step)
    requires step.HandleOrderCreated? || step.HandleExpiredOffers? || step.RetryPendingOrders?
    ensures InStep(CatchUp(sys, Apply(env, sys.disp, step)))
  {
    var moves := StepMoves(env, sys.disp, step);
    MovesKeepChain(env, sys.disp, moves);
    StartsMidway(sys);
    MovesMidway(env, StoresOf(sys), |sys.disp.log|, sys.disp, moves);
    CaughtUp(sys, Apply(env, sys.disp, step));
  }

  lemma PatchPlaces(s: Stores, d: DriverId, dto: UpdateDriverStatus)
    requires d in s.drivers && Placed(s.drivers, s.geo)
    requires dto.action == Some(Complete) ==> dto.latitude.Some? && dto.longitude.Some? && dto.status.Available?
    requires dto.status.Available? || dto.status.Offline? || !s.drivers[d].status.Offline?
    ensures var after := Patch(k => true, s, d, dto).s;
            Placed(after.drivers, after.geo)
  {
    var after := Patch(k => true, s, d, dto).s;
    UpdateOutcome(k => true, s, d, dto);
    forall e | e in after.geo
      ensures e in after.drivers && !after.drivers[e].status.Offline?
      ensures after.drivers[e].lastLat == Some(after.geo[e].latitude)
      ensures after.drivers[e].lastLng == Some(after.geo[e].longitude)
    {
      assert e != d ==> e in s.geo;
    }
  }

  /** What the button itself writes. */
  lemma PressWrites(sys: Sys, d: DriverId, dto: UpdateDriverStatus)
    requires d in sys.drivers
    requires dto.action == Some(Complete) ==> dto.latitude.Some? && dto.longitude.Some? && dto.status.Available?
    requires dto.status.Available? || dto.status.Offline? || !sys.drivers[d].status.Offline?
    requires Mirror(StoresOf(sys))
    ensures var st := Patch(k => true, StoresOf(sys), d, dto).s;
            && st.events == [DriverLifecycleEvent(Some(ResolveEventType(dto.action)), Some(d), dto.orderId)]
            && st.statuses == sys.disp.statuses[d := dto.status]
            && Mirror(StoresOf(WithStores(sys.disp, st)))
  {
    PatchPlaces(StoresOf(sys), d, dto);
  }

  lemma ShiftInStep(env: Env, sys: Sys, d: DriverId, status: DriverStatus)
    requires InStep(sys) && (Shows(sys, d, Offline) || Shows(sys, d, Available))
    requires status.Available? || status.Offline?
    ensures InStep(Press(env, sys, d, UpdateDriverStatus(status, None, None, None, None)))
  {
    var dto := UpdateDriverStatus(status, None, None, None, None);
    PressWrites(sys, d, dto);
    var told := WithStores(sys.disp, Patch(k => true, StoresOf(sys), d, dto).s);
    ShiftAgrees(sys.disp.rows, sys.disp.statuses, d, status);
    assert told.disp.log[|told.disp.log|..] == [];
    StartsMidway(told);
    CaughtUp(told, told.disp);
  }

  function SettledAs(action: DriverAction): AssignmentStatus {
    match action
    case Accept => Confirmed
    case Decline => Rejected
    case Complete => Completed
    case Cancel => Cancelled
  }

  ghost predicate Answers(rows: Table, i: AssignmentId, action: DriverAction) {
    i < |rows| && if action.Accept? || action.Decline? then rows[i].status.Offered? else rows[i].status.Confirmed?
  }

  /** Dispatch settles the very row the driver answered, and offers a declined order again. */
  lemma AnswerIsHandled(env: Env, s: State, i: AssignmentId, action: DriverAction)
    requires Chain(s.rows) && Answers(s.rows, i, action)
    ensures var row, settled := s.rows[i], SettleRow(env, s, i, SettledAs(action)).s;
            var e := DriverLifecycleEvent(Some(ResolveEventType(Some(action))), Some(row.driverId), Some(row.orderId));
            DriverEvent(env, s, e).s ==
            if action.Decline? then Offer(env, settled, row.orderId, row.pickup).s else settled
  {
    FindRowIsUnique(s.rows, s.rows[i].orderId, s.rows[i].driverId, s.rows[i].status, i);
  }

  /** Whatever dispatch does after settling the row, the services are in step once the driver service caught up. */
  lemma AnsweredInStep(env: Env, told: Sys, i: AssignmentId, action: DriverAction, handled: State)
    requires BrokerUp(env) && Chain(told.disp.rows) && Answers(told.disp.rows, i, action)
    requires Mirror(StoresOf(told))
    requires Agree(told.disp.rows[i := told.disp.rows[i].(status := SettledAs(action))], told.disp.statuses)
    requires var row, settled := told.disp.rows[i], SettleRow(env, told.disp, i, SettledAs(action)).s;
             handled == if action.Decline? then Offer(env, settled, row.orderId, row.pickup).s else settled
    ensures InStep(CatchUp(told, handled))
  {
    var m := Settle(i, SettledAs(action));
    var settled := DispatchMoves.Do(env, told.disp, m);
    MoveKeepsChain(env, told.disp, m);
    SettledMidway(env, told, i, SettledAs(action));
    if action.Decline? {
      var moves := SettleThenOfferMoves(env, told.disp, i, Rejected);
      MovesMidway(env, StoresOf(told), |told.disp.log|, settled, moves[1..]);
      MovesKeepChain(env, settled, moves[1..]);
    }
    CaughtUp(told, handled);
  }

  /** A driver's answer to an offer or an order keeps the services in step. */
  lemma AnswerInStep(env: Env, sys: Sys, i: AssignmentId, action: DriverAction)
    requires BrokerUp(env) && InStep(sys) && Answers(sys.disp.rows, i, action)
    ensures InStep(Press(env, sys, sys.disp.rows[i].driverId, About(sys, i, DriverAfter(SettledAs(action)), action)))
  {
    var d := sys.disp.rows[i].driverId;
    var dto := About(sys, i, DriverAfter(SettledAs(action)), action);
    assert Is(sys.disp.statuses, d, DriverStatus.Offered) || Is(sys.disp.statuses, d, Busy);
    PressWrites(sys, d, dto);
    var st := Patch(k => true, StoresOf(sys), d, dto).s;
    var told := WithStores(sys.disp, st);
    SettleAgrees(sys.disp.rows, sys.disp.statuses, i, SettledAs(action));
    AnswerIsHandled(env, told.disp, i, action);
    AnsweredInStep(env, told, i, action, DriverEvent(env, told.disp, st.events[0]).s);
  }

  ghost predicate AnswerIsIn(before: Table, after: Table, i: AssignmentId, action: DriverAction)
    requires i < |before|
  {
    var status := match action
      case Accept => Confirmed
      case Decline => Rejected
      case Complete => Completed
      case Cancel => Cancelled;
    && |before| <= |after| <= |before| + 1
    && after[..|before|] == before[i := before[i].(status := status)]
  }

  lemma HandledAnswerIsIn(env: Env, s: State, i: AssignmentId, action: DriverAction)
    requires Chain(s.rows) && Answers(s.rows, i, action)
    ensures var row := s.rows[i];
            var e := DriverLifecycleEvent(Some(ResolveEventType(Some(action))), Some(row.driverId), Some(row.orderId));
            AnswerIsIn(s.rows, DriverEvent(env, s, e).s.rows, i, action)
  {
    AnswerIsHandled(env, s, i, action);
    var settled := SettleRow(env, s, i, SettledAs(action)).s;
    SettleWrites(env, s, i, SettledAs(action));
    OfferAddsRows(env, settled, s.rows[i].orderId, s.rows[i].pickup);
  }

  lemma OwnerIsKnown(sys: Sys, i: AssignmentId, action: DriverAction)
    requires InStep(sys) && Answers(sys.disp.rows, i, action)
    ensures sys.disp.rows[i].driverId in sys.drivers
  {
    var d := sys.disp.rows[i].driverId;
    assert Is(sys.disp.statuses, d, DriverStatus.Offered) || Is(sys.disp.statuses, d, Busy);
  }

  lemma PressedAnswerIsIn(env: Env, sys: Sys, i: AssignmentId, action: DriverAction)
    requires Chain(sys.disp.rows) && Answers(sys.disp.rows, i, action) && sys.disp.rows[i].driverId in sys.drivers
    ensures var press := Press(env, sys, sys.disp.rows[i].driverId, About(sys, i, DriverAfter(SettledAs(action)), action));
            AnswerIsIn(sys.disp.rows, press.disp.rows, i, action)
  {
    var d := sys.disp.rows[i].driverId;
    var dto := About(sys, i, DriverAfter(SettledAs(action)), action);
    var st := Patch(k => true, StoresOf(sys), d, dto).s;
    var told := WithStores(sys.disp, st);
    assert st.events[|st.events| - 1] ==
           DriverLifecycleEvent(Some(ResolveEventType(Some(action))), Some(d), Some(sys.disp.rows[i].orderId));
    HandledAnswerIsIn(env, told.disp, i, action);
  }

  /** The answer takes effect on the very row: accepted, rejected, completed or cancelled. */
  lemma AnswerTakesEffect(env: Env, sys: Sys, i: AssignmentId, action: DriverAction)
    requires InStep(sys) && Answers(sys.disp.rows, i, action)
    ensures var press := Press(env, sys, sys.disp.rows[i].driverId, About(sys, i, DriverAfter(SettledAs(action)), action));
            AnswerIsIn(sys.disp.rows, press.disp.rows, i, action)
  {
    OwnerIsKnown(sys, i, action);
    PressedAnswerIsIn(env, sys, i, action);
  }

  lemma OfferAddsRows(env: Env, s: State, o: OrderId, at: Point)
    ensures var after := Offer(env, s, o, at).s.rows;
            |s.rows| <= |after| <= |s.rows| + 1 && after[..|s.rows|] == s.rows
  {
    var found := FirstEligible(s, TriedDrivers(s.rows, o), Candidates(env, s.geo, s.geo, at));
    if found.Some? {
      InsertWrites(env, s, o, at, found.value);
    }
  }

  /** Going on line or off line takes effect; who comes on line can be found at their last known place. */
  lemma ShiftTakesEffect(env: Env, sys: Sys, d: DriverId, status: DriverStatus)
    requires d in sys.drivers && (status.Available? || status.Offline?)
    ensures var after := Press(env, sys, d, UpdateDriverStatus(status, None, None, None, None));
            && Shows(after, d, status) && after.disp.rows == sys.disp.rows
            && d in after.disp.statuses && after.disp.statuses[d] == status
            && (status.Offline? ==> d !in after.disp.geo)
            && (status.Available? && HasPlace(sys.drivers[d]) ==>
                  && d in after.disp.geo
                  && after.disp.geo[d] == Point(sys.drivers[d].lastLat.value, sys.drivers[d].lastLng.value))
  {
    var dto := UpdateDriverStatus(status, None, None, None, None);
    UpdateOutcome(k => true, StoresOf(sys), d, dto);
    var told := WithStores(sys.disp, Patch(k => true, StoresOf(sys), d, dto).s);
    assert told.disp.log[|told.disp.log|..] == [];
  }

  lemma SettledMidway(env: Env, told: Sys, i: AssignmentId, status: AssignmentStatus)
    requires BrokerUp(env) && i < |told.disp.rows| && !status.TimedOut? && !status.Offered?
    requires Agree(told.disp.rows[i := told.disp.rows[i].(status := status)], told.disp.statuses)
    requires Mirror(StoresOf(told))
    ensures Midway(StoresOf(told), |told.disp.log|, SettleRow(env, told.disp, i, status).s)
  {
    var s, c := told.disp, |told.disp.log|;
    var after := SettleRow(env, s, i, status).s;
    assert s.log[c..] == [];
    if !status.Rejected? {
      var e := RowEvent(s.rows, i, EventOf(status));
      assert after.log == s.log + [e];
      HearOne(StoresOf(told), s.log, c, e);
    }
  }

  lemma ButtonStaysInStep(env: Env, sys: Sys, op: Op)
    requires BrokerUp(env) && InStep(sys) && Permitted(sys, op)
    requires op.AcceptOffer? || op.DeclineOffer? || op.CompleteOrder? || op.CancelOrder?
    ensures InStep(Do(env, sys, op))
  {
    var action := if op.AcceptOffer? then Accept else if op.DeclineOffer? then Decline
                  else if op.CompleteOrder? then Complete else Cancel;
    AnswerInStep(env, sys, op.row, action);
  }

  lemma DoStaysInStep(env: Env, sys: Sys, op: Op)
    requires BrokerUp(env) && InStep(sys) && Permitted(sys, op)
    ensures InStep(Do(env, sys, op))
  {
    match op
    case OrderPlaced(e) => SweepInStep(env, sys, HandleOrderCreated(e));
    case SweepExpired(ids) => SweepInStep(env, sys, HandleExpiredOffers(ids));
    case SweepRetries(pending) => SweepInStep(env, sys, RetryPendingOrders(pending));
    case Wait(_) =>
    case GoOnline(d) => ShiftInStep(env, sys, d, Available);
    case GoOffline(d) => ShiftInStep(env, sys, d, Offline);
    case _ => ButtonStaysInStep(env, sys, op);
  }

  /* What dispatch goes through meanwhile is a run of its own. */

  ghost predicate IsAnswer(sys: Sys, step: Step, d: DriverId, i: AssignmentId, t: DriverEventType) {
    && i < |sys.disp.rows| && step.HandleDriverEvent?
    && step.driverEvent == DriverLifecycleEvent(Some(t), Some(d), Some(sys.disp.rows[i].orderId))
  }

  /** The one thing dispatch is asked to do. */
  ghost predicate Asks(sys: Sys, op: Op, step: Step) {
    match op
    case OrderPlaced(e) => step == HandleOrderCreated(e)
    case SweepExpired(ids) => step == HandleExpiredOffers(ids)
    case SweepRetries(pending) => step == RetryPendingOrders(pending)
    case Wait(ms) => step == PassTime(ms)
    case AcceptOffer(d, i) => IsAnswer(sys, step, d, i, AssignmentAccepted)
    case DeclineOffer(d, i) => IsAnswer(sys, step, d, i, AssignmentRejected)
    case CompleteOrder(d, i) => IsAnswer(sys, step, d, i, DriverEventType.OrderCompleted)
    case CancelOrder(d, i) => IsAnswer(sys, step, d, i, DriverEventType.OrderCancelled)
    case GoOnline(d) => step == HandleDriverEvent(DriverLifecycleEvent(Some(StatusChanged), Some(d), None))
    case GoOffline(d) => step == HandleDriverEvent(DriverLifecycleEvent(Some(StatusChanged), Some(d), None))
  }

  /** The driver service changes Redis, dispatch does what it is asked, and the driver service changes Redis. */
  ghost function Around(before: State, step: Step, after: State): seq<Step> {
    [DriversChange(before.statuses, before.geo), step, DriversChange(after.statuses, after.geo)]
  }

  lemma AroundRuns(env: Env, s: State, before: State, step: Step, after: State)
    requires before == s.(statuses := before.statuses, geo := before.geo) && Allowed(before, step)
    requires var done := Apply(env, before, step); after == done.(statuses := after.statuses, geo := after.geo)
    ensures DispatchSpec.IsRun(env, s, Around(before, step, after)) && DispatchSpec.Run(env, s, Around(before, step, after)) == after
  {
    var steps := Around(before, step, after);
    var r1, r2 := steps[1..], steps[2..];
    assert r1[1..] == r2 && r2[1..] == [];
    assert DispatchSpec.IsRun(env, after, []) && DispatchSpec.Run(env, after, []) == after;
    var done := Apply(env, before, step);
    assert DispatchSpec.IsRun(env, done, r2) && DispatchSpec.Run(env, done, r2) == after;
    assert DispatchSpec.IsRun(env, before, r1) && DispatchSpec.Run(env, before, r1) == after;
  }

  lemma CatchUpTouchesRedisOnly(sys: Sys, disp: State)
    ensures var after := CatchUp(sys, disp).disp; after == disp.(statuses := after.statuses, geo := after.geo)
  {
  }

  /** The event that a button makes the driver service send. */
  lemma PressAsks(env: Env, sys: Sys, d: DriverId, dto: UpdateDriverStatus) returns (before: State)
    requires d in sys.drivers && (dto.action == Some(Complete) ==> dto.latitude.Some? && dto.longitude.Some?)
    ensures before == sys.disp.(statuses := before.statuses, geo := before.geo)
    ensures var e := DriverLifecycleEvent(Some(ResolveEventType(dto.action)), Some(d), dto.orderId);
            var after := Press(env, sys, d, dto).disp;
            after == DriverEvent(env, before, e).s.(statuses := after.statuses, geo := after.geo)
  {
    var st := Patch(k => true, StoresOf(sys), d, dto).s;
    var told := WithStores(sys.disp, st);
    before := told.disp;
    CatchUpTouchesRedisOnly(told, DriverEvent(env, before, st.events[|st.events| - 1]).s);
  }

  /** Each operation has dispatch do what it asks, and nothing else but see Redis change. */
  lemma DoIsDispatchRun(env: Env, sys: Sys, op: Op) returns (before: State, step: Step)
    requires InStep(sys) && Permitted(sys, op)
    ensures Asks(sys, op, step)
    ensures var after := Do(env, sys, op).disp;
            && DispatchSpec.IsRun(env, sys.disp, Around(before, step, after))
            && DispatchSpec.Run(env, sys.disp, Around(before, step, after)) == after
  {
    before := sys.disp;
    var after := Do(env, sys, op).disp;
    match op
    case OrderPlaced(e) => step := HandleOrderCreated(e); AroundRuns(env, sys.disp, before, step, after);
    case SweepExpired(ids) => step := HandleExpiredOffers(ids); AroundRuns(env, sys.disp, before, step, after);
    case SweepRetries(pending) => step := RetryPendingOrders(pending); AroundRuns(env, sys.disp, before, step, after);
    case Wait(ms) => step := PassTime(ms); AroundRuns(env, sys.disp, before, step, after);
    case _ => before, step := ButtonIsDispatchRun(env, sys, op);
  }

  function DtoOf(sys: Sys, op: Op): UpdateDriverStatus
    requires op.AcceptOffer? || op.DeclineOffer? || op.CompleteOrder? || op.CancelOrder? ==> op.row < |sys.disp.rows|
  {
    match op
    case AcceptOffer(_, i) => About(sys, i, Busy, Accept)
    case DeclineOffer(_, i) => About(sys, i, Available, Decline)
    case CompleteOrder(_, i) => About(sys, i, Available, Complete)
    case CancelOrder(_, i) => About(sys, i, Available, Cancel)
    case GoOffline(_) => UpdateDriverStatus(Offline, None, None, None, None)
    case _ => UpdateDriverStatus(Available, None, None, None, None)
  }

  lemma ButtonIsDispatchRun(env: Env, sys: Sys, op: Op) returns (before: State, step: Step)
    requires Permitted(sys, op) && !op.OrderPlaced? && !op.SweepExpired? && !op.SweepRetries? && !op.Wait?
    ensures Asks(sys, op, step)
    ensures var after := Do(env, sys, op).disp;
            && DispatchSpec.IsRun(env, sys.disp, Around(before, step, after))
            && DispatchSpec.Run(env, sys.disp, Around(before, step, after)) == after
  {
    var dto := DtoOf(sys, op);
    before := PressAsks(env, sys, op.driver, dto);
    step := HandleDriverEvent(DriverLifecycleEvent(Some(ResolveEventType(dto.action)), Some(op.driver), dto.orderId));
    AroundRuns(env, sys.disp, before, step, Do(env, sys, op).disp);
  }

  lemma {:induction false} RunStaysInStep(env: Env, sys: Sys, ops: seq<Op>)
    requires BrokerUp(env) && InStep(sys) && IsRun(env, sys, ops)
    ensures InStep(Run(env, sys, ops))
    decreases |ops|
  {
    if |ops| > 0 {
      DoStaysInStep(env, sys, ops[0]);
      RunStaysInStep(env, Do(env, sys, ops[0]), ops[1..]);
    }
  }

  lemma StatusTellsRows(st: Stores, rows: Table, d: DriverId)
    requires Agree(rows, st.statuses) && Mirror(st) && d in st.drivers
    ensures st.drivers[d].status.Offered? <==> HasRowWith(rows, d, AssignmentStatus.Offered)
    ensures st.drivers[d].status.Busy? <==> HasRowWith(rows, d, Confirmed)
  {
    assert st.drivers[d].status.Offered? <==> Is(st.statuses, d, DriverStatus.Offered);
    assert st.drivers[d].status.Busy? <==> Is(st.statuses, d, Busy);
  }

  /** From seeded drivers who are all offline, in every run: a driver is shown OFFERED exactly when an
      offer of theirs is open, BUSY exactly when an order of theirs is confirmed, and never has two at
      once; the geo set holds exactly the drivers who are not offline and whose place is known, at that place. */
  lemma NoDriverServesTwoOrders(env: Env, seeded: map<DriverId, Driver>, ops: seq<Op>)
    requires BrokerUp(env) && (forall d | d in seeded :: seeded[d].status.Offline?)
    requires IsRun(env, Sys(EMPTY, seeded), ops)
    ensures var sys := Run(env, Sys(EMPTY, seeded), ops);
            && OneActive(sys.disp.rows)
            && Placed(sys.drivers, sys.disp.geo)
            && forall d | d in sys.drivers ::
                 && (sys.drivers[d].status.Offered? <==> HasRowWith(sys.disp.rows, d, AssignmentStatus.Offered))
                 && (sys.drivers[d].status.Busy? <==> HasRowWith(sys.disp.rows, d, Confirmed))
  {
    RunStaysInStep(env, Sys(EMPTY, seeded), ops);
    var sys := Run(env, Sys(EMPTY, seeded), ops);
    forall d | d in sys.drivers
      ensures sys.drivers[d].status.Offered? <==> HasRowWith(sys.disp.rows, d, AssignmentStatus.Offered)
      ensures sys.drivers[d].status.Busy? <==> HasRowWith(sys.disp.rows, d, Confirmed)
    {
      StatusTellsRows(StoresOf(sys), sys.disp.rows, d);
    }
  }
}
