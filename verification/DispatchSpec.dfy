/** What each handler of the dispatch service does to its stores, as functions of the state
    before it. Handlers run one at a time here; OfferRace and SettleRace interleave them. */
module DispatchSpec {
  import opened Common
  import opened AssignmentTable

  const SEARCH_RADIUS_KM := 5
  const FALLBACK_RADIUS_KM := 5000
  const OFFER_TTL_SECONDS := 30
  const OFFER_TTL_MS := OFFER_TTL_SECONDS * 1000

  datatype EventType =
    | AssignmentOffered
    | AssignmentConfirmed
    | AssignmentTimeout
    | AssignmentCompleted
    | AssignmentCancelled

  datatype DispatchEvent = DispatchEvent(
    eventType: EventType,
    orderId: OrderId,
    driverId: DriverId,
    assignmentId: AssignmentId,
    attempt: nat)

  // Absent and empty fields are alike to the handlers, and are None here.
  datatype OrderCreatedEvent = OrderCreatedEvent(
    id: Option<OrderId>, latitude: Option<real>, longitude: Option<real>)

  datatype DriverEventType =
    | StatusChanged
    | AssignmentAccepted
    | AssignmentRejected
    | OrderCompleted
    | OrderCancelled

  datatype DriverLifecycleEvent = DriverLifecycleEvent(
    eventType: Option<DriverEventType>, driverId: Option<DriverId>, orderId: Option<OrderId>)

  type GeoSet = map<DriverId, Point>

  datatype Lock = Lock(orderId: OrderId, until: nat)

  /** The commands Redis has run on the drivers' lock keys. */
  datatype LockOp =
    | Acquired(driverId: DriverId, orderId: OrderId, at: nat)
    | Released(driverId: DriverId)

  datatype State = State(
    now: nat,                                // milliseconds
    rows: Table,
    statuses: map<DriverId, DriverStatus>,   // Redis driver:{id}:status
    geo: GeoSet,                             // Redis drivers:geo
    locks: map<DriverId, Lock>,              // Redis lock:driver:{id}
    lockOps: seq<LockOp>,
    log: seq<DispatchEvent>,                 // topic dispatch.events
    emits: nat)                              // emits attempted so far

  /** What the service cannot see into: Redis's reply to GEOSEARCH and whether each emit succeeds. */
  datatype Env = Env(search: (GeoSet, Point, nat) -> seq<DriverId>, emitOk: nat -> bool)

  ghost predicate BrokerUp(env: Env) {
    forall k: nat :: env.emitOk(k)
  }

  /** The state a handler leaves, and whether it ended in an exception. */
  datatype Outcome = Outcome(s: State, threw: bool)

  /* Kafka and Redis. */

  function Emit(env: Env, s: State, e: DispatchEvent): Outcome {
    if env.emitOk(s.emits) then Outcome(s.(log := s.log + [e], emits := s.emits + 1), false)
    else Outcome(s.(emits := s.emits + 1), true)
  }

  predicate LockHeld(s: State, d: DriverId) {
    d in s.locks && s.now <= s.locks[d].until
  }

  function Acquire(s: State, d: DriverId, o: OrderId): State {
    s.(locks := s.locks[d := Lock(o, s.now + OFFER_TTL_MS)],
       lockOps := s.lockOps + [Acquired(d, o, s.now)])
  }

  function Release(s: State, d: DriverId): State {
    s.(locks := s.locks - {d}, lockOps := s.lockOps + [Released(d)])
  }

  /* Finding a driver. */

  function Without(s: seq<DriverId>, exclude: set<DriverId>): seq<DriverId> {
    if |s| == 0 then []
    else Without(s[..|s| - 1], exclude) + if s[|s| - 1] in exclude then [] else [s[|s| - 1]]
  }

  function Members(s: seq<DriverId>): set<DriverId> {
    set d | d in s
  }

  /** The narrow search's answer, then the wide search's without the narrow one's.
      Redis may have changed between the two searches. */
  function Candidates(env: Env, geo1: GeoSet, geo2: GeoSet, at: Point): seq<DriverId> {
    var nearby := env.search(geo1, at, SEARCH_RADIUS_KM);
    nearby + Without(env.search(geo2, at, FALLBACK_RADIUS_KM), Members(nearby))
  }

  predicate IsAvailable(s: State, d: DriverId) {
    d in s.statuses && s.statuses[d].Available?
  }

  predicate Eligible(s: State, tried: set<DriverId>, d: DriverId) {
    d !in tried && IsAvailable(s, d) && !LockHeld(s, d)
  }

  function FirstEligible(s: State, tried: set<DriverId>, candidates: seq<DriverId>): Option<DriverId> {
    if |candidates| == 0 then None
    else if Eligible(s, tried, candidates[0]) then Some(candidates[0])
    else FirstEligible(s, tried, candidates[1..])
  }

  predicate AnyUntriedAvailable(s: State, tried: set<DriverId>, candidates: seq<DriverId>) {
    exists d | d in candidates :: d !in tried && IsAvailable(s, d)
  }

  /* Offering. */

  function OfferTo(env: Env, s: State, o: OrderId, at: Point, d: DriverId): Outcome {
    var attempt := LastAttempt(s.rows, o) + 1;
    var locked := Acquire(s, d, o);
    if Taken(s.rows, o, attempt) then Outcome(Release(locked, d), false)
    else
      var row := Assignment(o, d, AssignmentStatus.Offered, attempt, at, s.now + OFFER_TTL_MS);
      var inserted := locked.(rows := s.rows + [row]);
      var sent := Emit(env, inserted, DispatchEvent(AssignmentOffered, o, d, |s.rows|, attempt));
      if sent.threw then Outcome(Release(sent.s, d), true) else sent
  }

  function Offer(env: Env, s: State, o: OrderId, at: Point): Outcome {
    match FirstEligible(s, TriedDrivers(s.rows, o), Candidates(env, s.geo, s.geo, at))
    case None => Outcome(s, false)
    case Some(d) => OfferTo(env, s, o, at, d)
  }

  function OrderCreated(env: Env, s: State, e: OrderCreatedEvent): Outcome {
    if e.id.None? || e.latitude.None? || e.longitude.None? then Outcome(s, false)
    else if exists i | 0 <= i < |s.rows| :: s.rows[i].orderId == e.id.value then Outcome(s, false)
    else Offer(env, s, e.id.value, Point(e.latitude.value, e.longitude.value))
  }

  /* Settling an offer. */

  function SetStatus(s: State, i: AssignmentId, status: AssignmentStatus): State
    requires i < |s.rows|
  {
    s.(rows := s.rows[i := s.rows[i].(status := status)])
  }

  function RowEvent(rows: Table, i: AssignmentId, eventType: EventType): DispatchEvent
    requires i < |rows|
  {
    DispatchEvent(eventType, rows[i].orderId, rows[i].driverId, i, rows[i].attempt)
  }

  function Confirm(env: Env, s: State, o: OrderId, d: DriverId): Outcome {
    match FindRow(s.rows, o, d, AssignmentStatus.Offered)
    case None => Outcome(s, false)
    case Some(i) => Emit(env, SetStatus(s, i, Confirmed), RowEvent(s.rows, i, AssignmentConfirmed))
  }

  function Reject(env: Env, s: State, o: OrderId, d: DriverId): Outcome {
    match FindRow(s.rows, o, d, AssignmentStatus.Offered)
    case None => Outcome(s, false)
    case Some(i) => Offer(env, Release(SetStatus(s, i, Rejected), d), o, s.rows[i].pickup)
  }

  function Finish(env: Env, s: State, o: OrderId, d: DriverId,
                  status: AssignmentStatus, eventType: EventType): Outcome {
    match FindRow(s.rows, o, d, Confirmed)
    case None => Outcome(s, false)
    case Some(i) => Emit(env, Release(SetStatus(s, i, status), d), RowEvent(s.rows, i, eventType))
  }

  function DriverEvent(env: Env, s: State, e: DriverLifecycleEvent): Outcome {
    if e.eventType.None? || e.driverId.None? || e.orderId.None? then Outcome(s, false)
    else
      var o, d := e.orderId.value, e.driverId.value;
      match e.eventType.value
      case AssignmentAccepted => Confirm(env, s, o, d)
      case AssignmentRejected => Reject(env, s, o, d)
      case OrderCompleted => Finish(env, s, o, d, Completed, AssignmentCompleted)
      case OrderCancelled => Finish(env, s, o, d, Cancelled, AssignmentCancelled)
      case StatusChanged => Outcome(s, false)
  }

  /* The timeout sweep. */

  predicate Expired(s: State, i: AssignmentId) {
    i < |s.rows| && s.rows[i].status.Offered? && s.rows[i].expiresAt < s.now
  }

  /** The database's answer to the sweep's query, in whatever order. */
  ghost predicate IsExpiredListing(s: State, ids: seq<AssignmentId>) {
    && NoDuplicates(ids)
    && forall i: AssignmentId :: i in ids <==> Expired(s, i)
  }

  function TimeOut(env: Env, s: State, i: AssignmentId): Outcome
    requires i < |s.rows|
  {
    if !s.rows[i].status.Offered? then Outcome(s, false)
    else
      var row := s.rows[i];
      var sent := Emit(env, Release(SetStatus(s, i, TimedOut), row.driverId), RowEvent(s.rows, i, AssignmentTimeout));
      if sent.threw then sent else Offer(env, sent.s, row.orderId, row.pickup)
  }

  function ExpirySweep(env: Env, s: State, ids: seq<AssignmentId>): Outcome
    decreases |ids|
  {
    if |ids| == 0 then Outcome(s, false)
    else if ids[0] >= |s.rows| then ExpirySweep(env, s, ids[1..])
    else
      var r := TimeOut(env, s, ids[0]);
      if r.threw then r else ExpirySweep(env, r.s, ids[1..])
  }

  /* The retry sweep. */

  datatype Pending = Pending(orderId: OrderId, pickup: Point)

  ghost predicate Lists(pending: seq<Pending>, o: OrderId) {
    exists i | 0 <= i < |pending| :: pending[i].orderId == o
  }

  /** The orders to retry: those with a row, all of whose rows are rejected or timed out, once each,
      with the pickup of one of their rows. */
  ghost predicate IsRetryList(rows: Table, pending: seq<Pending>) {
    && (forall i, j | 0 <= i < j < |pending| :: pending[i].orderId != pending[j].orderId)
    && (forall o :: Lists(pending, o) <==> HasRow(rows, o) && AllRetriable(rows, o))
    && (forall i | 0 <= i < |pending| :: HasPickup(rows, pending[i].orderId, pending[i].pickup))
  }

  function Retry(env: Env, s: State, p: Pending): Outcome {
    if AnyUntriedAvailable(s, TriedDrivers(s.rows, p.orderId), Candidates(env, s.geo, s.geo, p.pickup))
    then Offer(env, s, p.orderId, p.pickup)
    else Outcome(s, false)
  }

  function RetrySweep(env: Env, s: State, pending: seq<Pending>): Outcome
    decreases |pending|
  {
    if |pending| == 0 then Outcome(s, false)
    else
      var r := Retry(env, s, pending[0]);
      if r.threw then r else RetrySweep(env, r.s, pending[1..])
  }

  /* Whole runs. */

  datatype Step =
    | HandleOrderCreated(event: OrderCreatedEvent)
    | HandleDriverEvent(driverEvent: DriverLifecycleEvent)
    | HandleExpiredOffers(ids: seq<AssignmentId>)
    | RetryPendingOrders(pending: seq<Pending>)
    | PassTime(ms: nat)
    | DriversChange(statuses: map<DriverId, DriverStatus>, geo: GeoSet)  // the driver service writes Redis

  ghost predicate Allowed(s: State, step: Step) {
    match step
    case HandleExpiredOffers(ids) => IsExpiredListing(s, ids)
    case RetryPendingOrders(pending) => IsRetryList(s.rows, pending)
    case _ => true
  }

  /** A step's effect; an exception keeps what was already written. */
  function Apply(env: Env, s: State, step: Step): State {
    match step
    case HandleOrderCreated(e) => OrderCreated(env, s, e).s
    case HandleDriverEvent(e) => DriverEvent(env, s, e).s
    case HandleExpiredOffers(ids) => ExpirySweep(env, s, ids).s
    case RetryPendingOrders(pending) => RetrySweep(env, s, pending).s
    case PassTime(ms) => s.(now := s.now + ms)
    case DriversChange(statuses, geo) => s.(statuses := statuses, geo := geo)
  }

  ghost predicate IsRun(env: Env, s: State, steps: seq<Step>)
    decreases |steps|
  {
    |steps| == 0 || (Allowed(s, steps[0]) && IsRun(env, Apply(env, s, steps[0]), steps[1..]))
  }

  function Run(env: Env, s: State, steps: seq<Step>): State
    decreases |steps|
  {
    if |steps| == 0 then s else Run(env, Apply(env, s, steps[0]), steps[1..])
  }

  const EMPTY := State(0, [], map[], map[], map[], [], [], 0)
}
