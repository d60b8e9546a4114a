/** The driver service: the driver's row, its mirror in Redis, the geo set and the driver events. */
module DriverService {
  import opened Common
  import opened DispatchSpec

  datatype Driver = Driver(status: DriverStatus, lastLat: Option<real>, lastLng: Option<real>)

  datatype DriverAction = Accept | Decline | Complete | Cancel

  datatype UpdateDriverStatus = UpdateDriverStatus(
    status: DriverStatus,
    action: Option<DriverAction>,
    latitude: Option<real>,
    longitude: Option<real>,
    orderId: Option<OrderId>)

  datatype Stores = Stores(
    drivers: map<DriverId, Driver>,          // Postgres
    statuses: map<DriverId, DriverStatus>,   // Redis driver:{id}:status
    geo: GeoSet,                             // Redis drivers:geo
    events: seq<DriverLifecycleEvent>,       // topic driver.events
    emits: nat)

  datatype Reply = Updated | NotFound | BadRequest | EmitFailed

  datatype Result = Result(s: Stores, reply: Reply)

  function ResolveEventType(action: Option<DriverAction>): DriverEventType {
    match action
    case Some(Accept) => AssignmentAccepted
    case Some(Decline) => AssignmentRejected
    case Some(Complete) => OrderCompleted
    case Some(Cancel) => OrderCancelled
    case None => StatusChanged
  }

  function Relocated(d: Driver, dto: UpdateDriverStatus): Driver {
    if dto.action == Some(Complete) then Driver(dto.status, dto.latitude, dto.longitude)
    else d.(status := dto.status)
  }

  function GeoAfter(geo: GeoSet, d: DriverId, driver: Driver): GeoSet {
    if driver.status.Available? && driver.lastLat.Some? && driver.lastLng.Some?
    then geo[d := Point(driver.lastLat.value, driver.lastLng.value)]
    else if driver.status.Offline? then geo - {d}
    else geo
  }

  function Patch(emitOk: nat -> bool, s: Stores, d: DriverId, dto: UpdateDriverStatus): Result {
    if d !in s.drivers then Result(s, NotFound)
    else if dto.action == Some(Complete) && (dto.latitude.None? || dto.longitude.None?) then Result(s, BadRequest)
    else
      var driver := Relocated(s.drivers[d], dto);
      var e := DriverLifecycleEvent(Some(ResolveEventType(dto.action)), Some(d), dto.orderId);
      var ok := emitOk(s.emits);
      Result(Stores(s.drivers[d := driver], s.statuses[d := dto.status], GeoAfter(s.geo, d, driver),
                    if ok then s.events + [e] else s.events, s.emits + 1),
             if ok then Updated else EmitFailed)
  }

  /** A dispatch event changes the driver's status, but never its place. For an unknown driver the update
      of the row throws before anything is written. */
  function OfferChange(s: Stores, d: DriverId, status: DriverStatus): Stores {
    if d !in s.drivers then s
    else s.(drivers := s.drivers[d := s.drivers[d].(status := status)], statuses := s.statuses[d := status])
  }

  function Hear(s: Stores, e: DispatchEvent): Stores {
    if e.eventType.AssignmentOffered? then OfferChange(s, e.driverId, DriverStatus.Offered)
    else if e.eventType.AssignmentTimeout? then OfferChange(s, e.driverId, Available)
    else s
  }

  /* What an update leaves behind, told by the stores before and after alone. */

  /** Only this driver's entries may differ. */
  ghost predicate OthersKept(before: Stores, after: Stores, d: DriverId) {
    && after.drivers.Keys == before.drivers.Keys
    && (forall e | e in before.drivers && e != d :: after.drivers[e] == before.drivers[e])
    && (forall e | e != d :: (e in after.statuses <==> e in before.statuses)
                             && (e in before.statuses ==> after.statuses[e] == before.statuses[e]))
    && (forall e | e != d :: (e in after.geo <==> e in before.geo) && (e in before.geo ==> after.geo[e] == before.geo[e]))
  }

  /** Who goes AVAILABLE at a known place can be found there, who goes OFFLINE cannot be found, and any other
      update leaves where the driver can be found alone. */
  ghost predicate Findable(before: GeoSet, after: GeoSet, d: DriverId, status: DriverStatus, driver: Driver) {
    if status == Available && driver.lastLat.Some? && driver.lastLng.Some?
    then d in after && after[d].latitude == driver.lastLat.value && after[d].longitude == driver.lastLng.value
    else if status == Offline then d !in after
    else (d in after <==> d in before) && (d in before ==> after[d] == before[d])
  }

  /** An update of a driver nobody knows, or a completion without a place, is refused and changes nothing. Any
      other is stored whether or not its event can be sent: the status in row and Redis, the place of a completed
      order, where the driver can be found, and the event, named after the action. */
  lemma UpdateOutcome(emitOk: nat -> bool, s: Stores, d: DriverId, dto: UpdateDriverStatus)
    ensures var r := Patch(emitOk, s, d, dto);
            if d !in s.drivers then r == Result(s, NotFound)
            else if dto.action == Some(Complete) && (dto.latitude.None? || dto.longitude.None?)
            then r == Result(s, BadRequest)
            else
              && r.reply == (if emitOk(s.emits) then Updated else EmitFailed) && r.s.emits == s.emits + 1
              && OthersKept(s, r.s, d)
              && d in r.s.drivers && r.s.drivers[d].status == dto.status
              && d in r.s.statuses && r.s.statuses[d] == dto.status
              && (if dto.action == Some(Complete)
                  then r.s.drivers[d].lastLat == dto.latitude && r.s.drivers[d].lastLng == dto.longitude
                  else r.s.drivers[d].lastLat == s.drivers[d].lastLat && r.s.drivers[d].lastLng == s.drivers[d].lastLng)
              && Findable(s.geo, r.s.geo, d, dto.status, r.s.drivers[d])
              && (if emitOk(s.emits) then |r.s.events| == |s.events| + 1 && r.s.events[..|s.events|] == s.events
                                          && Names(r.s.events[|s.events|], d, dto)
                  else r.s.events == s.events)
  {
    PatchMovesOnly(emitOk, s, d, dto);
  }

  lemma PatchMovesOnly(emitOk: nat -> bool, s: Stores, d: DriverId, dto: UpdateDriverStatus)
    ensures OthersKept(s, Patch(emitOk, s, d, dto).s, d)
  {
    assert d in s.drivers ==> s.drivers.Keys + {d} == s.drivers.Keys;
  }

  /** The event says who, about which order, and what they did; without an action, that the status changed. */
  ghost predicate Names(e: DriverLifecycleEvent, d: DriverId, dto: UpdateDriverStatus) {
    && e.driverId == Some(d) && e.orderId == dto.orderId && e.eventType.Some?
    && (e.eventType.value.AssignmentAccepted? <==> dto.action == Some(Accept))
    && (e.eventType.value.AssignmentRejected? <==> dto.action == Some(Decline))
    && (e.eventType.value.OrderCompleted? <==> dto.action == Some(Complete))
    && (e.eventType.value.OrderCancelled? <==> dto.action == Some(Cancel))
    && (e.eventType.value.StatusChanged? <==> dto.action == None)
  }

  /** An offer shows a known driver OFFERED and a timeout AVAILABLE, in row and Redis; where the driver is and can
      be found stays, nothing is sent, and other events and unknown drivers change nothing. */
  lemma HearOutcome(s: Stores, e: DispatchEvent)
    ensures var after, d := Hear(s, e), e.driverId;
            var told := if e.eventType == AssignmentOffered then Some(DriverStatus.Offered)
                        else if e.eventType == AssignmentTimeout then Some(Available) else None;
            if told.None? || d !in s.drivers then after == s
            else
              && OthersKept(s, after, d)
              && after.geo == s.geo && after.events == s.events && after.emits == s.emits
              && after.drivers[d].lastLat == s.drivers[d].lastLat && after.drivers[d].lastLng == s.drivers[d].lastLng
              && after.drivers[d].status == told.value
              && d in after.statuses && after.statuses[d] == told.value
  {
    assert e.driverId in s.drivers ==> s.drivers.Keys + {e.driverId} == s.drivers.Keys;
  }

  predicate ConcernsDriver(e: DispatchEvent) {
    e.eventType.AssignmentOffered? || e.eventType.AssignmentTimeout?
  }

  class DriverService {
    const emitOk: nat -> bool
    var drivers: map<DriverId, Driver>
    var statuses: map<DriverId, DriverStatus>
    var geo: GeoSet
    var events: seq<DriverLifecycleEvent>
    var emits: nat

    ghost function Model(): Stores
      reads this
    {
      Stores(drivers, statuses, geo, events, emits)
    }

    constructor (emitOk: nat -> bool, seeded: map<DriverId, Driver>)
      ensures Model() == Stores(seeded, map[], map[], [], 0) && this.emitOk == emitOk
    {
      this.emitOk := emitOk;
      drivers, statuses, geo, events, emits := seeded, map[], map[], [], 0;
    }

    method UpdateStatus(d: DriverId, dto: UpdateDriverStatus) returns (reply: Reply)
      modifies this
      ensures Result(Model(), reply) == Patch(emitOk, old(Model()), d, dto)
    {
      if d !in drivers {
        return NotFound;
      }
      var isCompletion := dto.action == Some(Complete);
      if isCompletion && (dto.latitude.None? || dto.longitude.None?) {
        return BadRequest;
      }
      var existing := drivers[d];
      var newLat := if isCompletion then dto.latitude else existing.lastLat;
      var newLng := if isCompletion then dto.longitude else existing.lastLng;
      drivers := drivers[d := Driver(dto.status, newLat, newLng)];
      statuses := statuses[d := dto.status];
      if dto.status.Available? && newLat.Some? && newLng.Some? {
        geo := geo[d := Point(newLat.value, newLng.value)];
      } else if dto.status.Offline? {
        geo := geo - {d};
      }
      var sent := emitOk(emits);
      emits := emits + 1;
      if !sent {
        return EmitFailed;
      }
      events := events + [DriverLifecycleEvent(Some(ResolveEventType(dto.action)), Some(d), dto.orderId)];
      reply := Updated;
    }

    method HandleDispatchOfferChange(d: DriverId, status: DriverStatus) returns (threw: bool)
      modifies this`drivers, this`statuses
      ensures threw == (d !in old(drivers))
      ensures Model() == OfferChange(old(Model()), d, status)
    {
      threw := d !in drivers;
      if threw {
        return;
      }
      drivers := drivers[d := drivers[d].(status := status)];
      statuses := statuses[d := status];
    }

    method HandleDispatchEvents(e: DispatchEvent) returns (threw: bool)
      modifies this`drivers, this`statuses
      ensures threw == (ConcernsDriver(e) && e.driverId !in old(drivers))
      ensures Model() == Hear(old(Model()), e)
    {
      threw := false;
      if e.eventType.AssignmentOffered? {
        threw := HandleDispatchOfferChange(e.driverId, DriverStatus.Offered);
      } else if e.eventType.AssignmentTimeout? {
        threw := HandleDispatchOfferChange(e.driverId, Available);
      }
    }
  }
}
