/** The tracking service's append-only timeline and its idempotent keys. */
module Timeline {
  import opened Common

  /** A field of a parsed message: a string, something else, or missing. */
  datatype Field = Text(text: string) | NotText

  /** A message, by the fields the service looks at; `others` stands for the rest of it. */
  datatype Event = Event(
    eventType: Field,
    orderId: Field,
    id: Field,
    driverId: Field,
    eventId: Field,
    assignmentId: Field,
    timestamp: Field,
    createdAt: Field,
    others: string)

  datatype Entry = Entry(eventType: string, driverId: Option<string>, payload: Event, occurredAt: int)

  /** The table, by its unique index on (orderId, eventId). */
  type Table = map<(string, string), Entry>

  const ORDER_CREATED := "order.created"

  predicate IsTracked(eventType: string) {
    eventType in {ORDER_CREATED, "ASSIGNMENT_OFFERED", "ASSIGNMENT_ACCEPTED", "ASSIGNMENT_REJECTED",
                  "ASSIGNMENT_TIMEOUT", "ORDER_COMPLETED", "ORDER_CANCELLED"}
  }

  function AsString(f: Field): Option<string> {
    if f.Text? && |f.text| > 0 then Some(f.text) else None
  }

  function FirstOf(a: Option<string>, b: Option<string>): Option<string> {
    if a.Some? then a else b
  }

  function OrderIdOf(e: Event): Option<string> {
    FirstOf(AsString(e.orderId), AsString(e.id))
  }

  predicate Recordable(e: Event) {
    AsString(e.eventType).Some? && OrderIdOf(e).Some? && IsTracked(AsString(e.eventType).value)
  }

  function BuildEventId(e: Event, eventType: string, orderId: string): string {
    if AsString(e.eventId).Some? then AsString(e.eventId).value
    else if eventType == ORDER_CREATED then "order.created:" + orderId
    else if AsString(e.assignmentId).Some? then AsString(e.assignmentId).value + ":" + eventType
    else
      var occurred := FirstOf(AsString(e.timestamp), AsString(e.createdAt));
      orderId + ":" + eventType + ":" + if occurred.Some? then occurred.value else ""
  }

  function KeyOf(e: Event): (string, string)
    requires Recordable(e)
  {
    (OrderIdOf(e).value, BuildEventId(e, AsString(e.eventType).value, OrderIdOf(e).value))
  }

  /** `dates` is the platform's date parser; without a valid date the handling time is used. */
  function OccurredAt(dates: string -> Option<int>, now: int, e: Event): int {
    var raw := FirstOf(AsString(e.timestamp), AsString(e.createdAt));
    if raw.None? || dates(raw.value).None? then now else dates(raw.value).value
  }

  function EntryOf(dates: string -> Option<int>, now: int, e: Event): Entry
    requires Recordable(e)
  {
    Entry(AsString(e.eventType).value, AsString(e.driverId), e, OccurredAt(dates, now, e))
  }

  function Record(dates: string -> Option<int>, now: int, t: Table, e: Event): Table {
    if !Recordable(e) || KeyOf(e) in t then t else t[KeyOf(e) := EntryOf(dates, now, e)]
  }

  class TrackingService {
    const dates: string -> Option<int>
    var timeline: Table

    constructor (dates: string -> Option<int>)
      ensures timeline == map[] && this.dates == dates
    {
      this.dates := dates;
      timeline := map[];
    }

    /** The insert; the unique index refuses a key it already holds. */
    method CreateRow(orderId: string, eventId: string, entry: Entry) returns (created: bool)
      modifies this`timeline
      ensures created == ((orderId, eventId) !in old(timeline))
      ensures timeline == if created then old(timeline)[(orderId, eventId) := entry] else old(timeline)
    {
      created := (orderId, eventId) !in timeline;
      if created {
        timeline := timeline[(orderId, eventId) := entry];
      }
    }

    method RecordEvent(e: Event, now: int)
      modifies this`timeline
      ensures timeline == Record(dates, now, old(timeline), e)
    {
      var eventType := AsString(e.eventType);
      var orderId := FirstOf(AsString(e.orderId), AsString(e.id));
      if eventType.None? || orderId.None? || !IsTracked(eventType.value) {
        return;
      }
      var eventId := BuildEventId(e, eventType.value, orderId.value);
      var occurredAt := OccurredAt(dates, now, e);
      var created := CreateRow(orderId.value, eventId, Entry(eventType.value, AsString(e.driverId), e, occurredAt));
      if !created {
        return;
      }
    }

    method RecordOrderCreated(e: Event, now: int)
      modifies this`timeline
      ensures timeline == Record(dates, now, old(timeline), e.(eventType := Text(ORDER_CREATED)))
    {
      RecordEvent(e.(eventType := Text(ORDER_CREATED)), now);
    }
  }

  /* What one message leaves behind, told by its fields. */

  predicate Has(f: Field) {
    f.Text? && f.text != ""
  }

  ghost predicate IsOneOfSeven(eventType: string) {
    || eventType == "order.created" || eventType == "ASSIGNMENT_OFFERED" || eventType == "ASSIGNMENT_ACCEPTED"
    || eventType == "ASSIGNMENT_REJECTED" || eventType == "ASSIGNMENT_TIMEOUT" || eventType == "ORDER_COMPLETED"
    || eventType == "ORDER_CANCELLED"
  }

  /** One of the seven types, about an order named by `orderId` or else by `id`. */
  ghost predicate Concerns(e: Event, orderId: string) {
    && Has(e.eventType) && IsOneOfSeven(e.eventType.text)
    && if Has(e.orderId) then orderId == e.orderId.text else Has(e.id) && orderId == e.id.text
  }

  /** The key within the order: the message's own id, or else one built from what the message is about. */
  ghost predicate IsKeyOf(e: Event, orderId: string, key: string)
    requires Has(e.eventType)
  {
    if Has(e.eventId) then key == e.eventId.text
    else if e.eventType.text == "order.created" then key == "order.created:" + orderId
    else if Has(e.assignmentId) then key == e.assignmentId.text + ":" + e.eventType.text
    else if Has(e.timestamp) then key == orderId + ":" + e.eventType.text + ":" + e.timestamp.text
    else if Has(e.createdAt) then key == orderId + ":" + e.eventType.text + ":" + e.createdAt.text
    else key == orderId + ":" + e.eventType.text + ":"
  }

  /** The time is the message's own, its `timestamp` or else its `createdAt`, if that is a date. */
  ghost predicate IsTimeOf(dates: string -> Option<int>, now: int, e: Event, time: int) {
    if Has(e.timestamp) then time == (if dates(e.timestamp.text).Some? then dates(e.timestamp.text).value else now)
    else if Has(e.createdAt) then time == (if dates(e.createdAt.text).Some? then dates(e.createdAt.text).value else now)
    else time == now
  }

  ghost predicate TellsMessage(dates: string -> Option<int>, now: int, e: Event, entry: Entry) {
    && Has(e.eventType) && entry.eventType == e.eventType.text
    && entry.driverId == (if Has(e.driverId) then Some(e.driverId.text) else None)
    && entry.payload == e && IsTimeOf(dates, now, e, entry.occurredAt)
  }

  /** A message of another type or about no order changes nothing; neither does one whose key is taken. Any other
      adds one row, under the order it names and its own key, that tells its type, its driver, the whole
      message and its time. */
  lemma RecordOutcome(dates: string -> Option<int>, now: int, t: Table, e: Event)
    ensures var after := Record(dates, now, t, e);
            && ((forall o :: !Concerns(e, o)) ==> after == t)
            && forall o, key | Concerns(e, o) && IsKeyOf(e, o, key) ::
                 if (o, key) in t then after == t
                 else
                   && after.Keys == t.Keys + {(o, key)} && (forall k | k in t :: after[k] == t[k])
                   && TellsMessage(dates, now, e, after[(o, key)])
  {
    if Recordable(e) {
      assert Concerns(e, OrderIdOf(e).value);
    }
    forall o, key | Concerns(e, o) && IsKeyOf(e, o, key) ensures Recordable(e) && KeyOf(e) == (o, key) {
      KeyIsBuilt(e, o, key);
    }
  }

  lemma KeyIsBuilt(e: Event, o: string, key: string)
    requires Concerns(e, o) && IsKeyOf(e, o, key)
    ensures Recordable(e) && KeyOf(e) == (o, key)
  {
    var stem := o + ":" + e.eventType.text + ":";
    assert stem + "" == stem;
  }

  /* Redelivery and order of delivery. */

  function RecordAll(dates: string -> Option<int>, clock: nat -> int, messages: seq<Event>): Table {
    if |messages| == 0 then map[]
    else
      var n := |messages| - 1;
      Record(dates, clock(n), RecordAll(dates, clock, messages[..n]), messages[n])
  }

  /** Messages with one key are deliveries of one message. */
  ghost predicate Coherent(messages: seq<Event>) {
    forall a, b | a in messages && b in messages && Recordable(a) && Recordable(b) && KeyOf(a) == KeyOf(b) :: a == b
  }

  /** Every message that is recorded carries a date that can be read. */
  ghost predicate Dated(dates: string -> Option<int>, messages: seq<Event>) {
    forall e | e in messages && Recordable(e) ::
      var raw := FirstOf(AsString(e.timestamp), AsString(e.createdAt));
      raw.Some? && dates(raw.value).Some?
  }

  /** The table holds exactly one row per recordable message, made from that message alone. */
  ghost predicate Holds(dates: string -> Option<int>, t: Table, messages: seq<Event>) {
    && (forall e | e in messages && Recordable(e) :: KeyOf(e) in t && t[KeyOf(e)] == EntryOf(dates, 0, e))
    && (forall k | k in t :: exists e | e in messages :: Recordable(e) && KeyOf(e) == k)
  }

  lemma HoldsOneMore(dates: string -> Option<int>, now: int, t: Table, messages: seq<Event>, e: Event)
    requires Holds(dates, t, messages) && Coherent(messages + [e]) && Dated(dates, messages + [e])
    ensures Holds(dates, Record(dates, now, t, e), messages + [e])
  {
    var all, after := messages + [e], Record(dates, now, t, e);
    assert e in all && forall m | m in messages :: m in all;
    forall m | m in all && Recordable(m) ensures KeyOf(m) in after && after[KeyOf(m)] == EntryOf(dates, 0, m) {
      assert m in messages || m == e;
    }
    forall k | k in after ensures exists m | m in all :: Recordable(m) && KeyOf(m) == k {
      if k in t {
        var m :| m in messages && Recordable(m) && KeyOf(m) == k;
        assert m in all;
      }
    }
  }

  lemma {:induction false} TimelineHoldsMessages(dates: string -> Option<int>, clock: nat -> int, messages: seq<Event>)
    requires Coherent(messages) && Dated(dates, messages)
    ensures Holds(dates, RecordAll(dates, clock, messages), messages)
  {
    if |messages| > 0 {
      var n := |messages| - 1;
      var front, e := messages[..n], messages[n];
      assert messages == front + [e];
      assert forall m | m in front :: m in messages;
      TimelineHoldsMessages(dates, clock, front);
      HoldsOneMore(dates, clock(n), RecordAll(dates, clock, front), front, e);
    }
  }

  lemma SameMessagesHeld(dates: string -> Option<int>, t: Table, messages1: seq<Event>, messages2: seq<Event>)
    requires Holds(dates, t, messages1)
    requires forall e | Recordable(e) :: e in messages1 <==> e in messages2
    ensures Holds(dates, t, messages2)
  {
    forall k | k in t ensures exists e | e in messages2 :: Recordable(e) && KeyOf(e) == k {
      var e :| e in messages1 && Recordable(e) && KeyOf(e) == k;
      assert e in messages2;
    }
  }

  /** A table is determined by the messages it holds. */
  lemma HoldsDetermines(dates: string -> Option<int>, t1: Table, t2: Table, messages: seq<Event>)
    requires Holds(dates, t1, messages) && Holds(dates, t2, messages)
    ensures t1 == t2
  {
    forall k | k in t1 ensures k in t2 && t1[k] == t2[k] {
      var e :| e in messages && Recordable(e) && KeyOf(e) == k;
    }
    forall k | k in t2 ensures k in t1 {
      var e :| e in messages && Recordable(e) && KeyOf(e) == k;
    }
  }

  /** The timeline depends only on which messages were delivered, not on their order, repetition or timing. */
  lemma DeliveryIsImmaterial(dates: string -> Option<int>, clock1: nat -> int, clock2: nat -> int,
                             messages1: seq<Event>, messages2: seq<Event>)
    requires Coherent(messages1) && Dated(dates, messages1)
    requires forall e | Recordable(e) :: e in messages1 <==> e in messages2
    ensures RecordAll(dates, clock1, messages1) == RecordAll(dates, clock2, messages2)
  {
    TimelineHoldsMessages(dates, clock1, messages1);
    TimelineHoldsMessages(dates, clock2, messages2);
    SameMessagesHeld(dates, RecordAll(dates, clock1, messages1), messages1, messages2);
    HoldsDetermines(dates, RecordAll(dates, clock1, messages1), RecordAll(dates, clock2, messages2), messages2);
  }

  /* When two messages of the system's own producers share a key. */

  ghost predicate IsUuid(s: string) {
    |s| == 36 && forall i | 0 <= i < 36 :: s[i] != ':' && s[i] != '.'
  }

  /** What the order, dispatch and driver services publish, down to what is tracked. */
  datatype Produced =
    | Created(orderId: string, createdAt: string)
    | Dispatched(eventType: string, orderId: string, assignmentId: string, driverId: string, timestamp: string)
    | Acted(eventType: string, orderId: string, driverId: string, timestamp: string)

  ghost predicate WellFormed(p: Produced) {
    && IsUuid(p.orderId)
    && (p.Created? ==> |p.createdAt| > 0)
    && (p.Dispatched? ==>
          && p.eventType in {"ASSIGNMENT_OFFERED", "ASSIGNMENT_TIMEOUT"}
          && IsUuid(p.assignmentId) && |p.timestamp| > 0)
    && (p.Acted? ==>
          && p.eventType in {"ASSIGNMENT_ACCEPTED", "ASSIGNMENT_REJECTED", "ORDER_COMPLETED", "ORDER_CANCELLED"}
          && |p.timestamp| > 0)
  }

  function AsEvent(p: Produced): Event {
    match p
    case Created(o, at) =>
      Event(Text(ORDER_CREATED), NotText, Text(o), NotText, NotText, NotText, NotText, Text(at), "")
    case Dispatched(t, o, a, d, at) =>
      Event(Text(t), Text(o), NotText, Text(d), NotText, Text(a), Text(at), NotText, "")
    case Acted(t, o, d, at) =>
      Event(Text(t), Text(o), NotText, Text(d), NotText, NotText, Text(at), NotText, "")
  }

  /** The same fact, told once or again. */
  predicate SameFact(p: Produced, q: Produced) {
    && p.orderId == q.orderId
    && ((p.Created? && q.Created?)
        || (p.Dispatched? && q.Dispatched? && p.assignmentId == q.assignmentId && p.eventType == q.eventType)
        || (p.Acted? && q.Acted? && p.eventType == q.eventType && p.timestamp == q.timestamp))
  }

  predicate NoColon(s: string) {
    ':' !in s
  }

  lemma LiteralsHaveNoColon()
    ensures NoColon("ASSIGNMENT_OFFERED") && NoColon("ASSIGNMENT_TIMEOUT")
    ensures NoColon("ASSIGNMENT_ACCEPTED") && NoColon("ASSIGNMENT_REJECTED")
    ensures NoColon("ORDER_COMPLETED") && NoColon("ORDER_CANCELLED")
  {
  }

  lemma TypesHaveNoColon(p: Produced)
    requires WellFormed(p) && !p.Created?
    ensures NoColon(p.eventType) && |p.eventType| > 0 && p.eventType != ORDER_CREATED && IsTracked(p.eventType)
  {
    LiteralsHaveNoColon();
    assert p.eventType[0] == 'A' || p.eventType[0] == 'O';
  }

  /** What follows the first colon is determined. */
  lemma SplitAtColon(a: string, b: string, x: string, y: string)
    requires NoColon(a) && NoColon(b) && a + ":" + x == b + ":" + y
    ensures a == b && x == y
  {
    var l, r := a + ":" + x, b + ":" + y;
    assert l[|a|] == ':' && r[|b|] == ':';
    assert forall i | 0 <= i < |a| :: l[i] == a[i] && a[i] in a;
    assert forall i | 0 <= i < |b| :: r[i] == b[i] && b[i] in b;
    assert a == l[..|a|] && b == r[..|b|];
    assert x == l[|a| + 1..] && y == r[|b| + 1..];
  }

  function Suffix(p: Produced): string
    requires !p.Created?
  {
    if p.Dispatched? then p.eventType else p.eventType + ":" + p.timestamp
  }

  lemma KeyOfProduced(p: Produced)
    requires WellFormed(p)
    ensures Recordable(AsEvent(p))
    ensures KeyOf(AsEvent(p)).0 == p.orderId
    ensures p.Created? ==> KeyOf(AsEvent(p)).1 == "order.created:" + p.orderId
    ensures !p.Created? ==>
              KeyOf(AsEvent(p)).1 == (if p.Dispatched? then p.assignmentId else p.orderId) + ":" + Suffix(p)
  {
    if !p.Created? {
      TypesHaveNoColon(p);
      var id := if p.Dispatched? then p.assignmentId else p.orderId;
      assert p.Acted? ==> id + ":" + p.eventType + ":" + p.timestamp == id + ":" + (p.eventType + ":" + p.timestamp);
    }
  }

  lemma CreatedIdIsNoOther(created: Produced, q: Produced)
    requires WellFormed(created) && WellFormed(q) && created.Created? && !q.Created?
    ensures KeyOf(AsEvent(created)).1 != KeyOf(AsEvent(q)).1
  {
    KeyOfProduced(created);
    KeyOfProduced(q);
    var id := if q.Dispatched? then q.assignmentId else q.orderId;
    assert ("order.created:" + created.orderId)[5] == '.';
    assert (id + ":" + Suffix(q))[5] == id[5];
  }

  lemma SuffixesMatch(p: Produced, q: Produced)
    requires WellFormed(p) && WellFormed(q) && !p.Created? && !q.Created? && Suffix(p) == Suffix(q)
    ensures p.Dispatched? == q.Dispatched? && p.eventType == q.eventType
    ensures p.Acted? ==> p.timestamp == q.timestamp
  {
    TypesHaveNoColon(p);
    TypesHaveNoColon(q);
    assert p.Acted? ==> Suffix(p)[|p.eventType|] == ':';
    assert q.Acted? ==> Suffix(q)[|q.eventType|] == ':';
    if p.Acted? && q.Acted? {
      SplitAtColon(p.eventType, q.eventType, p.timestamp, q.timestamp);
    }
  }

  /** Two produced messages share a timeline key exactly when they tell the same fact: the same order's
      creation, the same event of one assignment, or one kind of driver action on an order at one time. */
  lemma KeysCollideIffSameFact(p: Produced, q: Produced)
    requires WellFormed(p) && WellFormed(q)
    ensures Recordable(AsEvent(p)) && Recordable(AsEvent(q))
    ensures KeyOf(AsEvent(p)) == KeyOf(AsEvent(q)) <==> SameFact(p, q)
  {
    KeyOfProduced(p);
    KeyOfProduced(q);
    if p.Created? && !q.Created? {
      CreatedIdIsNoOther(p, q);
    } else if q.Created? && !p.Created? {
      CreatedIdIsNoOther(q, p);
    } else if !p.Created? && KeyOf(AsEvent(p)) == KeyOf(AsEvent(q)) {
      var a := if p.Dispatched? then p.assignmentId else p.orderId;
      var b := if q.Dispatched? then q.assignmentId else q.orderId;
      SplitAtColon(a, b, Suffix(p), Suffix(q));
      SuffixesMatch(p, q);
    }
  }

  /** Where the timeline has a produced message, spelled out. */
  function ProducedKey(p: Produced): (string, string) {
    match p
    case Created(o, _) => (o, "order.created:" + o)
    case Dispatched(t, o, a, _, _) => (o, a + ":" + t)
    case Acted(t, o, _, at) => (o, o + ":" + t + ":" + at)
  }

  function ProducedAt(p: Produced): string {
    if p.Created? then p.createdAt else p.timestamp
  }

  /** The row of a produced message tells what the producer said: the type, the driver, none for an order's
      creation, the whole message, and the producer's own time. */
  ghost predicate TellsProduced(dates: string -> Option<int>, p: Produced, entry: Entry) {
    && entry.eventType == (if p.Created? then "order.created" else p.eventType)
    && entry.driverId == (if p.Created? || p.driverId == "" then None else Some(p.driverId))
    && entry.payload == AsEvent(p)
    && dates(ProducedAt(p)) == Some(entry.occurredAt)
  }

  lemma HeldTellsProduced(dates: string -> Option<int>, t: Table, messages: seq<Event>, p: Produced)
    requires Holds(dates, t, messages) && Dated(dates, messages) && WellFormed(p) && AsEvent(p) in messages
    ensures ProducedKey(p) in t && TellsProduced(dates, p, t[ProducedKey(p)])
  {
    KeyOfProduced(p);
    assert KeyOf(AsEvent(p)) == ProducedKey(p) by {
      assert p.Acted? ==> p.orderId + ":" + (p.eventType + ":" + p.timestamp) == p.orderId + ":" + p.eventType + ":" + p.timestamp;
    }
  }

  /** However a produced message was delivered, in whatever order, company and number, the timeline has a row that
      tells it. */
  lemma TimelineTellsMessages(dates: string -> Option<int>, clock: nat -> int, messages: seq<Event>, p: Produced)
    requires Coherent(messages) && Dated(dates, messages) && WellFormed(p) && AsEvent(p) in messages
    ensures var t := RecordAll(dates, clock, messages);
            ProducedKey(p) in t && TellsProduced(dates, p, t[ProducedKey(p)])
  {
    TimelineHoldsMessages(dates, clock, messages);
    HeldTellsProduced(dates, RecordAll(dates, clock, messages), messages, p);
  }
}
