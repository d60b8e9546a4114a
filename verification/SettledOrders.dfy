/** When an order is certain to have one active assignment at most, whatever handlers are under way and
    whatever arrives later: exactly when a driver holds it and nothing under way could undo that. */
module SettledOrders {
  import opened Common
  import opened AssignmentTable
  import opened DispatchSpec
  import opened SettleRace
  import OfferRace

  /* Reaching a world. */

  ghost predicate Reaches(w: World, v: World) {
    exists acts :: Leads(w, acts, v)
  }

  ghost predicate Leads(w: World, acts: seq<Act>, v: World) {
    Interleaving(w, acts) && After(w, acts) == v
  }

  lemma ReachSelf(w: World)
    ensures Reaches(w, w)
  {
    assert Leads(w, [], w);
  }

  lemma ReachFirst(w: World, act: Act, v: World)
    requires Enabled(w, act) && Reaches(Next(w, act), v)
    ensures Reaches(w, v)
  {
    var rest :| Leads(Next(w, act), rest, v);
    assert ([act] + rest)[1..] == rest;
    assert Leads(w, [act] + rest, v);
  }

  lemma {:induction false} LeadsOn(w: World, acts: seq<Act>, u: World, v: World)
    requires Leads(w, acts, u) && Reaches(u, v)
    ensures Reaches(w, v)
    decreases |acts|
  {
    if |acts| > 0 {
      LeadsOn(Next(w, acts[0]), acts[1..], u, v);
      ReachFirst(w, acts[0], v);
    }
  }

  lemma ReachOn(w: World, u: World, v: World)
    requires Reaches(w, u) && Reaches(u, v)
    ensures Reaches(w, v)
  {
    var acts :| Leads(w, acts, u);
    LeadsOn(w, acts, u, v);
  }

  /* What is at stake, and when it is safe. */

  ghost predicate OneActive(rows: Table, o: OrderId) {
    forall i, j | 0 <= i < j < |rows| && rows[i].orderId == o && rows[j].orderId == o ::
      Retriable(rows[i].status) || Retriable(rows[j].status)
  }

  /** Whatever happens from here on, the order has at most one active assignment. */
  ghost predicate CertainlyOne(w: World, o: OrderId) {
    forall v | Reaches(w, v) :: OneActive(v.race.rows, o)
  }

  /** The search will be refused by the unique index. */
  ghost predicate Stale(rows: Table, p: OfferRace.Search) {
    p.Ended? || (!p.Begun? && Taken(rows, p.orderId, p.attempt))
  }

  predicate Takes(status: AssignmentStatus) {
    status.Confirmed? || Final(status)
  }

  /** A driver holds or has finished row i, the order's other rows are closed; a handler under way for the
      order is about to write row i, and not to reject it; and a search under way for it is stale. */
  ghost predicate HeldBy(w: World, o: OrderId, i: AssignmentId) {
    && i < |w.race.rows| && w.race.rows[i].orderId == o
    && Takes(w.race.rows[i].status)
    && (forall j | 0 <= j < |w.race.rows| && j != i && w.race.rows[j].orderId == o ::
          Retriable(w.race.rows[j].status))
    && (forall k: nat | HandlerOn(w, k, o) ::
          w.handlers[k].row == i && Takes(w.handlers[k].status))
    && (forall k: nat | SearchOn(w, k, o) :: Stale(w.race.rows, w.race.searches[k]))
  }

  ghost predicate Held(w: World, o: OrderId) {
    exists i :: HeldBy(w, o, i)
  }

  /* Safe: nothing that can happen undoes it. */

  lemma TakenStays(rows: Table, after: Table, o: OrderId, attempt: nat)
    requires Taken(rows, o, attempt) && |rows| <= |after|
    requires forall i | 0 <= i < |rows| :: after[i].orderId == rows[i].orderId && after[i].attempt == rows[i].attempt
    ensures Taken(after, o, attempt)
  {
    var i :| 0 <= i < |rows| && rows[i].orderId == o && rows[i].attempt == attempt;
    assert after[i].orderId == o && after[i].attempt == attempt;
  }

  /** What an act does to the rows of a held order: at most row i is written, with a holding status. */
  ghost predicate LeavesHeld(w: World, after: World, o: OrderId, i: AssignmentId)
    requires i < |w.race.rows|
  {
    var rows, rows' := w.race.rows, after.race.rows;
    && |rows| <= |rows'|
    && (forall j | 0 <= j < |rows| :: rows'[j] == rows[j].(status := rows'[j].status))
    && (forall j | 0 <= j < |rows| && rows[j].orderId == o && j != i :: Retriable(rows'[j].status))
    && Takes(rows'[i].status)
    && (forall j | |rows| <= j < |rows'| :: rows'[j].orderId != o)
  }

  lemma WriteLeavesHeld(w: World, j: AssignmentId, status: AssignmentStatus, after: World, o: OrderId, i: AssignmentId)
    requires HeldBy(w, o, i) && j < |w.race.rows|
    requires after.race.rows == w.race.rows[j := w.race.rows[j].(status := status)]
    requires w.race.rows[j].orderId == o ==> j == i && Takes(status)
    ensures LeavesHeld(w, after, o, i)
  {
  }

  lemma AppendLeavesHeld(w: World, row: Assignment, after: World, o: OrderId, i: AssignmentId)
    requires HeldBy(w, o, i) && row.orderId != o && after.race.rows == w.race.rows + [row]
    ensures LeavesHeld(w, after, o, i)
  {
  }

  lemma ActLeavesHeld(w: World, act: Act, o: OrderId, i: AssignmentId)
    requires HeldBy(w, o, i) && Enabled(w, act)
    ensures LeavesHeld(w, Next(w, act), o, i)
  {
    var after := Next(w, act);
    match act
    case Write(k) =>
      var h := w.handlers[k];
      assert w.race.rows[h.row].orderId == o ==> HandlerOn(w, k, o);
      WriteLeavesHeld(w, h.row, h.status, after, o, i);
    case TimeOutRow(j) => if Lapsed(w, j) { WriteLeavesHeld(w, j, TimedOut, after, o, i); }
    case Search(Insert(k, _, _)) =>
      var p := w.race.searches[k];
      assert p.orderId == o ==> SearchOn(w, k, o);
      if !Taken(w.race.rows, p.orderId, p.attempt) {
        AppendLeavesHeld(w, after.race.rows[|w.race.rows|], after, o, i);
      }
    case _ => assert after.race.rows == w.race.rows;
  }

  /** A search under way stays with its order and, once it has one, its attempt. */
  ghost predicate Continues(p: OfferRace.Search, q: OfferRace.Search) {
    q.Ended? || (!p.Ended? && q.orderId == p.orderId && (!p.Begun? ==> !q.Begun? && q.attempt == p.attempt))
  }

  lemma SearchContinues(w: World, act: Act, k: nat)
    requires Enabled(w, act) && k < |w.race.searches|
    ensures k < |Next(w, act).race.searches| && Continues(w.race.searches[k], Next(w, act).race.searches[k])
  {
    if act.Search? {
      match act.step
      case ReadLastAttempt(_) =>
      case ReadTriedDrivers(_) =>
      case LockDriver(_, _) =>
      case Insert(_, _, _) =>
      case GiveUp(_) =>
    }
  }

  /** No new search begins for a held order. */
  lemma NoNewSearch(w: World, act: Act, o: OrderId, i: AssignmentId, k: nat)
    requires HeldBy(w, o, i) && Enabled(w, act) && SearchOn(Next(w, act), k, o)
    ensures k < |w.race.searches|
  {
    match act
    case Write(j) => assert w.race.rows[w.handlers[j].row].orderId == o ==> HandlerOn(w, j, o);
    case _ =>
  }

  lemma SearchStaysStale(w: World, act: Act, o: OrderId, i: AssignmentId, k: nat)
    requires HeldBy(w, o, i) && Enabled(w, act) && SearchOn(Next(w, act), k, o)
    requires LeavesHeld(w, Next(w, act), o, i)
    ensures Stale(Next(w, act).race.rows, Next(w, act).race.searches[k])
  {
    NoNewSearch(w, act, o, i, k);
    SearchContinues(w, act, k);
    assert SearchOn(w, k, o);
    TakenStays(w.race.rows, Next(w, act).race.rows, o, w.race.searches[k].attempt);
  }

  lemma ArrivalIsSafe(w: World, d: DriverId, status: AssignmentStatus, o: OrderId, i: AssignmentId)
    requires HeldBy(w, o, i) && Answers(status) && FindRow(w.race.rows, o, d, Needed(status)).Some?
    ensures FindRow(w.race.rows, o, d, Needed(status)).value == i && Takes(status)
  {
  }

  lemma HandlerStaysSafe(w: World, act: Act, o: OrderId, i: AssignmentId, k: nat)
    requires HeldBy(w, o, i) && Enabled(w, act) && HandlerOn(Next(w, act), k, o)
    requires LeavesHeld(w, Next(w, act), o, i)
    requires k < |w.handlers| && w.handlers[k].Holding? ==> w.handlers[k].row < |w.race.rows|
    ensures Next(w, act).handlers[k].row == i && Takes(Next(w, act).handlers[k].status)
  {
    if k < |w.handlers| {
      assert Next(w, act).handlers[k] == w.handlers[k];
      assert HandlerOn(w, k, o);
    } else {
      assert act.Find? && act.orderId == o;
      ArrivalIsSafe(w, act.driverId, act.status, o, i);
    }
  }

  lemma HeldStaysHeld(w: World, act: Act, o: OrderId, i: AssignmentId)
    requires Sound(w) && HeldBy(w, o, i) && Enabled(w, act)
    ensures HeldBy(Next(w, act), o, i)
  {
    var after := Next(w, act);
    ActLeavesHeld(w, act, o, i);
    forall k: nat | HandlerOn(after, k, o)
      ensures after.handlers[k].row == i && Takes(after.handlers[k].status)
    {
      HandlerStaysSafe(w, act, o, i, k);
    }
    forall k: nat | SearchOn(after, k, o) ensures Stale(after.race.rows, after.race.searches[k]) {
      SearchStaysStale(w, act, o, i, k);
    }
  }

  lemma {:induction false} HeldIsForGood(w: World, acts: seq<Act>, o: OrderId, i: AssignmentId)
    requires Sound(w) && HeldBy(w, o, i) && Interleaving(w, acts)
    ensures HeldBy(After(w, acts), o, i)
    decreases |acts|
  {
    if |acts| > 0 {
      HeldStaysHeld(w, acts[0], o, i);
      NextIsSound(w, acts[0]);
      HeldIsForGood(Next(w, acts[0]), acts[1..], o, i);
    }
  }

  /* Unsafe: some continuation gives the order a second active assignment. */

  lemma FreshDriver(tried: set<DriverId>) returns (d: DriverId)
    ensures d !in tried
  {
    d := 0;
    var rest := tried;
    while d in tried
      invariant forall e | e in tried && d <= e :: e in rest
      decreases |rest|
    {
      rest := rest - {d};
      d := d + 1;
    }
  }

  /** From w to v, search k has made its offer and nothing else has happened. */
  ghost predicate Offers(w: World, k: nat, v: World)
    requires k < |w.race.searches| && !w.race.searches[k].Ended?
  {
    && Reaches(w, v)
    && v.now == w.now && v.handlers == w.handlers && v.race.searches == w.race.searches[k := OfferRace.Ended]
    && |v.race.rows| == |w.race.rows| + 1 && v.race.rows[..|w.race.rows|] == w.race.rows
    && v.race.rows[|w.race.rows|].orderId == w.race.searches[k].orderId
    && v.race.rows[|w.race.rows|].status.Offered?
  }

  lemma OffersFirst(w: World, k: nat, step: OfferRace.Step, v: World)
    requires Enabled(w, Search(step)) && k < |w.race.searches| && !w.race.searches[k].Ended?
    requires var next := Next(w, Search(step)).race;
             && next.rows == w.race.rows && |next.searches| == |w.race.searches|
             && next.searches == w.race.searches[k := next.searches[k]]
             && !next.searches[k].Ended? && next.searches[k].orderId == w.race.searches[k].orderId
    requires Offers(Next(w, Search(step)), k, v)
    ensures Offers(w, k, v)
  {
    ReachFirst(w, Search(step), v);
  }

  lemma LockedOffers(w: World, k: nat) returns (v: World)
    requires k < |w.race.searches| && w.race.searches[k].Locked? && !Stale(w.race.rows, w.race.searches[k])
    ensures Offers(w, k, v)
  {
    var act := Search(OfferRace.Insert(k, Point(0.0, 0.0), w.now + OFFER_TTL_MS));
    v := Next(w, act);
    ReachSelf(v);
    ReachFirst(w, act, v);
  }

  lemma ScanningOffers(w: World, k: nat) returns (v: World)
    requires k < |w.race.searches| && w.race.searches[k].Scanning? && !Stale(w.race.rows, w.race.searches[k])
    ensures Offers(w, k, v)
  {
    var d := FreshDriver(w.race.searches[k].tried);
    v := LockedOffers(Next(w, Search(OfferRace.LockDriver(k, d))), k);
    OffersFirst(w, k, OfferRace.LockDriver(k, d), v);
  }

  lemma NumberingOffers(w: World, k: nat) returns (v: World)
    requires k < |w.race.searches| && w.race.searches[k].Numbering? && !Stale(w.race.rows, w.race.searches[k])
    ensures Offers(w, k, v)
  {
    v := ScanningOffers(Next(w, Search(OfferRace.ReadTriedDrivers(k))), k);
    OffersFirst(w, k, OfferRace.ReadTriedDrivers(k), v);
  }

  lemma BegunOffers(w: World, k: nat) returns (v: World)
    requires k < |w.race.searches| && w.race.searches[k].Begun?
    ensures Offers(w, k, v)
  {
    NextAttemptIsFree(w.race.rows, w.race.searches[k].orderId);
    v := NumberingOffers(Next(w, Search(OfferRace.ReadLastAttempt(k))), k);
    OffersFirst(w, k, OfferRace.ReadLastAttempt(k), v);
  }

  /** A search that is not stale may still make its offer, whatever else is under way. */
  lemma SearchCanOffer(w: World, k: nat) returns (v: World)
    requires k < |w.race.searches| && !Stale(w.race.rows, w.race.searches[k])
    ensures Offers(w, k, v)
  {
    match w.race.searches[k]
    case Begun(_) => v := BegunOffers(w, k);
    case Numbering(_, _) => v := NumberingOffers(w, k);
    case Scanning(_, _, _) => v := ScanningOffers(w, k);
    case Locked(_, _, _, _) => v := LockedOffers(w, k);
  }

  /** An offer made beside an active row of the order. */
  lemma OfferBesideActive(w: World, k: nat, i: AssignmentId) returns (v: World)
    requires k < |w.race.searches| && !Stale(w.race.rows, w.race.searches[k]) && i < |w.race.rows|
    requires w.race.rows[i].orderId == w.race.searches[k].orderId && !Retriable(w.race.rows[i].status)
    ensures Reaches(w, v) && !OneActive(v.race.rows, w.race.rows[i].orderId)
  {
    v := SearchCanOffer(w, k);
    assert v.race.rows[i] == v.race.rows[..|w.race.rows|][i];
  }

  /** Two searches may both find a free order free: two deliveries of order.created, or two retry sweeps. */
  lemma FreeOrderCanDouble(w: World, o: OrderId) returns (v: World)
    requires AllRetriable(w.race.rows, o)
    ensures Reaches(w, v) && !OneActive(v.race.rows, o)
  {
    var k := |w.race.searches|;
    var w1 := Next(w, StartOffer(o));
    var w2 := Next(w1, StartOffer(o));
    var u := SearchCanOffer(w2, k);
    v := OfferBesideActive(u, k + 1, |w.race.rows|);
    ReachOn(w2, u, v);
    ReachFirst(w1, StartOffer(o), v);
    ReachFirst(w, StartOffer(o), v);
  }

  /* An open offer: an answer is read, the offer lapses, and both the answer and the re-offer get through. */

  /** The answer is found and then the sweep times the row out. */
  ghost function AnswerThenLapse(w: World, i: AssignmentId, status: AssignmentStatus): seq<Act>
    requires i < |w.race.rows|
  {
    [Tick(w.race.rows[i].expiresAt + 1), Find(w.race.rows[i].orderId, w.race.rows[i].driverId, status), TimeOutRow(i)]
  }

  lemma FindsOpenRow(rows: Table, i: AssignmentId)
    requires i < |rows| && rows[i].status.Offered? && OneActive(rows, rows[i].orderId)
    ensures FindRow(rows, rows[i].orderId, rows[i].driverId, AssignmentStatus.Offered) == Some(i)
  {
    assert FindRow(rows, rows[i].orderId, rows[i].driverId, AssignmentStatus.Offered).Some?;
  }

  /** The confirmation under way after it was overtaken by the timeout, whose re-offer is under way too. */
  lemma ConfirmThenLapse(w: World, i: AssignmentId) returns (v: World)
    requires i < |w.race.rows| && w.race.rows[i].status.Offered? && OneActive(w.race.rows, w.race.rows[i].orderId)
    ensures Leads(w, AnswerThenLapse(w, i, Confirmed), v) && NoneBreaks(w, AnswerThenLapse(w, i, Confirmed))
    ensures v.race.rows == w.race.rows[i := w.race.rows[i].(status := TimedOut)]
    ensures v.handlers == w.handlers + [Holding(i, Confirmed)]
    ensures v.race.searches == w.race.searches + [OfferRace.Begun(w.race.rows[i].orderId)]
  {
    var acts := AnswerThenLapse(w, i, Confirmed);
    FindsOpenRow(w.race.rows, i);
    var w1 := Next(w, acts[0]);
    var w2 := Next(w1, acts[1]);
    assert w2.handlers == w.handlers + [Holding(i, Confirmed)] && Lapsed(w2, i);
    v := Next(w2, acts[2]);
    ThreeActs(w, acts, w1, w2, v);
  }

  lemma ThreeActs(w: World, acts: seq<Act>, w1: World, w2: World, v: World)
    requires |acts| == 3
    requires Enabled(w, acts[0]) && Next(w, acts[0]) == w1 && !Breaks(w, acts[0])
    requires Enabled(w1, acts[1]) && Next(w1, acts[1]) == w2 && !Breaks(w1, acts[1])
    requires Enabled(w2, acts[2]) && Next(w2, acts[2]) == v && !Breaks(w2, acts[2])
    ensures Leads(w, acts, v) && NoneBreaks(w, acts)
  {
    var r1, r2 := acts[1..], acts[2..];
    assert r1[1..] == r2 && r2[1..] == [];
    assert Leads(v, [], v) && NoneBreaks(v, []);
    assert Leads(w2, r2, v) && NoneBreaks(w2, r2);
    assert Leads(w1, r1, v) && NoneBreaks(w1, r1);
  }

  /** The re-offer first, then the confirmation: the write comes too late. */
  lemma LateConfirmGivesTwoDrivers(w: World, i: AssignmentId) returns (u: World, v: World)
    requires i < |w.race.rows| && w.race.rows[i].status.Offered? && OneActive(w.race.rows, w.race.rows[i].orderId)
    ensures var write := Write(|w.handlers|);
            && Reaches(w, u) && Enabled(u, write) && Breaks(u, write) && v == Next(u, write)
            && Reaches(w, v) && !OneActive(v.race.rows, w.race.rows[i].orderId)
    ensures |v.race.rows| == |w.race.rows| + 1 && v.race.rows[i].status.Confirmed?
    ensures v.race.rows[|w.race.rows|].orderId == w.race.rows[i].orderId && v.race.rows[|w.race.rows|].status.Offered?
  {
    var k, n := |w.handlers|, |w.race.rows|;
    var lapsed := ConfirmThenLapse(w, i);
    u := SearchCanOffer(lapsed, |w.race.searches|);
    assert u.race.rows[i] == u.race.rows[..n][i];
    assert u.handlers[k] == Holding(i, Confirmed);
    assert u.race.rows[n].orderId == u.race.rows[i].orderId;
    assert !IsNewest(u.race.rows, i);
    v := Next(u, Write(k));
    assert v.race.rows[i].orderId == v.race.rows[n].orderId == w.race.rows[i].orderId;
    ReachOn(w, lapsed, u);
    ReachSelf(v);
    ReachFirst(u, Write(k), v);
    ReachOn(w, u, v);
  }

  /** The confirmation first, in good time, then the re-offer: the row is still its order's newest when
      it is written, and two drivers get the order all the same. */
  lemma PunctualConfirmIsOvertaken(w: World, i: AssignmentId) returns (u: World, v: World)
    requires i < |w.race.rows| && w.race.rows[i].status.Offered? && OneActive(w.race.rows, w.race.rows[i].orderId)
    requires IsNewest(w.race.rows, i)
    ensures var write := Write(|w.handlers|);
            && Reaches(w, u) && Enabled(u, write) && !Breaks(u, write)
            && Reaches(Next(u, write), v) && !OneActive(v.race.rows, w.race.rows[i].orderId)
  {
    u := ConfirmThenLapse(w, i);
    var confirmed := Next(u, Write(|w.handlers|));
    v := OfferBesideActive(confirmed, |w.race.searches|, i);
  }

  /** Two deliveries of one rejection both find the row, and each makes a re-offer. */
  ghost function RejectedTwice(w: World, i: AssignmentId): seq<Act>
    requires i < |w.race.rows|
  {
    var reject := Find(w.race.rows[i].orderId, w.race.rows[i].driverId, Rejected);
    [reject, reject, Write(|w.handlers|), Write(|w.handlers| + 1)]
  }

  lemma DoubleRejectionGivesTwoOffers(w: World, i: AssignmentId) returns (u: World, v: World)
    requires i < |w.race.rows| && w.race.rows[i].status.Offered? && OneActive(w.race.rows, w.race.rows[i].orderId)
    ensures Leads(w, RejectedTwice(w, i), u) && NoneBreaks(w, RejectedTwice(w, i))
    ensures Reaches(u, v) && |v.race.rows| == |w.race.rows| + 2
    ensures forall j | |w.race.rows| <= j < |v.race.rows| ::
              v.race.rows[j].orderId == w.race.rows[i].orderId && v.race.rows[j].status.Offered?
  {
    var acts, m := RejectedTwice(w, i), |w.race.searches|;
    u := RejectionsWritten(w, i);
    var first := SearchCanOffer(u, m);
    v := SearchCanOffer(first, m + 1);
    assert v.race.rows[|w.race.rows|] == v.race.rows[..|first.race.rows|][|w.race.rows|];
    ReachOn(u, first, v);
  }

  lemma RejectionsWritten(w: World, i: AssignmentId) returns (u: World)
    requires i < |w.race.rows| && w.race.rows[i].status.Offered? && OneActive(w.race.rows, w.race.rows[i].orderId)
    ensures Leads(w, RejectedTwice(w, i), u) && NoneBreaks(w, RejectedTwice(w, i))
    ensures |u.race.rows| == |w.race.rows|
    ensures var o := w.race.rows[i].orderId;
            u.race.searches == w.race.searches + [OfferRace.Begun(o)] + [OfferRace.Begun(o)]
  {
    var acts, k := RejectedTwice(w, i), |w.handlers|;
    FindsOpenRow(w.race.rows, i);
    var w1 := Next(w, acts[0]);
    var w2 := Next(w1, acts[1]);
    assert w2.handlers == w.handlers + [Holding(i, Rejected)] + [Holding(i, Rejected)];
    var w3 := Next(w2, acts[2]);
    u := Next(w3, acts[3]);
    ThreeActs(w1, acts[1..], w2, w3, u);
    assert Leads(w, acts, u);
  }

  /** It does come to that: an open offer is reachable. */
  lemma OffersHappen(o: OrderId) returns (w: World)
    ensures Reaches(START, w) && |w.race.rows| == 1 && w.race.rows[0].orderId == o && w.race.rows[0].status.Offered?
  {
    var begun := Next(START, StartOffer(o));
    w := SearchCanOffer(begun, 0);
    ReachFirst(START, StartOffer(o), w);
  }

  /* The condition is exact. */

  lemma StrayHandlerCanDouble(w: World, o: OrderId, i: AssignmentId, k: nat) returns (v: World)
    requires i < |w.race.rows| && w.race.rows[i].orderId == o && Takes(w.race.rows[i].status)
    requires OneActive(w.race.rows, o) && HandlerOn(w, k, o) && Answers(w.handlers[k].status)
    requires !(w.handlers[k].row == i && Takes(w.handlers[k].status))
    ensures Reaches(w, v) && !OneActive(v.race.rows, o)
  {
    var j := w.handlers[k].row;
    var u := Next(w, Write(k));
    if Takes(w.handlers[k].status) {
      assert u.race.rows[j].orderId == o && u.race.rows[i].orderId == o;
      v := u;
      ReachSelf(v);
    } else if j == i {
      v := FreeOrderCanDouble(u, o);
    } else {
      v := OfferBesideActive(u, |w.race.searches|, i);
    }
    ReachFirst(w, Write(k), v);
  }

  lemma NotHeldCanDouble(w: World, o: OrderId) returns (v: World)
    requires Sound(w) && !Held(w, o)
    ensures Reaches(w, v) && !OneActive(v.race.rows, o)
  {
    if !OneActive(w.race.rows, o) {
      v := w;
      ReachSelf(v);
    } else if AllRetriable(w.race.rows, o) {
      v := FreeOrderCanDouble(w, o);
    } else {
      var i :| 0 <= i < |w.race.rows| && w.race.rows[i].orderId == o && !Retriable(w.race.rows[i].status);
      if w.race.rows[i].status.Offered? {
        var u;
        u, v := LateConfirmGivesTwoDrivers(w, i);
      } else {
        assert !HeldBy(w, o, i);
        if k: nat :| HandlerOn(w, k, o) && !(w.handlers[k].row == i && Takes(w.handlers[k].status)) {
          v := StrayHandlerCanDouble(w, o, i, k);
        } else {
          var k: nat :| SearchOn(w, k, o) && !Stale(w.race.rows, w.race.searches[k]);
          v := OfferBesideActive(w, k, i);
        }
      }
    }
  }

  /** An order is certain to have at most one active assignment from here on exactly when one driver holds or
      has finished it, only writes of that row's acceptance or end are under way for it, and no search that
      the unique index would let through. */
  lemma CertainExactlyWhenHeld(w: World, o: OrderId)
    requires Sound(w)
    ensures CertainlyOne(w, o) <==> Held(w, o)
  {
    if Held(w, o) {
      var i :| HeldBy(w, o, i);
      forall v | Reaches(w, v) ensures OneActive(v.race.rows, o) {
        var acts :| Leads(w, acts, v);
        HeldIsForGood(w, acts, o, i);
      }
    } else {
      var v := NotHeldCanDouble(w, o);
    }
  }

  /** So in every reachable world. */
  lemma ReachableWorldIsCertainExactlyWhenHeld(acts: seq<Act>, o: OrderId)
    requires Interleaving(START, acts)
    ensures CertainlyOne(After(START, acts), o) <==> Held(After(START, acts), o)
  {
    InterleavingIsSound(START, acts);
    CertainExactlyWhenHeld(After(START, acts), o);
  }
}
