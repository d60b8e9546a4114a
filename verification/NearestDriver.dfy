/** The matching policy: nearest driver within 5 km first, then the nearest anywhere. */
module NearestDriver {
  import opened Common
  import opened AssignmentTable
  import opened DispatchSpec
  import opened DispatchMoves

  type Distance = (Point, Point) -> real

  /** A reply to GEOSEARCH ... BYRADIUS radius ASC: the members in range, each once, nearest first.
      Members at the same distance may come in any order, and in different orders for different radii. */
  ghost predicate IsReply(dist: Distance, geo: GeoSet, at: Point, radius: nat, reply: seq<DriverId>) {
    && NoDuplicates(reply)
    && (forall d :: d in reply <==> d in geo && dist(at, geo[d]) <= radius as real)
    && NearestFirst(dist, geo, at, reply)
  }

  ghost predicate NearestFirst(dist: Distance, geo: GeoSet, at: Point, s: seq<DriverId>) {
    forall i, j | 0 <= i < j < |s| :: NotFarther(dist, geo, at, s[i], s[j])
  }

  ghost predicate NotFarther(dist: Distance, geo: GeoSet, at: Point, a: DriverId, b: DriverId) {
    a in geo && b in geo && dist(at, geo[a]) <= dist(at, geo[b])
  }

  ghost predicate Searches(env: Env, dist: Distance) {
    forall geo, at, radius :: IsReply(dist, geo, at, radius, env.search(geo, at, radius))
  }

  /* Filtering a list. */

  lemma {:induction false} WithoutKeepsRest(s: seq<DriverId>, exclude: set<DriverId>)
    ensures forall d :: d in Without(s, exclude) <==> d in s && d !in exclude
    ensures NoDuplicates(s) ==> NoDuplicates(Without(s, exclude))
  {
    if |s| > 0 {
      var front := s[..|s| - 1];
      WithoutKeepsRest(front, exclude);
      assert s == front + [s[|s| - 1]];
      assert NoDuplicates(s) ==> NoDuplicates(front) && s[|s| - 1] !in front;
    }
  }

  lemma {:induction false} WithoutKeepsOrder(dist: Distance, geo: GeoSet, at: Point,
                                             s: seq<DriverId>, exclude: set<DriverId>)
    requires NearestFirst(dist, geo, at, s)
    ensures NearestFirst(dist, geo, at, Without(s, exclude))
  {
    if |s| > 0 {
      var n := |s| - 1;
      var front := s[..n];
      WithoutKeepsOrder(dist, geo, at, front, exclude);
      WithoutKeepsRest(front, exclude);
      var kept := Without(front, exclude);
      forall i | 0 <= i < |kept|
        ensures NotFarther(dist, geo, at, kept[i], s[n])
      {
        assert kept[i] in front;
        var k :| 0 <= k < n && front[k] == kept[i];
        assert s[k] == kept[i];
      }
    }
  }

  /** The two searches joined are one search of the wide radius, whatever the order of ties. */
  lemma TwoSearchesAreOne(env: Env, dist: Distance, geo: GeoSet, at: Point)
    requires Searches(env, dist)
    ensures IsReply(dist, geo, at, 5000, Candidates(env, geo, geo, at))
  {
    var nearby := env.search(geo, at, SEARCH_RADIUS_KM);
    var fallback := env.search(geo, at, FALLBACK_RADIUS_KM);
    var beyond := Without(fallback, Members(nearby));
    assert IsReply(dist, geo, at, SEARCH_RADIUS_KM, nearby);
    assert IsReply(dist, geo, at, FALLBACK_RADIUS_KM, fallback);
    WithoutKeepsRest(fallback, Members(nearby));
    WithoutKeepsOrder(dist, geo, at, fallback, Members(nearby));
    var all := nearby + beyond;
    forall d ensures d in all <==> d in geo && dist(at, geo[d]) <= FALLBACK_RADIUS_KM as real {
      assert d in all <==> d in nearby || d in beyond;
    }
    forall i, j | 0 <= i < j < |all|
      ensures NotFarther(dist, geo, at, all[i], all[j]) && all[i] != all[j]
    {
      assert all[i] in all && all[j] in all;
      if i < |nearby| <= j {
        assert all[i] in nearby && all[j] in beyond;
      } else if i >= |nearby| {
        assert all[i] == beyond[i - |nearby|] && all[j] == beyond[j - |nearby|];
      }
    }
  }

  /** When Redis changes between the two searches, no driver is listed twice
      and those the narrow search found still come first. */
  lemma CandidatesAcrossChange(env: Env, dist: Distance, geo1: GeoSet, geo2: GeoSet, at: Point)
    requires Searches(env, dist)
    ensures var all := Candidates(env, geo1, geo2, at);
            var n := |env.search(geo1, at, 5)|;
            && NoDuplicates(all) && n <= |all|
            && (forall i | 0 <= i < n :: all[i] in geo1 && dist(at, geo1[all[i]]) <= 5.0)
            && (forall i | n <= i < |all| :: all[i] in geo2 && dist(at, geo2[all[i]]) <= 5000.0)
            && NearestFirst(dist, geo1, at, all[..n]) && NearestFirst(dist, geo2, at, all[n..])
            && (forall d | d in geo2 && dist(at, geo2[d]) <= 5000.0 :: d in all)
  {
    var nearby := env.search(geo1, at, SEARCH_RADIUS_KM);
    var fallback := env.search(geo2, at, FALLBACK_RADIUS_KM);
    var beyond := Without(fallback, Members(nearby));
    assert IsReply(dist, geo1, at, SEARCH_RADIUS_KM, nearby);
    assert IsReply(dist, geo2, at, FALLBACK_RADIUS_KM, fallback);
    WithoutKeepsRest(fallback, Members(nearby));
    WithoutKeepsOrder(dist, geo2, at, fallback, Members(nearby));
    var all := nearby + beyond;
    assert all[..|nearby|] == nearby && all[|nearby|..] == beyond;
    forall i, j | 0 <= i < j < |all| ensures all[i] != all[j] {
      if i < |nearby| <= j {
        assert all[i] in nearby && all[j] in beyond;
      }
    }
    forall i | |nearby| <= i < |all|
      ensures all[i] in geo2 && dist(at, geo2[all[i]]) <= FALLBACK_RADIUS_KM as real
    {
      assert all[i] in beyond;
    }
  }

  lemma {:induction false} FirstEligibleComesFirst(s: State, tried: set<DriverId>, candidates: seq<DriverId>)
    returns (i: nat)
    requires FirstEligible(s, tried, candidates).Some?
    ensures i < |candidates| && candidates[i] == FirstEligible(s, tried, candidates).value
    ensures forall j | 0 <= j < i :: !Eligible(s, tried, candidates[j])
  {
    if Eligible(s, tried, candidates[0]) {
      i := 0;
    } else {
      var k := FirstEligibleComesFirst(s, tried, candidates[1..]);
      i := k + 1;
      forall j | 0 <= j < i ensures !Eligible(s, tried, candidates[j]) {
        if j > 0 { assert candidates[j] == candidates[1..][j - 1]; }
      }
    }
  }

  ghost predicate InRange(dist: Distance, s: State, at: Point, d: DriverId) {
    d in s.geo && dist(at, s.geo[d]) <= 5000.0
  }

  ghost predicate CanTake(dist: Distance, s: State, o: OrderId, at: Point, d: DriverId) {
    InRange(dist, s, at, d) && Eligible(s, TriedDrivers(s.rows, o), d)
  }

  /** An offer goes to a nearest driver in range who is available, unlocked and new to the order;
      nothing happens exactly when there is none. */
  lemma OfferGoesToNearest(env: Env, dist: Distance, s: State, o: OrderId, at: Point)
    requires Searches(env, dist)
    ensures var after := Offer(env, s, o, at).s;
            if forall d :: !CanTake(dist, s, o, at, d) then after == s
            else
              && |after.rows| == |s.rows| + 1 && after.rows[..|s.rows|] == s.rows
              && var row := after.rows[|s.rows|];
                 && row.orderId == o && row.pickup == at && row.status.Offered?
                 && row.expiresAt == s.now + 30000
                 && CanTake(dist, s, o, at, row.driverId)
                 && forall d | CanTake(dist, s, o, at, d) ::
                      dist(at, s.geo[row.driverId]) <= dist(at, s.geo[d])
  {
    var tried, candidates := TriedDrivers(s.rows, o), Candidates(env, s.geo, s.geo, at);
    TwoSearchesAreOne(env, dist, s.geo, at);
    FirstEligibleIsEligible(s, tried, candidates);
    match FirstEligible(s, tried, candidates)
    case None =>
      forall d ensures !CanTake(dist, s, o, at, d) {
        assert InRange(dist, s, at, d) <==> d in candidates;
      }
    case Some(n) =>
      InsertWrites(env, s, o, at, n);
      assert CanTake(dist, s, o, at, n);
      var i := FirstEligibleComesFirst(s, tried, candidates);
      forall d | CanTake(dist, s, o, at, d) ensures dist(at, s.geo[n]) <= dist(at, s.geo[d]) {
        assert d in candidates;
        var j :| 0 <= j < |candidates| && candidates[j] == d;
        assert i <= j;
      }
  }
}
