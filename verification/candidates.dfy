/** Candidate selection (findCandidateDrivers in background/dispatcher.go): filter, sort by straight-line distance, keep 15,
    ask the crawler for routes, drop slow ones, sort by time, keep 5. */
module Candidates {
  import opened Model
  import opened Ranking
  import opened Crawler

  const HAVERSINE_CANDIDATES_COUNT := 15
  const GOOGLE_API_CANDIDATES_COUNT := 5
  const MAX_DRIVER_DISTANCE_KM := 15.0
  const MAX_ESTIMATED_TIME_MINS := 20
  const SCHEDULE_GUARD_MS := 3600000

  /** isActive and isApproved may be missing from a document; lat and lng are 0.0 when they do not parse. */
  datatype Driver = Driver(
    id: string, isOnline: bool, isActive: Option<bool>, isApproved: Option<bool>, status: DriverStatus,
    hasSchedule: bool, scheduledTime: Option<int>, fleet: Fleet, rejectList: seq<Fleet>, lat: real, lng: real)

  datatype Order = Order(orderType: OrderType, fleet: Fleet)

  /** Answers of the blacklist, of the probe of the driver's notification lock, of the distance formula and of the
      route lookup, and the time. */
  datatype Env = Env(
    now: int, blacklistEnabled: bool, blacklisted: Driver -> Result<bool>, probe: Driver -> Result<bool>,
    distance: Driver -> real, lookup: Driver -> Attempt)

  datatype DriverRoute = DriverRoute(index: nat, minutes: int, distance: string)

  datatype Pick = Pick(driver: Driver, distance: string, minutes: int)

  // ----- The filters

  /** The database query. */
  predicate Queried(d: Driver) {
    d.isOnline && d.status == Idle && d.isActive != Some(false) && d.isApproved != Some(false)
  }

  /** The driver has accepted a scheduled order that is due within the hour. */
  predicate ScheduleTooClose(order: Order, d: Driver, now: int) {
    order.orderType == Instant && d.hasSchedule && d.scheduledTime.Some?
    && 0 < d.scheduledTime.value - now <= SCHEDULE_GUARD_MS
  }

  predicate Valid(order: Order, env: Env, d: Driver) {
    && (env.blacklistEnabled ==> env.blacklisted(d) == Ok(false))
    && d.status == Idle
    && env.probe(d) == Ok(true)
    && !ScheduleTooClose(order, d, env.now)
    && FleetMatches(order.fleet, d.fleet)
    && order.fleet !in d.rejectList
    && d.lat != 0.0 && d.lng != 0.0
  }

  predicate Eligible(order: Order, env: Env, d: Driver) {
    && Queried(d) && Valid(order, env, d)
    && (env.distance(d) <= MAX_DRIVER_DISTANCE_KM || order.fleet == WEI)
  }

  predicate FastEnough(order: Order, minutes: int) {
    minutes <= MAX_ESTIMATED_TIME_MINS || order.fleet == WEI
  }

  method CheckDriver(order: Order, env: Env, d: Driver) returns (ok: bool)
    ensures ok == Valid(order, env, d)
    ensures ok <==>
              && (env.blacklistEnabled ==> env.blacklisted(d) == Ok(false))
              && d.status == Idle && env.probe(d) == Ok(true)
              && !(order.orderType == Instant && d.hasSchedule
                   && exists t :: d.scheduledTime == Some(t) && env.now < t <= env.now + 3600000)
              && (order.fleet == WEI ==> d.fleet == WEI)
              && (order.fleet == RSK || order.fleet == KD ==> d.fleet != WEI)
              && order.fleet !in d.rejectList && d.lat != 0.0 && d.lng != 0.0
  {
    ScheduleClash(order, d, env.now);
    if env.blacklistEnabled {
      var b := env.blacklisted(d);
      if b.Err? || b.value {
        return false;
      }
    }
    if d.status != Idle {
      return false;
    }
    var acquired := env.probe(d);
    if acquired.Err? || !acquired.value {
      return false;
    }
    if order.orderType == Instant && d.hasSchedule && d.scheduledTime.Some? {
      var timeDiff := d.scheduledTime.value - env.now;
      if timeDiff > 0 && timeDiff <= SCHEDULE_GUARD_MS {
        return false;
      }
    }
    if order.fleet == WEI && d.fleet != WEI {
      return false;
    }
    if (order.fleet == RSK || order.fleet == KD) && d.fleet == WEI {
      return false;
    }
    for i := 0 to |d.rejectList|
      invariant order.fleet !in d.rejectList[..i]
    {
      if d.rejectList[i] == order.fleet {
        return false;
      }
    }
    return d.lat != 0.0 && d.lng != 0.0;
  }

  /** A schedule keeps a driver from an instant order exactly if it is due after now and within the hour. */
  lemma ScheduleClash(order: Order, d: Driver, now: int)
    ensures ScheduleTooClose(order, d, now)
            <==> order.orderType == Instant && d.hasSchedule
                 && exists t :: d.scheduledTime == Some(t) && now < t <= now + 3600000
  {
    if ScheduleTooClose(order, d, now) {
      assert d.scheduledTime == Some(d.scheduledTime.value);
    }
  }

  /** The database's identifiers are unique. */
  ghost predicate UniqueIds(all: seq<Driver>) {
    forall i, j | 0 <= i < j < |all| :: all[i].id != all[j].id
  }

  // ----- What is selected

  function Attempts(env: Env, short: seq<Driver>): seq<Attempt> {
    seq(|short|, i requires 0 <= i < |short| => env.lookup(short[i]))
  }

  /** Routes of the crawler by position. */
  function Routes(attempts: seq<Attempt>): seq<DriverRoute> {
    var s := Served(attempts);
    seq(|s|, k requires 0 <= k < |s| =>
      DriverRoute(k, attempts[s[k]].route.minutes, attempts[s[k]].route.distance))
  }

  function Minutes(r: DriverRoute): real {
    r.minutes as real
  }

  function EligibleAmong(order: Order, all: seq<Driver>, env: Env): seq<Driver> {
    Filter(all, (d: Driver) => Eligible(order, env, d))
  }

  function FastAmong(order: Order, routes: seq<DriverRoute>): seq<DriverRoute> {
    Filter(routes, (r: DriverRoute) => FastEnough(order, r.minutes))
  }

  ghost predicate Shortlist(order: Order, all: seq<Driver>, env: Env, short: seq<Driver>) {
    SmallestOf(short, EligibleAmong(order, all, env), env.distance, HAVERSINE_CANDIDATES_COUNT)
  }

  ghost predicate Chosen(order: Order, env: Env, short: seq<Driver>, chosen: seq<DriverRoute>) {
    SmallestOf(chosen, FastAmong(order, Routes(Attempts(env, short))), Minutes, GOOGLE_API_CANDIDATES_COUNT)
  }

  ghost predicate PicksOf(short: seq<Driver>, chosen: seq<DriverRoute>, picks: seq<Pick>) {
    && |picks| == |chosen|
    && forall n | 0 <= n < |picks| ::
         chosen[n].index < |short| && picks[n] == Pick(short[chosen[n].index], chosen[n].distance, chosen[n].minutes)
  }

  /** An error exactly if no shortlisted driver got a route. */
  ghost predicate Selects(order: Order, all: seq<Driver>, env: Env, short: seq<Driver>, chosen: seq<DriverRoute>,
                          result: Result<seq<Pick>>)
  {
    && Shortlist(order, all, env, short)
    && (result.Err? <==> Served(Attempts(env, short)) == [])
    && (result.Ok? ==> Chosen(order, env, short, chosen) && PicksOf(short, chosen, result.value))
  }

  // ----- The pipeline

  method FindCandidateDrivers(order: Order, all: seq<Driver>, env: Env) returns (result: Result<seq<Pick>>)
    ensures (forall d | d in all :: !(Queried(d) && Valid(order, env, d))) ==> result == Ok([])
    ensures (exists d | d in all :: Queried(d) && Valid(order, env, d)) ==>
              exists short, chosen :: Selects(order, all, env, short, chosen, result)
  {
    var noneValid, short := Nearest(order, all, env);
    if noneValid {
      return Ok([]);
    }
    var routes := DirectionsMatrixInverse(Attempts(env, short));
    if routes.Err? {
      assert Selects(order, all, env, short, [], Err);
      return Err;
    }
    var kept := KeepFast(order, env, short, routes.value);
    var picks;
    ghost var chosen;
    picks, chosen := Fastest(short, kept);
    assert Selects(order, all, env, short, chosen, Ok(picks));
    return Ok(picks);
  }

  /** Steps 2 and 3: filter, sort by straight-line distance, truncate. */
  method Nearest(order: Order, all: seq<Driver>, env: Env) returns (noneValid: bool, short: seq<Driver>)
    ensures noneValid <==> forall d | d in all :: !(Queried(d) && Valid(order, env, d))
    ensures !noneValid ==> Shortlist(order, all, env, short)
  {
    var dists;
    noneValid, dists := FilterDrivers(order, all, env);
    if noneValid {
      return noneValid, [];
    }
    var sorted := SortSlice(dists, env.distance);
    PrefixOfSorted(dists, sorted, env.distance, HAVERSINE_CANDIDATES_COUNT);
    short := sorted;
    if |short| > HAVERSINE_CANDIDATES_COUNT {
      short := short[..HAVERSINE_CANDIDATES_COUNT];
    }
  }

  /** The last step: sort by time, truncate, and look the drivers up by position. */
  method Fastest(short: seq<Driver>, kept: seq<DriverRoute>) returns (picks: seq<Pick>, ghost chosen: seq<DriverRoute>)
    requires forall r | r in kept :: r.index < |short|
    ensures SmallestOf(chosen, kept, Minutes, GOOGLE_API_CANDIDATES_COUNT) && PicksOf(short, chosen, picks)
  {
    var byTime := SortSlice(kept, Minutes);
    PrefixOfSorted(kept, byTime, Minutes, GOOGLE_API_CANDIDATES_COUNT);
    PermutationLength(kept, byTime);
    var candidateCount := GOOGLE_API_CANDIDATES_COUNT;
    if |byTime| < candidateCount {
      candidateCount := |byTime|;
    }
    chosen := Take(byTime, GOOGLE_API_CANDIDATES_COUNT);
    StillInRange(kept, byTime, |short|);
    assert byTime[..candidateCount] == chosen;
    picks := LookUp(short, byTime, candidateCount);
  }

  lemma StillInRange(kept: seq<DriverRoute>, byTime: seq<DriverRoute>, n: nat)
    requires multiset(kept) == multiset(byTime) && forall r | r in kept :: r.index < n
    ensures forall k | 0 <= k < |byTime| :: byTime[k].index < n
  {
    forall k | 0 <= k < |byTime| ensures byTime[k].index < n {
      assert byTime[k] in multiset(byTime);
      assert byTime[k] in multiset(kept);
    }
  }

  method LookUp(short: seq<Driver>, byTime: seq<DriverRoute>, candidateCount: nat) returns (picks: seq<Pick>)
    requires candidateCount <= |byTime| && forall k | 0 <= k < |byTime| :: byTime[k].index < |short|
    ensures PicksOf(short, byTime[..candidateCount], picks)
  {
    picks := [];
    for i := 0 to candidateCount
      invariant PicksOf(short, byTime[..i], picks)
    {
      var route := byTime[i];
      picks := picks + [Pick(short[route.index], route.distance, route.minutes)];
    }
  }

  /** The filtering loops: which drivers stay, and whether any was valid before distances were looked at. */
  method FilterDrivers(order: Order, all: seq<Driver>, env: Env) returns (noneValid: bool, dists: seq<Driver>)
    ensures noneValid <==> forall d | d in all :: !(Queried(d) && Valid(order, env, d))
    ensures dists == EligibleAmong(order, all, env)
  {
    noneValid, dists := true, [];
    for i := 0 to |all|
      invariant noneValid <==> forall d | d in all[..i] :: !(Queried(d) && Valid(order, env, d))
      invariant dists == EligibleAmong(order, all[..i], env)
    {
      var d := all[i];
      OneMore(order, all, env, i);
      if !Queried(d) {
        continue;
      }
      var ok := CheckDriver(order, env, d);
      if !ok {
        continue;
      }
      noneValid := false;
      if env.distance(d) > MAX_DRIVER_DISTANCE_KM && order.fleet != WEI {
        continue;
      }
      dists := dists + [d];
    }
    assert all[..|all|] == all;
  }

  lemma OneMore(order: Order, all: seq<Driver>, env: Env, i: nat)
    requires i < |all|
    ensures EligibleAmong(order, all[..i + 1], env)
            == EligibleAmong(order, all[..i], env) + if Eligible(order, env, all[i]) then [all[i]] else []
    ensures forall d :: d in all[..i + 1] <==> d in all[..i] || d == all[i]
  {
    assert all[..i + 1][..i] == all[..i];
  }

  method KeepFast(order: Order, env: Env, short: seq<Driver>, routes: seq<Route>) returns (kept: seq<DriverRoute>)
    requires var s := Served(Attempts(env, short));
             |routes| == |s| && forall k | 0 <= k < |s| :: routes[k] == Attempts(env, short)[s[k]].route
    ensures kept == FastAmong(order, Routes(Attempts(env, short)))
    ensures forall r | r in kept :: r.index < |short|
  {
    ghost var ranked := Routes(Attempts(env, short));
    AtMostOnePerOrigin(Attempts(env, short));
    kept := [];
    for i := 0 to |routes|
      invariant kept == FastAmong(order, ranked[..i])
    {
      assert ranked[..i + 1][..i] == ranked[..i];
      if i < |short| {
        if routes[i].minutes > MAX_ESTIMATED_TIME_MINS && order.fleet != WEI {
          continue;
        }
        kept := kept + [DriverRoute(i, routes[i].minutes, routes[i].distance)];
      }
    }
    assert ranked[..|routes|] == ranked;
  }

  lemma {:induction false} AtMostOnePerOrigin(attempts: seq<Attempt>)
    ensures |Served(attempts)| <= |attempts|
  {
    if attempts != [] {
      AtMostOnePerOrigin(attempts[..|attempts| - 1]);
    }
  }

  // ----- Main results

  /** The pick carries the route that was found for this very driver. */
  predicate OwnRoute(env: Env, pick: Pick) {
    env.lookup(pick.driver).Shown?
    && env.lookup(pick.driver).route.minutes == pick.minutes && env.lookup(pick.driver).route.distance == pick.distance
  }

  lemma RoutesDistinct(attempts: seq<Attempt>)
    ensures Distinct(Routes(attempts))
    ensures forall r, q | r in Routes(attempts) && q in Routes(attempts) && r.index == q.index :: r == q
  {
  }

  lemma AlignedRoute(env: Env, short: seq<Driver>, r: DriverRoute)
    requires Aligned(Attempts(env, short)) && r in Routes(Attempts(env, short))
    ensures r.index < |short| && Usable(env.lookup(short[r.index]))
    ensures env.lookup(short[r.index]).route.minutes == r.minutes
    ensures env.lookup(short[r.index]).route.distance == r.distance
  {
    var attempts := Attempts(env, short);
    var k :| 0 <= k < |Routes(attempts)| && Routes(attempts)[k] == r;
    assert Served(attempts)[k] == k;
  }

  /** The route of a shortlisted driver that got one. */
  lemma RouteOf(env: Env, short: seq<Driver>, d: Driver) returns (r: DriverRoute)
    requires Aligned(Attempts(env, short)) && d in short && Usable(env.lookup(d))
    ensures r in Routes(Attempts(env, short)) && r.minutes == env.lookup(d).route.minutes
    ensures r.index < |short| && short[r.index] == d
  {
    var attempts := Attempts(env, short);
    var i: nat :| i < |short| && short[i] == d;
    assert attempts[i] == env.lookup(d);
    var k :| 0 <= k < |Served(attempts)| && Served(attempts)[k] == i;
    assert k == i;
    r := Routes(attempts)[k];
  }

  lemma ChosenIsFast(order: Order, env: Env, short: seq<Driver>, chosen: seq<DriverRoute>, r: DriverRoute)
    requires Chosen(order, env, short, chosen) && r in chosen
    ensures r in Routes(Attempts(env, short)) && FastEnough(order, r.minutes)
  {
    var fast := FastAmong(order, Routes(Attempts(env, short)));
    assert r in multiset(chosen) && r in multiset(fast);
    assert r in fast;
  }

  lemma ShortlistIsEligible(order: Order, all: seq<Driver>, env: Env, short: seq<Driver>)
    requires Shortlist(order, all, env, short)
    ensures forall d | d in short :: d in all && Eligible(order, env, d)
  {
    var eligible := EligibleAmong(order, all, env);
    forall d | d in short ensures d in eligible {
      assert d in multiset(short) && d in multiset(eligible);
    }
  }

  lemma ShortlistIsDistinct(order: Order, all: seq<Driver>, env: Env, short: seq<Driver>)
    requires Shortlist(order, all, env, short) && UniqueIds(all)
    ensures Distinct(short)
  {
    assert Distinct(all);
    var eligible := EligibleAmong(order, all, env);
    SubsetOfDistinct(eligible, all);
    SubsetOfDistinct(short, eligible);
  }

  lemma ChosenIsDistinct(order: Order, env: Env, short: seq<Driver>, chosen: seq<DriverRoute>)
    requires Chosen(order, env, short, chosen)
    ensures forall m, n | 0 <= m < n < |chosen| :: chosen[m].index != chosen[n].index
  {
    var routes := Routes(Attempts(env, short));
    var fast := FastAmong(order, routes);
    RoutesDistinct(Attempts(env, short));
    SubsetOfDistinct(fast, routes);
    SubsetOfDistinct(chosen, fast);
    forall m, n | 0 <= m < n < |chosen| ensures chosen[m].index != chosen[n].index {
      ChosenIsFast(order, env, short, chosen, chosen[m]);
      ChosenIsFast(order, env, short, chosen, chosen[n]);
    }
  }

  /** At most 5 candidates out of at most 15, all different, in nondecreasing time. */
  lemma PicksAreDistinctAndOrdered(order: Order, all: seq<Driver>, env: Env, short: seq<Driver>,
                                   chosen: seq<DriverRoute>, picks: seq<Pick>)
    requires Selects(order, all, env, short, chosen, Ok(picks)) && UniqueIds(all)
    ensures |picks| <= GOOGLE_API_CANDIDATES_COUNT && |short| <= HAVERSINE_CANDIDATES_COUNT
    ensures forall m, n | 0 <= m < n < |picks| ::
              picks[m].driver.id != picks[n].driver.id && picks[m].minutes <= picks[n].minutes
  {
    ShortlistIsDistinct(order, all, env, short);
    ShortlistIsEligible(order, all, env, short);
    ChosenIsDistinct(order, env, short, chosen);
    forall m, n | 0 <= m < n < |picks|
      ensures picks[m].driver.id != picks[n].driver.id && picks[m].minutes <= picks[n].minutes
    {
      assert Minutes(chosen[m]) <= Minutes(chosen[n]);
      assert picks[m].driver in all && picks[n].driver in all;
    }
  }

  /** Every candidate passes every filter, is among the shortlisted, and carries its own route. */
  lemma PicksAreSound(order: Order, all: seq<Driver>, env: Env, short: seq<Driver>, chosen: seq<DriverRoute>,
                      picks: seq<Pick>, n: nat)
    requires Selects(order, all, env, short, chosen, Ok(picks)) && Aligned(Attempts(env, short)) && n < |picks|
    ensures var d := picks[n].driver;
            && d in all && d in short && Eligible(order, env, d)
            && OwnRoute(env, picks[n]) && FastEnough(order, picks[n].minutes)
  {
    ShortlistIsEligible(order, all, env, short);
    ChosenIsFast(order, env, short, chosen, chosen[n]);
    AlignedRoute(env, short, chosen[n]);
  }

  /** No shortlisted driver that was left out and has an acceptable route is faster than a candidate. */
  lemma NobodyFasterLeftOut(order: Order, all: seq<Driver>, env: Env, short: seq<Driver>, chosen: seq<DriverRoute>,
                            picks: seq<Pick>, d: Driver, n: nat)
    requires Selects(order, all, env, short, chosen, Ok(picks)) && Aligned(Attempts(env, short)) && n < |picks|
    requires d in short && Usable(env.lookup(d)) && FastEnough(order, env.lookup(d).route.minutes)
    requires forall k | 0 <= k < |picks| :: picks[k].driver != d
    ensures picks[n].minutes <= env.lookup(d).route.minutes
  {
    var r := RouteOf(env, short, d);
    var fast := FastAmong(order, Routes(Attempts(env, short)));
    assert r in fast;
    assert r !in chosen by {
      forall k | 0 <= k < |chosen| ensures chosen[k] != r {
        assert picks[k].driver == short[chosen[k].index];
      }
    }
    assert Minutes(chosen[n]) <= Minutes(r);
  }

  /** No eligible driver outside the shortlist is nearer than one on it. */
  lemma NobodyNearerLeftOut(order: Order, all: seq<Driver>, env: Env, short: seq<Driver>, d: Driver, e: Driver)
    requires Shortlist(order, all, env, short)
    requires d in all && Eligible(order, env, d) && d !in short && e in short
    ensures env.distance(e) <= env.distance(d)
  {
    assert d in EligibleAmong(order, all, env);
  }

  /** Main result. When routes are aligned with their origins (in particular when every origin got one,
      Crawler.EqualLengthsMeanAligned), the selection is sound and optimal. */
  lemma SelectionIsOptimal(order: Order, all: seq<Driver>, env: Env, short: seq<Driver>, chosen: seq<DriverRoute>,
                           picks: seq<Pick>)
    requires Selects(order, all, env, short, chosen, Ok(picks)) && UniqueIds(all) && Aligned(Attempts(env, short))
    ensures |picks| <= GOOGLE_API_CANDIDATES_COUNT && |short| <= HAVERSINE_CANDIDATES_COUNT
    ensures forall m, n | 0 <= m < n < |picks| ::
              picks[m].driver.id != picks[n].driver.id && picks[m].minutes <= picks[n].minutes
    ensures forall n | 0 <= n < |picks| ::
              && picks[n].driver in all && picks[n].driver in short && Eligible(order, env, picks[n].driver)
              && OwnRoute(env, picks[n]) && FastEnough(order, picks[n].minutes)
    ensures forall d, n | d in short && Usable(env.lookup(d)) && FastEnough(order, env.lookup(d).route.minutes)
              && 0 <= n < |picks| && (forall k | 0 <= k < |picks| :: picks[k].driver != d) ::
              picks[n].minutes <= env.lookup(d).route.minutes
    ensures forall d, e | d in all && Eligible(order, env, d) && d !in short && e in short ::
              env.distance(e) <= env.distance(d)
  {
    PicksAreDistinctAndOrdered(order, all, env, short, chosen, picks);
    forall n: nat | n < |picks|
      ensures picks[n].driver in all && picks[n].driver in short && Eligible(order, env, picks[n].driver)
              && OwnRoute(env, picks[n]) && FastEnough(order, picks[n].minutes)
    {
      PicksAreSound(order, all, env, short, chosen, picks, n);
    }
    forall d, n: nat | d in short && Usable(env.lookup(d)) && FastEnough(order, env.lookup(d).route.minutes)
      && n < |picks| && (forall k | 0 <= k < |picks| :: picks[k].driver != d)
      ensures picks[n].minutes <= env.lookup(d).route.minutes
    {
      NobodyFasterLeftOut(order, all, env, short, chosen, picks, d, n);
    }
    forall d, e | d in all && Eligible(order, env, d) && d !in short && e in short
      ensures env.distance(e) <= env.distance(d)
    {
      NobodyNearerLeftOut(order, all, env, short, d, e);
    }
  }

  /** WEI orders go to WEI drivers whatever the distance and time; RSK and KD orders never do. */
  /** What a driver must be like to be ranked for an order, in the words of the business rules. */
  lemma RankedExactlyIfFit(order: Order, all: seq<Driver>, env: Env, d: Driver)
    ensures d in EligibleAmong(order, all, env)
            <==> && d in all
                 && d.isOnline && d.status == Idle && d.isActive != Some(false) && d.isApproved != Some(false)
                 && (env.blacklistEnabled ==> env.blacklisted(d) == Ok(false)) && env.probe(d) == Ok(true)
                 && !(order.orderType == Instant && d.hasSchedule
                      && exists t :: d.scheduledTime == Some(t) && env.now < t <= env.now + 3600000)
                 && (order.fleet == WEI ==> d.fleet == WEI)
                 && (order.fleet == RSK || order.fleet == KD ==> d.fleet != WEI)
                 && order.fleet !in d.rejectList && d.lat != 0.0 && d.lng != 0.0
                 && (order.fleet == WEI || env.distance(d) <= 15.0)
  {
    ScheduleClash(order, d, env.now);
  }

  /** Of every candidate: it is online, idle, neither inactive nor unapproved, clear of the blacklist, not being notified of
      another order, of a fleet that may take the order and has not refused its fleet, has a position within 15 km unless
      the order is WEI, and has no schedule due within the hour of an instant order; the time it comes with is within 20 min
      unless the order is WEI. There are at most five, from at most 15 that are ranked nearest. */
  lemma PicksAreFit(order: Order, all: seq<Driver>, env: Env, short: seq<Driver>, chosen: seq<DriverRoute>,
                    picks: seq<Pick>, n: nat)
    requires Selects(order, all, env, short, chosen, Ok(picks)) && n < |picks|
    ensures var d := picks[n].driver;
            && d in all && d in short && |picks| <= 5 && |short| <= 15
            && d.isOnline && d.status == Idle && d.isActive != Some(false) && d.isApproved != Some(false)
            && (env.blacklistEnabled ==> env.blacklisted(d) == Ok(false)) && env.probe(d) == Ok(true)
            && (order.orderType == Instant && d.hasSchedule ==>
                  forall t :: d.scheduledTime == Some(t) ==> t <= env.now || env.now + 3600000 < t)
            && (order.fleet == WEI ==> d.fleet == WEI)
            && (order.fleet == RSK || order.fleet == KD ==> d.fleet != WEI)
            && order.fleet !in d.rejectList && d.lat != 0.0 && d.lng != 0.0
            && (order.fleet != WEI ==> env.distance(d) <= 15.0 && picks[n].minutes <= 20)
  {
    ShortlistIsEligible(order, all, env, short);
    ChosenIsFast(order, env, short, chosen, chosen[n]);
    assert picks[n].driver in short;
    RankedExactlyIfFit(order, all, env, picks[n].driver);
  }

  /** Five candidates, or all that remain: with k usable routes of an acceptable time there are min(5, k) candidates, and the
      15 nearest, or all, of the ranked drivers are asked for routes. */
  lemma NobodyIsDroppedNeedlessly(order: Order, all: seq<Driver>, env: Env, short: seq<Driver>, chosen: seq<DriverRoute>,
                                  picks: seq<Pick>)
    requires Selects(order, all, env, short, chosen, Ok(picks))
    ensures var ranked := EligibleAmong(order, all, env);
            |short| == if |ranked| < 15 then |ranked| else 15
    ensures var acceptable := Filter(Routes(Attempts(env, short)), (r: DriverRoute) => r.minutes <= 20 || order.fleet == WEI);
            |picks| == if |acceptable| < 5 then |acceptable| else 5
  {
    SameFilter(Routes(Attempts(env, short)), (r: DriverRoute) => FastEnough(order, r.minutes),
               (r: DriverRoute) => r.minutes <= 20 || order.fleet == WEI);
  }

  lemma {:induction false} SameFilter<T(!new)>(xs: seq<T>, p: T -> bool, q: T -> bool)
    requires forall x :: p(x) == q(x)
    ensures Filter(xs, p) == Filter(xs, q)
  {
    if xs != [] {
      SameFilter(xs[..|xs| - 1], p, q);
    }
  }

  lemma FleetRule(order: Order, all: seq<Driver>, env: Env, short: seq<Driver>, chosen: seq<DriverRoute>,
                  picks: seq<Pick>)
    requires Selects(order, all, env, short, chosen, Ok(picks))
    ensures forall n | 0 <= n < |picks| ::
              && (order.fleet == WEI ==> picks[n].driver.fleet == WEI)
              && (order.fleet == RSK || order.fleet == KD ==> picks[n].driver.fleet != WEI)
  {
    var eligible := EligibleAmong(order, all, env);
    forall n | 0 <= n < |picks| ensures picks[n].driver in eligible {
      assert picks[n].driver in multiset(short);
      assert picks[n].driver in multiset(eligible);
    }
  }
}
