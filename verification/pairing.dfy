/** Pairing routes with drivers by position (background/dispatcher.go): exactly which outcomes of the route lookups let every
    candidate keep its own route. */
module Pairing {
  import opened Model
  import opened Ranking
  import opened Crawler
  import opened Candidates

  /** Which of the shortlisted drivers got a route. */
  function Pattern(env: Env, short: seq<Driver>): seq<bool> {
    seq(|short|, i requires 0 <= i < |short| => Usable(env.lookup(short[i])))
  }

  ghost predicate ServedFirst(pattern: seq<bool>) {
    forall i, j | 0 <= i < j < |pattern| && pattern[j] :: pattern[i]
  }

  /** One selection: its inputs, its choices and its result. */
  datatype Selection = Selection(order: Order, all: seq<Driver>, env: Env, short: seq<Driver>, chosen: seq<DriverRoute>,
                                 picks: seq<Pick>)

  ghost predicate Possible(n: Selection, pattern: seq<bool>) {
    UniqueIds(n.all) && Pattern(n.env, n.short) == pattern && Selects(n.order, n.all, n.env, n.short, n.chosen, Ok(n.picks))
  }

  ghost predicate AllOwnRoutes(n: Selection) {
    forall k | 0 <= k < |n.picks| :: OwnRoute(n.env, n.picks[k])
  }

  lemma PatternIsAlignment(env: Env, short: seq<Driver>)
    ensures Aligned(Attempts(env, short)) <==> ServedFirst(Pattern(env, short))
  {
    var (attempts, pattern) := (Attempts(env, short), Pattern(env, short));
    AlignedExactlyIfServedFirst(attempts);
    assert forall i | 0 <= i < |short| :: pattern[i] == Usable(attempts[i]);
  }

  // ----- A selection that gives a driver another driver's route, for every other pattern

  /** Driver number i; its number is the length of its identifier. */
  function Numbered(i: nat): Driver {
    Driver(seq(i, _ => 'd'), true, None, None, Idle, false, None, RSK, [], 25.0, 121.5)
  }

  const RSKOrder := Order(Instant, RSK)

  /** Driver j's route takes one minute, everybody else's two, and only the drivers of the pattern have one. */
  function RouteTo(pattern: seq<bool>, j: nat, d: Driver): Attempt {
    if |d.id| < |pattern| && pattern[|d.id|] then Shown(Route(if |d.id| == j then 1 else 2, 1.0, "", "")) else Attempt.Failed
  }

  function EnvOf(pattern: seq<bool>, j: nat): Env {
    Env(0, false, (_: Driver) => Ok(false), (_: Driver) => Ok(true), (_: Driver) => 0.0, (d: Driver) => RouteTo(pattern, j, d))
  }

  function AllNumbered(n: nat): seq<Driver> {
    seq(n, i requires 0 <= i < n => Numbered(i))
  }

  lemma NumberedAreEligible(pattern: seq<bool>, j: nat, n: nat)
    ensures EligibleAmong(RSKOrder, AllNumbered(n), EnvOf(pattern, j)) == AllNumbered(n)
  {
    EverybodyStays(AllNumbered(n), (d: Driver) => Eligible(RSKOrder, EnvOf(pattern, j), d));
  }

  lemma {:induction false} EverybodyStays<T(!new)>(xs: seq<T>, p: T -> bool)
    requires forall x | x in xs :: p(x)
    ensures Filter(xs, p) == xs
  {
    if xs != [] {
      EverybodyStays(xs[..|xs| - 1], p);
      assert xs == xs[..|xs| - 1] + [xs[|xs| - 1]];
    }
  }

  /** The k-th route found belongs to driver j, who is not driver k. */
  function Misplaced(pattern: seq<bool>, k: nat, j: nat): Selection
    requires k < |Routes(Attempts(EnvOf(pattern, j), AllNumbered(|pattern|)))|
  {
    var env, short := EnvOf(pattern, j), AllNumbered(|pattern|);
    var chosen := Take(Fronted(Routes(Attempts(env, short)), k), GOOGLE_API_CANDIDATES_COUNT);
    Selection(RSKOrder, short, env, short, chosen, PairUp(short, chosen))
  }

  /** Element k moved to the front. */
  function Fronted<T>(xs: seq<T>, k: nat): seq<T>
    requires k < |xs|
  {
    [xs[k]] + xs[..k] + xs[k + 1..]
  }

  function PairUp(short: seq<Driver>, chosen: seq<DriverRoute>): seq<Pick> {
    seq(|chosen|, n requires 0 <= n < |chosen| =>
      Pick(if chosen[n].index < |short| then short[chosen[n].index] else Numbered(0), chosen[n].distance, chosen[n].minutes))
  }

  lemma FrontedIsPermutation<T>(xs: seq<T>, k: nat)
    requires k < |xs|
    ensures multiset(Fronted(xs, k)) == multiset(xs)
  {
    assert xs == xs[..k] + [xs[k]] + xs[k + 1..];
  }

  lemma FrontedIsSorted(routes: seq<DriverRoute>, k: nat)
    requires k < |routes| && routes[k].minutes == 1 && forall i | 0 <= i < |routes| :: 1 <= routes[i].minutes <= 2
    requires forall i | 0 <= i < |routes| && i != k :: routes[i].minutes == 2
    ensures SortedBy(Fronted(routes, k), Minutes)
  {
    var f := Fronted(routes, k);
    assert forall i | 0 < i < |f| :: f[i] == routes[if i <= k then i - 1 else i];
  }

  lemma AllShortlisted(pattern: seq<bool>, j: nat, n: nat)
    requires n <= HAVERSINE_CANDIDATES_COUNT
    ensures Shortlist(RSKOrder, AllNumbered(n), EnvOf(pattern, j), AllNumbered(n)) && UniqueIds(AllNumbered(n))
  {
    NumberedAreEligible(pattern, j, n);
    var all := AllNumbered(n);
    assert SortedBy(all, EnvOf(pattern, j).distance);
    assert forall i, m | 0 <= i < m < n :: |all[i].id| != |all[m].id|;
  }

  lemma PatternOf(pattern: seq<bool>, j: nat)
    ensures Pattern(EnvOf(pattern, j), AllNumbered(|pattern|)) == pattern
    ensures var attempts := Attempts(EnvOf(pattern, j), AllNumbered(|pattern|));
            |attempts| == |pattern| && forall i | 0 <= i < |pattern| :: Usable(attempts[i]) == pattern[i]
  {
    forall i | 0 <= i < |pattern| ensures Usable(EnvOf(pattern, j).lookup(AllNumbered(|pattern|)[i])) == pattern[i] {
      assert AllNumbered(|pattern|)[i] == Numbered(i) && |Numbered(i).id| == i;
    }
  }

  lemma PairsUp(short: seq<Driver>, chosen: seq<DriverRoute>)
    requires forall r | r in chosen :: r.index < |short|
    ensures PicksOf(short, chosen, PairUp(short, chosen))
  {
    assert forall n | 0 <= n < |chosen| :: chosen[n] in chosen;
  }

  lemma IndicesInRange(env: Env, short: seq<Driver>, k: nat)
    requires k < |Routes(Attempts(env, short))|
    ensures forall r | r in Take(Fronted(Routes(Attempts(env, short)), k), GOOGLE_API_CANDIDATES_COUNT) :: r.index < |short|
  {
    AtMostOnePerOrigin(Attempts(env, short));
    var routes := Routes(Attempts(env, short));
    FrontedIsPermutation(routes, k);
    forall r | r in Fronted(routes, k) ensures r.index < |short| {
      assert r in multiset(routes);
    }
  }

  lemma MisplacedIsPossible(pattern: seq<bool>, k: nat, j: nat)
    requires |pattern| <= HAVERSINE_CANDIDATES_COUNT
    requires k < |Served(Attempts(EnvOf(pattern, j), AllNumbered(|pattern|)))|
    requires Served(Attempts(EnvOf(pattern, j), AllNumbered(|pattern|)))[k] == j
    ensures Possible(Misplaced(pattern, k, j), pattern)
  {
    var n := Misplaced(pattern, k, j);
    PatternOf(pattern, j);
    AllShortlisted(pattern, j, |pattern|);
    MinutesOf(pattern, k, j);
    ChoiceIsPossible(n.order, n.env, n.short, Routes(Attempts(n.env, n.short)), k);
    IndicesInRange(n.env, n.short, k);
    PairsUp(n.short, n.chosen);
  }

  lemma MisplacedIsWrong(pattern: seq<bool>, k: nat, j: nat)
    requires k < |Served(Attempts(EnvOf(pattern, j), AllNumbered(|pattern|)))|
    requires Served(Attempts(EnvOf(pattern, j), AllNumbered(|pattern|)))[k] == j != k
    ensures !AllOwnRoutes(Misplaced(pattern, k, j))
  {
    var n := Misplaced(pattern, k, j);
    AtMostOnePerOrigin(Attempts(n.env, n.short));
    MinutesOf(pattern, k, j);
    assert n.chosen[0] == Routes(Attempts(n.env, n.short))[k];
    assert n.picks[0].driver == Numbered(k) && n.picks[0].minutes == 1 && |Numbered(k).id| == k;
    assert !OwnRoute(n.env, n.picks[0]);
  }

  lemma MinutesOf(pattern: seq<bool>, k: nat, j: nat)
    requires k < |Served(Attempts(EnvOf(pattern, j), AllNumbered(|pattern|)))|
    requires Served(Attempts(EnvOf(pattern, j), AllNumbered(|pattern|)))[k] == j
    ensures var routes := Routes(Attempts(EnvOf(pattern, j), AllNumbered(|pattern|)));
            forall i | 0 <= i < |routes| :: routes[i].minutes == if i == k then 1 else 2
  {
    var attempts := Attempts(EnvOf(pattern, j), AllNumbered(|pattern|));
    var s := Served(attempts);
    forall i | 0 <= i < |s| ensures attempts[s[i]].route.minutes == if i == k then 1 else 2 {
      assert attempts[s[i]] == RouteTo(pattern, j, Numbered(s[i]));
      assert i != k ==> s[i] != s[k];
    }
  }

  lemma FrontedIsSmallest(routes: seq<DriverRoute>, k: nat)
    requires k < |routes| && forall i | 0 <= i < |routes| :: routes[i].minutes == if i == k then 1 else 2
    ensures SmallestOf(Take(Fronted(routes, k), GOOGLE_API_CANDIDATES_COUNT), routes, Minutes, GOOGLE_API_CANDIDATES_COUNT)
  {
    FrontedIsPermutation(routes, k);
    FrontedIsSorted(routes, k);
    PrefixOfSorted(routes, Fronted(routes, k), Minutes, GOOGLE_API_CANDIDATES_COUNT);
  }

  lemma AllAreFast(order: Order, routes: seq<DriverRoute>)
    requires forall r | r in routes :: FastEnough(order, r.minutes)
    ensures FastAmong(order, routes) == routes
  {
    EverybodyStays(routes, (r: DriverRoute) => FastEnough(order, r.minutes));
  }

  /** The one fastest route in front, then the first five. */
  lemma ChoiceIsPossible(order: Order, env: Env, short: seq<Driver>, routes: seq<DriverRoute>, k: nat)
    requires routes == Routes(Attempts(env, short)) && k < |routes|
    requires forall i | 0 <= i < |routes| :: routes[i].minutes == if i == k then 1 else 2
    ensures Chosen(order, env, short, Take(Fronted(routes, k), GOOGLE_API_CANDIDATES_COUNT))
  {
    AllAreFast(order, routes);
    FrontedIsSmallest(routes, k);
  }

  // ----- Main results

  /** For every outcome of the lookups of a shortlist: all selections with that outcome give every candidate its own route,
      exactly if no driver without a route comes before one with a route. */
  lemma OwnRoutesExactlyIfServedFirst(pattern: seq<bool>)
    requires |pattern| <= HAVERSINE_CANDIDATES_COUNT
    ensures (forall n | Possible(n, pattern) :: AllOwnRoutes(n)) <==> ServedFirst(pattern)
  {
    if ServedFirst(pattern) {
      forall n | Possible(n, pattern) ensures AllOwnRoutes(n) {
        PatternIsAlignment(n.env, n.short);
        forall k | 0 <= k < |n.picks| ensures OwnRoute(n.env, n.picks[k]) {
          PicksAreSound(n.order, n.all, n.env, n.short, n.chosen, n.picks, k);
        }
      }
    } else {
      var n := MisplacedSelection(pattern);
    }
  }

  lemma MisplacedSelection(pattern: seq<bool>) returns (n: Selection)
    requires |pattern| <= HAVERSINE_CANDIDATES_COUNT && !ServedFirst(pattern)
    ensures Possible(n, pattern) && !AllOwnRoutes(n)
  {
    var k := FirstGap(pattern);
    var j := Served(Attempts(EnvOf(pattern, 0), AllNumbered(|pattern|)))[k];
    SameRoutesFound(pattern, j);
    MisplacedIsPossible(pattern, k, j);
    MisplacedIsWrong(pattern, k, j);
    n := Misplaced(pattern, k, j);
  }

  /** Who gets a route does not depend on whose is fast. */
  lemma SameRoutesFound(pattern: seq<bool>, j: nat)
    ensures Served(Attempts(EnvOf(pattern, j), AllNumbered(|pattern|)))
            == Served(Attempts(EnvOf(pattern, 0), AllNumbered(|pattern|)))
  {
    PatternOf(pattern, 0);
    PatternOf(pattern, j);
    SameServed(Attempts(EnvOf(pattern, j), AllNumbered(|pattern|)), Attempts(EnvOf(pattern, 0), AllNumbered(|pattern|)));
  }

  lemma FirstGap(pattern: seq<bool>) returns (k: nat)
    requires !ServedFirst(pattern)
    ensures var s := Served(Attempts(EnvOf(pattern, 0), AllNumbered(|pattern|))); k < |s| && s[k] != k
  {
    PatternOf(pattern, 0);
    PatternIsAlignment(EnvOf(pattern, 0), AllNumbered(|pattern|));
    k :| k < |Served(Attempts(EnvOf(pattern, 0), AllNumbered(|pattern|)))|
         && Served(Attempts(EnvOf(pattern, 0), AllNumbered(|pattern|)))[k] != k;
  }

  lemma {:induction false} SameServed(a: seq<Attempt>, b: seq<Attempt>)
    requires |a| == |b| && forall i | 0 <= i < |a| :: Usable(a[i]) == Usable(b[i])
    ensures Served(a) == Served(b)
  {
    if a != [] {
      SameServed(a[..|a| - 1], b[..|b| - 1]);
    }
  }

  /** The smallest input: two eligible drivers, the first lookup fails. The only candidate is the first driver, with the
      second driver's route. */
  lemma FirstDriverGetsSecondRoute()
    ensures var env := EnvOf([false, true], 1);
            var short := [Numbered(0), Numbered(1)];
            && env.lookup(Numbered(0)) == Attempt.Failed && env.lookup(Numbered(1)) == Shown(Route(1, 1.0, "", ""))
            && Selects(RSKOrder, short, env, short, [DriverRoute(0, 1, "")], Ok([Pick(Numbered(0), "", 1)]))
  {
    TwoLookups();
    AllShortlisted([false, true], 1, 2);
    assert AllNumbered(2) == [Numbered(0), Numbered(1)];
    OnlySecondServed(AllNumbered(2), EnvOf([false, true], 1), AllNumbered(2), Numbered(0));
  }

  lemma OnlySecondServed(all: seq<Driver>, env: Env, short: seq<Driver>, d: Driver)
    requires |short| == 2 && short[0] == d && Shortlist(RSKOrder, all, env, short)
    requires env.lookup(d) == Attempt.Failed && env.lookup(short[1]) == Shown(Route(1, 1.0, "", ""))
    ensures Selects(RSKOrder, all, env, short, [DriverRoute(0, 1, "")], Ok([Pick(d, "", 1)]))
  {
    OneOfTwoServed(Attempts(env, short));
    OnlyRouteChosen(env, short);
    OnePick(short, d);
  }

  lemma OnePick(short: seq<Driver>, d: Driver)
    requires |short| == 2 && short[0] == d
    ensures PicksOf(short, [DriverRoute(0, 1, "")], [Pick(d, "", 1)])
  {
  }

  lemma TwoLookups()
    ensures var env := EnvOf([false, true], 1);
            env.lookup(Numbered(0)) == Attempt.Failed && env.lookup(Numbered(1)) == Shown(Route(1, 1.0, "", ""))
  {
    assert |Numbered(0).id| == 0 && |Numbered(1).id| == 1;
  }

  lemma OnlyRouteChosen(env: Env, short: seq<Driver>)
    requires Routes(Attempts(env, short)) == [DriverRoute(0, 1, "")]
    ensures Chosen(RSKOrder, env, short, [DriverRoute(0, 1, "")])
  {
    ChoiceIsPossible(RSKOrder, env, short, [DriverRoute(0, 1, "")], 0);
    assert Take(Fronted([DriverRoute(0, 1, "")], 0), GOOGLE_API_CANDIDATES_COUNT) == [DriverRoute(0, 1, "")];
  }

  lemma OneOfTwoServed(attempts: seq<Attempt>)
    requires |attempts| == 2 && attempts[0] == Attempt.Failed && attempts[1] == Shown(Route(1, 1.0, "", ""))
    ensures Served(attempts) == [1] && Routes(attempts) == [DriverRoute(0, 1, "")]
  {
    assert attempts[..1] == [Attempt.Failed] && attempts[..1][..0] == [];
    assert Served(attempts[..1]) == [];
  }
}
