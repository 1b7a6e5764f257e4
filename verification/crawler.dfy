/** DirectionsMatrixInverse (service/crawler_service.go): one route lookup per origin on one shared browser page. What
    the page shows for an origin is given; lookups that fail or show nothing usable are skipped. */
module Crawler {
  import opened Model

  datatype Route = Route(minutes: int, km: real, time: string, distance: string)

  /** A lookup either fails on the page or shows a route, parsed to minutes and kilometres (0 if unreadable). */
  datatype Attempt = Failed | Shown(route: Route)

  predicate Usable(a: Attempt) {
    a.Shown? && a.route.minutes > 0 && a.route.km > 0.0
  }

  /** The origins that got a route, in order. */
  function Served(attempts: seq<Attempt>): (idxs: seq<nat>)
    ensures forall k | 0 <= k < |idxs| :: idxs[k] < |attempts| && Usable(attempts[idxs[k]])
    ensures forall j, k | 0 <= j < k < |idxs| :: idxs[j] < idxs[k]
    ensures forall i: nat | i < |attempts| && Usable(attempts[i]) :: i in idxs
  {
    if attempts == [] then []
    else
      var n := |attempts| - 1;
      Served(attempts[..n]) + if Usable(attempts[n]) then [n] else []
  }

  /** An origin is served exactly if its lookup showed a route with a positive time and a positive length. */
  lemma ServedExactlyIfUsable(attempts: seq<Attempt>, i: nat)
    ensures i in Served(attempts)
            <==> i < |attempts|
                 && exists r :: attempts[i] == Shown(r) && r.minutes > 0 && r.km > 0.0
  {
    if i < |attempts| && Usable(attempts[i]) {
      assert attempts[i] == Shown(attempts[i].route);
    }
  }

  lemma ServedStep(attempts: seq<Attempt>, i: nat)
    requires i < |attempts|
    ensures Served(attempts[..i + 1]) == Served(attempts[..i]) + if Usable(attempts[i]) then [i] else []
  {
    assert attempts[..i + 1][..i] == attempts[..i];
  }

  ghost predicate RoutesOf(routes: seq<Route>, attempts: seq<Attempt>, idxs: seq<nat>) {
    && |routes| == |idxs|
    && forall k | 0 <= k < |routes| :: idxs[k] < |attempts| && Usable(attempts[idxs[k]]) && routes[k] == attempts[idxs[k]].route
  }

  /** One route per served origin, in the order of the origins; an error if there is none. A page that cannot be prepared
      has the same outcome as failing every lookup. */
  method DirectionsMatrixInverse(attempts: seq<Attempt>) returns (result: Result<seq<Route>>)
    ensures Served(attempts) == [] <==> result.Err?
    ensures result.Ok? ==>
              && |result.value| == |Served(attempts)|
              && forall k | 0 <= k < |result.value| :: result.value[k] == attempts[Served(attempts)[k]].route
  {
    var results: seq<Route> := [];
    for i := 0 to |attempts|
      invariant RoutesOf(results, attempts, Served(attempts[..i]))
    {
      ServedStep(attempts, i);
      if attempts[i].Failed? {
        continue;
      }
      if attempts[i].route.minutes > 0 && attempts[i].route.km > 0.0 {
        results := results + [attempts[i].route];
      }
    }
    assert attempts[..|attempts|] == attempts;
    if |results| == 0 {
      return Err;
    }
    return Ok(results);
  }

  /** The caller pairs route k with origin k. */
  ghost predicate Aligned(attempts: seq<Attempt>) {
    forall k | 0 <= k < |Served(attempts)| :: Served(attempts)[k] == k
  }

  /** Positional pairing is right exactly when no origin without a route comes before one with a route. */
  lemma AlignedExactlyIfServedFirst(attempts: seq<Attempt>)
    ensures Aligned(attempts)
            <==> forall i: nat, j: nat | i < j < |attempts| && Usable(attempts[j]) :: Usable(attempts[i])
  {
    var s := Served(attempts);
    if Aligned(attempts) {
      forall i: nat, j: nat | i < j < |attempts| && Usable(attempts[j]) ensures Usable(attempts[i]) {
        var k :| 0 <= k < |s| && s[k] == j;
        assert s[i] == i;
      }
    }
    if forall i: nat, j: nat | i < j < |attempts| && Usable(attempts[j]) :: Usable(attempts[i]) {
      PrefixServed(attempts, |s|);
    }
  }

  lemma {:induction false} PrefixServed(attempts: seq<Attempt>, k: nat)
    requires k <= |Served(attempts)|
    requires forall i: nat, j: nat | i < j < |attempts| && Usable(attempts[j]) :: Usable(attempts[i])
    ensures forall j | 0 <= j < k :: Served(attempts)[j] == j
  {
    var s := Served(attempts);
    if k > 0 {
      PrefixServed(attempts, k - 1);
      var i: nat := k - 1;
      AtLeastPosition(s, i);
      assert Usable(attempts[i]);
      var m :| 0 <= m < |s| && s[m] == i;
      assert i <= m;
    }
  }

  lemma {:induction false} AtLeastPosition(s: seq<nat>, i: nat)
    requires i < |s| && forall j, k | 0 <= j < k < |s| :: s[j] < s[k]
    ensures i <= s[i]
  {
    if i > 0 {
      AtLeastPosition(s, i - 1);
    }
  }

  /** As many routes as origins: every origin has its own route at its own position. */
  lemma EqualLengthsMeanAligned(attempts: seq<Attempt>)
    requires |Served(attempts)| == |attempts|
    ensures Aligned(attempts) && forall i | 0 <= i < |attempts| :: Usable(attempts[i])
  {
    var s := Served(attempts);
    forall k | 0 <= k < |s| ensures s[k] == k {
      AtLeastPosition(s, k);
      AtMostPosition(s, k, |attempts|);
    }
    forall i | 0 <= i < |attempts| ensures Usable(attempts[i]) {
      assert s[i] == i;
    }
  }

  lemma {:induction false} AtMostPosition(s: seq<nat>, i: nat, n: nat)
    requires i < |s| == n
    requires forall j, k | 0 <= j < k < |s| :: s[j] < s[k]
    requires forall k | 0 <= k < |s| :: s[k] < n
    ensures s[i] <= i
    decreases n - i
  {
    if i + 1 < n {
      AtMostPosition(s, i + 1, n);
    }
  }
}
