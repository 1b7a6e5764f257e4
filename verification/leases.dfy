/** Any number of holders taking, renewing and giving back leases in one Redis. A run is a sequence of actions
    chosen by an adversary; every lock of the system (dispatch, driver notification, order reject, and the
    one-second test lock of the candidate filter) is an instance. */
module Leases {
  import opened Redis
  import opened LockValue

  /** What one successful acquisition leaves with its holder. `deadline` is the expiry the holder last asked
      for; `open` says that it has not released yet. */
  datatype Lease = Lease(key: Key, source: string, acquiredAt: nat, deadline: nat, open: bool) {
    function Value(): string {
      LockValue.LockValue(source, acquiredAt)
    }
  }

  /** `owner` records which lease wrote each key. No action reads it: it exists so that "its own lease" can be
      said. */
  datatype State = State(now: nat, store: Store<string>, leases: seq<Lease>, owner: map<Key, nat>)

  datatype Action =
    | Tick(ms: nat)
    | Acquire(key: Key, source: string, ttl: nat)
    | Release(id: nat)
    | Extend(id: nat, ttl: nat)

  const Initial := State(0, map[], [], map[])

  /** A holder releases at most once and renews only before that; every requested lifetime is at least minTtl. */
  predicate Enabled(s: State, a: Action, minTtl: nat) {
    match a
    case Tick(_) => true
    case Acquire(_, _, ttl) => minTtl <= ttl
    case Release(id) => id < |s.leases| && s.leases[id].open
    case Extend(id, ttl) => id < |s.leases| && s.leases[id].open && minTtl <= ttl
  }

  function Apply(s: State, a: Action): State
    requires Enabled(s, a, 0)
  {
    match a
    case Tick(ms) => s.(now := s.now + ms)
    case Acquire(key, source, ttl) =>
      var (store, ok) := SetNX(s.store, s.now, key, LockValue.LockValue(source, s.now), ttl);
      if ok then
        State(s.now, store, s.leases + [Lease(key, source, s.now, s.now + ttl, true)], s.owner[key := |s.leases|])
      else s
    case Release(id) =>
      var l := s.leases[id];
      var (store, _) := CompareAndDelete(s.store, s.now, l.key, l.Value());
      s.(store := store, leases := s.leases[id := l.(open := false)])
    case Extend(id, ttl) =>
      var l := s.leases[id];
      var (store, hit) := CompareAndExpire(s.store, s.now, l.key, l.Value(), ttl);
      if hit then s.(store := store, leases := s.leases[id := l.(deadline := s.now + ttl)]) else s
  }

  ghost predicate Runs(s: State, run: seq<Action>, minTtl: nat)
    decreases |run|
  {
    run == [] || (Enabled(s, run[0], minTtl) && Runs(Apply(s, run[0]), run[1..], minTtl))
  }

  ghost function Final(s: State, run: seq<Action>): State
    requires Runs(s, run, 0)
    decreases |run|
  {
    if run == [] then s else Final(Apply(s, run[0]), run[1..])
  }

  /** Lease i is the one its key's live entry belongs to. */
  predicate InForce(s: State, i: nat) {
    i < |s.leases| && Live(s.store, s.now, s.leases[i].key)
    && s.leases[i].key in s.owner && s.owner[s.leases[i].key] == i
  }

  /** Whenever the value comparison of a holder would succeed, the entry is the holder's own. */
  ghost predicate OwnLeaseOnly(s: State) {
    forall i: nat | i < |s.leases| && s.leases[i].open ::
      Holds(s.store, s.now, s.leases[i].key, s.leases[i].Value()) ==> InForce(s, i)
  }

  /** Unexpired open leases on one key are one lease. */
  ghost predicate Exclusive(s: State) {
    forall i: nat, j: nat | i < |s.leases| && j < |s.leases| ::
      s.leases[i].key == s.leases[j].key
      && s.leases[i].open && s.now < s.leases[i].deadline
      && s.leases[j].open && s.now < s.leases[j].deadline
      ==> i == j
  }

  // ----- The invariant

  ghost predicate LeaseOk(s: State, i: nat)
    requires i < |s.leases|
  {
    var l := s.leases[i];
    && l.acquiredAt <= s.now
    && l.acquiredAt + MS_PER_SECOND <= l.deadline
    && (l.open && s.now < l.deadline ==> InForce(s, i) && s.store[l.key] == Entry(l.Value(), l.deadline))
  }

  ghost predicate LaterSecond(s: State, i: nat, j: nat)
    requires i < j < |s.leases|
  {
    s.leases[i].key == s.leases[j].key && s.leases[i].open
    ==> s.leases[i].acquiredAt + MS_PER_SECOND <= s.leases[j].acquiredAt
  }

  ghost predicate OwnerOk(s: State, key: Key) {
    Live(s.store, s.now, key) ==>
      && key in s.owner && s.owner[key] < |s.leases|
      && var l := s.leases[s.owner[key]];
         l.key == key && l.open && s.store[key] == Entry(l.Value(), l.deadline)
  }

  ghost predicate Inv(s: State) {
    && (forall i: nat | i < |s.leases| :: LeaseOk(s, i))
    && (forall i: nat, j: nat | i < j < |s.leases| :: LaterSecond(s, i, j))
    && (forall key :: OwnerOk(s, key))
  }

  lemma InvMeansExclusive(s: State)
    requires Inv(s)
    ensures Exclusive(s)
  {
    forall i: nat, j: nat | i < |s.leases| && j < |s.leases|
      && s.leases[i].key == s.leases[j].key
      && s.leases[i].open && s.now < s.leases[i].deadline
      && s.leases[j].open && s.now < s.leases[j].deadline
      ensures i == j
    {
      assert LeaseOk(s, i) && LeaseOk(s, j);
    }
  }

  /** Two leases of one key with equal values: the one that is still open came at least a second earlier or is
      the same one. */
  lemma InvMeansOwnLeaseOnly(s: State)
    requires Inv(s)
    ensures OwnLeaseOnly(s)
  {
    forall i: nat | i < |s.leases| && s.leases[i].open
      && Holds(s.store, s.now, s.leases[i].key, s.leases[i].Value())
      ensures InForce(s, i)
    {
      var l := s.leases[i];
      assert OwnerOk(s, l.key);
      var j := s.owner[l.key];
      var m := s.leases[j];
      LockValueDeterminesSecond(l.source, l.acquiredAt, m.source, m.acquiredAt);
      assert i < j ==> LaterSecond(s, i, j);
      assert j < i ==> LaterSecond(s, j, i);
    }
  }

  lemma AcquireKeepsInv(s: State, key: Key, source: string, ttl: nat)
    requires Inv(s) && MS_PER_SECOND <= ttl
    ensures Inv(Apply(s, Acquire(key, source, ttl)))
  {
    var s' := Apply(s, Acquire(key, source, ttl));
    if !Live(s.store, s.now, key) {
      var n := |s.leases|;
      forall i: nat | i < |s'.leases| ensures LeaseOk(s', i) {
        if i < n {
          assert LeaseOk(s, i);
        }
      }
      forall i: nat, j: nat | i < j < |s'.leases| ensures LaterSecond(s', i, j) {
        if j < n {
          assert LaterSecond(s, i, j);
        } else {
          assert LeaseOk(s, i);
        }
      }
      forall k ensures OwnerOk(s', k) {
        assert OwnerOk(s, k);
      }
    }
  }

  lemma ReleaseKeepsInv(s: State, id: nat)
    requires Inv(s) && Enabled(s, Release(id), 0)
    ensures Inv(Apply(s, Release(id)))
  {
    var s' := Apply(s, Release(id));
    var key := s.leases[id].key;
    InvMeansOwnLeaseOnly(s);
    assert OwnerOk(s, key);
    forall i: nat | i < |s'.leases| ensures LeaseOk(s', i) {
      assert LeaseOk(s, i);
    }
    forall i: nat, j: nat | i < j < |s'.leases| ensures LaterSecond(s', i, j) {
      assert LaterSecond(s, i, j);
    }
    forall k ensures OwnerOk(s', k) {
      assert OwnerOk(s, k);
    }
  }

  lemma ExtendKeepsInv(s: State, id: nat, ttl: nat)
    requires Inv(s) && Enabled(s, Extend(id, ttl), MS_PER_SECOND)
    ensures Inv(Apply(s, Extend(id, ttl)))
  {
    var s' := Apply(s, Extend(id, ttl));
    var key := s.leases[id].key;
    InvMeansOwnLeaseOnly(s);
    assert OwnerOk(s, key) && LeaseOk(s, id);
    forall i: nat | i < |s'.leases| ensures LeaseOk(s', i) {
      assert LeaseOk(s, i);
    }
    forall i: nat, j: nat | i < j < |s'.leases| ensures LaterSecond(s', i, j) {
      assert LaterSecond(s, i, j);
    }
    forall k ensures OwnerOk(s', k) {
      assert OwnerOk(s, k);
    }
  }

  lemma TickKeepsInv(s: State, ms: nat)
    requires Inv(s)
    ensures Inv(Apply(s, Tick(ms)))
  {
    var s' := Apply(s, Tick(ms));
    forall i: nat | i < |s'.leases| ensures LeaseOk(s', i) {
      assert LeaseOk(s, i);
    }
    forall i: nat, j: nat | i < j < |s'.leases| ensures LaterSecond(s', i, j) {
      assert LaterSecond(s, i, j);
    }
    forall k ensures OwnerOk(s', k) {
      assert OwnerOk(s, k);
    }
  }

  lemma ApplyKeepsInv(s: State, a: Action)
    requires Inv(s) && Enabled(s, a, MS_PER_SECOND)
    ensures Inv(Apply(s, a))
  {
    match a
    case Tick(ms) => TickKeepsInv(s, ms);
    case Acquire(key, source, ttl) => AcquireKeepsInv(s, key, source, ttl);
    case Release(id) => ReleaseKeepsInv(s, id);
    case Extend(id, ttl) => ExtendKeepsInv(s, id, ttl);
  }

  lemma {:induction false} RunsWithLess(s: State, run: seq<Action>, minTtl: nat)
    requires Runs(s, run, minTtl)
    ensures Runs(s, run, 0)
    decreases |run|
  {
    if run != [] {
      RunsWithLess(Apply(s, run[0]), run[1..], minTtl);
    }
  }

  lemma {:induction false} RunKeepsInv(s: State, run: seq<Action>)
    requires Inv(s) && Runs(s, run, MS_PER_SECOND) && Runs(s, run, 0)
    ensures Inv(Final(s, run))
    decreases |run|
  {
    if run != [] {
      ApplyKeepsInv(s, run[0]);
      RunKeepsInv(Apply(s, run[0]), run[1..]);
    }
  }

  // ----- Main results

  /** In every state of every run whose lifetimes are all at least one second, a release or renewal can only
      reach the holder's own entry, and no two holders have unexpired leases on one key. */
  lemma LeasesAreSafe(run: seq<Action>)
    requires Runs(Initial, run, MS_PER_SECOND) && Runs(Initial, run, 0)
    ensures OwnLeaseOnly(Final(Initial, run)) && Exclusive(Final(Initial, run))
  {
    RunKeepsInv(Initial, run);
    InvMeansOwnLeaseOnly(Final(Initial, run));
    InvMeansExclusive(Final(Initial, run));
  }

  /** What a release does to Redis: nothing, or it removes the one entry that is the releasing holder's own. */
  lemma ReleaseTouchesOwnEntryOnly(s: State, id: nat)
    requires Inv(s) && Enabled(s, Release(id), 0)
    ensures var s' := Apply(s, Release(id));
            if InForce(s, id) then s'.store == s.store - {s.leases[id].key} else s'.store == s.store
    ensures !Live(Apply(s, Release(id)).store, s.now, s.leases[id].key) || !InForce(s, id)
  {
    InvMeansOwnLeaseOnly(s);
    assert OwnerOk(s, s.leases[id].key);
  }

  /** What a renewal does: it moves the expiry of the holder's own entry, or fails and changes nothing. */
  lemma ExtendTouchesOwnEntryOnly(s: State, id: nat, ttl: nat)
    requires Inv(s) && Enabled(s, Extend(id, ttl), MS_PER_SECOND)
    ensures var s' := Apply(s, Extend(id, ttl));
            if InForce(s, id) then
              s'.store == s.store[s.leases[id].key := Entry(s.leases[id].Value(), s.now + ttl)]
            else s' == s
  {
    InvMeansOwnLeaseOnly(s);
    assert OwnerOk(s, s.leases[id].key);
  }

  /** Two acquisitions by one source, the second right after the first expired, inside one second. */
  function ShortLivedRun(ttl: nat): seq<Action> {
    var key := DriverNotificationLock("d");
    [Acquire(key, "p", ttl), Tick(ttl), Acquire(key, "p", ttl)]
  }

  lemma ShortLivesBreakOwnership(ttl: nat)
    requires 1 <= ttl < MS_PER_SECOND
    ensures Runs(Initial, ShortLivedRun(ttl), ttl) && Runs(Initial, ShortLivedRun(ttl), 0)
    ensures !OwnLeaseOnly(Final(Initial, ShortLivedRun(ttl)))
  {
    var run := ShortLivedRun(ttl);
    var key := DriverNotificationLock("d");
    var s1 := Apply(Initial, run[0]);
    var s2 := Apply(s1, run[1]);
    var s3 := Apply(s2, run[2]);
    assert run[1..][0] == run[1] && run[1..][1..][0] == run[2] && run[1..][1..][1..] == [];
    assert Runs(s3, run[1..][1..][1..], ttl) && Runs(s2, run[1..][1..], ttl) && Runs(s1, run[1..], ttl);
    assert Runs(s3, run[1..][1..][1..], 0) && Runs(s2, run[1..][1..], 0) && Runs(s1, run[1..], 0);
    assert Final(s3, run[1..][1..][1..]) == s3 && Final(s2, run[1..][1..]) == s3 && Final(s1, run[1..]) == s3;
    assert s3.leases[0].open && s3.leases[0].Value() == s3.leases[1].Value();
    assert Holds(s3.store, s3.now, key, s3.leases[0].Value()) && !InForce(s3, 0);
  }

  /** The lifetime that makes whole-second values safe is exactly one second; the shortest one the code asks for
      (the test lock of the candidate filter) sits on that bound. */
  lemma OneSecondIsExactlyEnough(minTtl: nat)
    requires 1 <= minTtl
    ensures (forall run: seq<Action> | Runs(Initial, run, minTtl) && Runs(Initial, run, 0) ::
               OwnLeaseOnly(Final(Initial, run)))
            <==> MS_PER_SECOND <= minTtl
  {
    if MS_PER_SECOND <= minTtl {
      forall run: seq<Action> | Runs(Initial, run, minTtl) && Runs(Initial, run, 0)
        ensures OwnLeaseOnly(Final(Initial, run))
      {
        RunsWithWeaker(Initial, run, minTtl, MS_PER_SECOND);
        LeasesAreSafe(run);
      }
    } else {
      ShortLivesBreakOwnership(minTtl);
    }
  }

  lemma {:induction false} RunsWithWeaker(s: State, run: seq<Action>, minTtl: nat, weaker: nat)
    requires Runs(s, run, minTtl) && weaker <= minTtl
    ensures Runs(s, run, weaker)
    decreases |run|
  {
    if run != [] {
      RunsWithWeaker(Apply(s, run[0]), run[1..], minTtl, weaker);
    }
  }
}
