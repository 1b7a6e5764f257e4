/** Any number of dispatcher threads, in any number of processes, contacting drivers for any orders at the same
    time. Every thread follows the contact automaton; locks are leases in one Redis; the adversary chooses the
    interleaving, the passing of time, and what everybody else does with locks (the one-second test locks of the
    candidate filter, reject locks, further dispatchers). */
module DispatchProtocol {
  import opened Model
  import opened Redis
  import opened LockValue
  import opened Contact
  import L = Leases

  const DRIVER_LOCK_TTL_MS := SEQUENTIAL_CALL_TIMEOUT_MS + 5000
  const DISPATCH_LOCK_TTL_MS := SEQUENTIAL_CALL_TIMEOUT_MS + 10000

  /** driverLease and orderLease name the leases taken in the current contact; since, timerAt and leftAt say when
      the driver lease was taken, the timer set and the wait left; leasedAt is the last time the dispatch lease was
      taken or renewed, tickAt the last renewal or else the start of the timer. Only the phase decides what a thread
      may do. */
  datatype Thread = Thread(
    dispatcher: string, order: string, phase: Phase,
    driverLease: nat, orderLease: nat, since: nat, timerAt: nat, leftAt: nat, leasedAt: nat, tickAt: nat)

  datatype State = State(lease: L.State, threads: map<nat, Thread>)

  datatype Action =
    | Spawn(id: nat, dispatcher: string, order: string)
    | Emit(id: nat, e: Event, delivery: Delivery)
    | Background(a: L.Action)

  const Initial := State(L.Initial, map[])

  predicate HoldsOrder(p: Phase) {
    p.Armed? || p.InWait? || p.Ending?
  }

  predicate HoldsDriver(p: Phase) {
    LockedDriver(p).Some?
  }

  function Owned(th: Thread): set<nat> {
    (if HoldsDriver(th.phase) then {th.driverLease} else {}) + (if HoldsOrder(th.phase) then {th.orderLease} else {})
  }

  function DriverKey(d: string): Key {
    DriverNotificationLock(d)
  }

  function DriverSource(th: Thread): string {
    th.dispatcher + ":" + th.order
  }

  /** What Redis does to the command of an event. A lease is taken or renewed only by an answered command (one that is
      executed without an answer is a Background step, and the thread goes on without a lease). A renewal that errs
      ends the wait like a refused one; a release is over for the thread whether or not Redis ever ran it. */
  predicate Answers(s: State, th: Thread, e: Event, delivery: Delivery) {
    var r := s.lease;
    match e
    case DriverLocked(d) => delivery == Answered && !Live(r.store, r.now, DriverKey(d))
    case OrderLocked => delivery == Answered && !Live(r.store, r.now, DispatchLock(th.order))
    case OrderLockRefused => delivery == Answered && Live(r.store, r.now, DispatchLock(th.order))
    case LeaseExtended => delivery == Answered && StillHeld(r, th)
    case LeaseLost => th.orderLease < |r.leases| && (delivery == Answered ==> !StillHeld(r, th))
    case DriverUnlocked(_) => true
    case OrderUnlocked => true
    case _ => delivery == Answered
  }

  predicate StillHeld(r: L.State, th: Thread) {
    th.orderLease < |r.leases| && Holds(r.store, r.now, DispatchLock(th.order), r.leases[th.orderLease].Value())
  }

  /** The lock call an event stands for, if Redis runs it. */
  function LockCall(th: Thread, e: Event, delivery: Delivery): Option<L.Action> {
    if delivery == NotExecuted then None
    else match e
    case DriverLocked(d) => Some(L.Acquire(DriverKey(d), DriverSource(th), DRIVER_LOCK_TTL_MS))
    case DriverUnlocked(_) => Some(L.Release(th.driverLease))
    case OrderLocked => Some(L.Acquire(DispatchLock(th.order), th.dispatcher, DISPATCH_LOCK_TTL_MS))
    case OrderUnlocked => Some(L.Release(th.orderLease))
    case LeaseExtended => Some(L.Extend(th.orderLease, DISPATCH_LOCK_TTL_MS))
    case LeaseLost => Some(L.Extend(th.orderLease, DISPATCH_LOCK_TTL_MS))
    case _ => None
  }

  predicate Enabled(s: State, a: Action) {
    match a
    case Spawn(id, _, _) => id !in s.threads
    case Emit(id, e, delivery) =>
      && id in s.threads
      && Advance(s.threads[id].phase, e).Some?
      && Answers(s, s.threads[id], e, delivery)
      && var call := LockCall(s.threads[id], e, delivery);
         (call.Some? ==> L.Enabled(s.lease, call.value, MS_PER_SECOND))
    case Background(b) =>
      && L.Enabled(s.lease, b, MS_PER_SECOND)
      && forall id | id in s.threads ::
           (b.Release? ==> b.id !in Owned(s.threads[id])) && (b.Extend? ==> b.id !in Owned(s.threads[id]))
  }

  function Moved(s: State, th: Thread, e: Event): Thread
    requires Advance(th.phase, e).Some?
  {
    var th' := th.(phase := Advance(th.phase, e).value);
    match e
    case DriverLocked(_) => th'.(driverLease := |s.lease.leases|, since := s.lease.now)
    case OrderLocked => th'.(orderLease := |s.lease.leases|, leasedAt := s.lease.now)
    case TimerStarted => th'.(timerAt := s.lease.now, tickAt := s.lease.now)
    case LeaseExtended => th'.(leasedAt := s.lease.now, tickAt := s.lease.now)
    case WaitEnded(_, _) => th'.(leftAt := s.lease.now)
    case _ => th'
  }

  function Apply(s: State, a: Action): State
    requires Enabled(s, a)
  {
    match a
    case Spawn(id, dispatcher, order) =>
      s.(threads := s.threads[id := Thread(dispatcher, order, Outside, 0, 0, 0, 0, 0, 0, 0)])
    case Emit(id, e, delivery) =>
      var th := s.threads[id];
      var call := LockCall(th, e, delivery);
      State(if call.Some? then L.Apply(s.lease, call.value) else s.lease, s.threads[id := Moved(s, th, e)])
    case Background(b) => s.(lease := L.Apply(s.lease, b))
  }

  // ----- The timing assumption

  function Min(a: int, b: int): int {
    if a <= b then a else b
  }

  /** Time a contact has spent outside the 19 s of its timer. What a wait runs over them, because the loop is busy or
      another case is drawn, counts as outside. */
  function OutsideMs(th: Thread, now: nat): int {
    if th.phase.Outside? then 0
    else if th.phase.Holding? || th.phase.Armed? then now - th.since
    else if th.phase.InWait? then now - th.since - Min(now - th.timerAt, SEQUENTIAL_CALL_TIMEOUT_MS)
    else now - th.since - Min(th.leftAt - th.timerAt, SEQUENTIAL_CALL_TIMEOUT_MS)
  }

  /** Each contact spends less than `slack` outside its timer, and a thread in its wait renews its dispatch lease at
      least every `period` (a period of 19 s or more asks for no renewal). */
  ghost predicate Timely(s: State, slack: nat, period: nat) {
    forall id | id in s.threads ::
      && OutsideMs(s.threads[id], s.lease.now) < slack
      && (s.threads[id].phase.InWait? ==>
            Min(s.lease.now - s.threads[id].tickAt, SEQUENTIAL_CALL_TIMEOUT_MS) <= period)
  }

  ghost predicate Runs(s: State, run: seq<Action>, slack: nat, period: nat)
    decreases |run|
  {
    Timely(s, slack, period) && (run == [] || (Enabled(s, run[0]) && Runs(Apply(s, run[0]), run[1..], slack, period)))
  }

  ghost function Final(s: State, run: seq<Action>, slack: nat, period: nat): State
    requires Runs(s, run, slack, period)
    decreases |run|
  {
    if run == [] then s else Final(Apply(s, run[0]), run[1..], slack, period)
  }

  /** No two orders wait on one driver. */
  ghost predicate DriverWaitsExclude(s: State) {
    forall t, u | t in s.threads && u in s.threads && t != u && s.threads[t].phase.InWait? ::
      s.threads[t].phase != s.threads[u].phase
  }

  /** No two threads are in the wait loop for one order. */
  ghost predicate OrderWaitsExclude(s: State) {
    forall t, u | t in s.threads && u in s.threads && t != u && s.threads[t].phase.InWait? && s.threads[u].phase.InWait? ::
      s.threads[t].order != s.threads[u].order
  }

  /** At most one thread is between taking and giving back the dispatch lease of an order, which is where the wait
      loop is, and at most one thread at a time has a given driver. */
  ghost predicate Exclusive(s: State) {
    forall t, u | t in s.threads && u in s.threads && t != u ::
      && (HoldsOrder(s.threads[t].phase) && HoldsOrder(s.threads[u].phase) ==> s.threads[t].order != s.threads[u].order)
      && (HoldsDriver(s.threads[t].phase) && HoldsDriver(s.threads[u].phase)
          ==> LockedDriver(s.threads[t].phase) != LockedDriver(s.threads[u].phase))
  }

  // ----- The invariant

  ghost predicate ThreadOk(r: L.State, th: Thread) {
    && (HoldsDriver(th.phase) ==>
          && th.since <= r.now && th.driverLease < |r.leases|
          && r.leases[th.driverLease] == L.Lease(DriverKey(LockedDriver(th.phase).value), DriverSource(th), th.since,
                                                 th.since + DRIVER_LOCK_TTL_MS, true))
    && (HoldsOrder(th.phase) ==>
          && th.orderLease < |r.leases| && th.since <= th.leasedAt <= r.now
          && var l := r.leases[th.orderLease];
             l.key == DispatchLock(th.order) && l.open && th.leasedAt + DISPATCH_LOCK_TTL_MS <= l.deadline)
    && (th.phase.InWait? ==>
          && th.since <= th.timerAt <= th.tickAt <= r.now
          && (th.tickAt == th.timerAt || th.tickAt == th.leasedAt))
    && (th.phase.Ending? || th.phase.Unlocked? ==> th.since <= th.timerAt <= th.leftAt <= r.now)
  }

  ghost predicate Inv(s: State) {
    && L.Inv(s.lease)
    && (forall id | id in s.threads :: ThreadOk(s.lease, s.threads[id]))
    && (forall t, u | t in s.threads && u in s.threads && t != u :: Owned(s.threads[t]) !! Owned(s.threads[u]))
  }

  /** A lock call that does not touch a thread's own leases leaves the thread well. */
  lemma OthersStayOk(r: L.State, a: L.Action, th: Thread)
    requires ThreadOk(r, th) && L.Enabled(r, a, MS_PER_SECOND)
    requires a.Release? ==> a.id !in Owned(th)
    requires a.Extend? ==> a.id !in Owned(th)
    ensures ThreadOk(L.Apply(r, a), th)
  {
  }

  lemma BackgroundKeepsInv(s: State, b: L.Action)
    requires Inv(s) && Enabled(s, Background(b))
    ensures Inv(Apply(s, Background(b)))
  {
    L.ApplyKeepsInv(s.lease, b);
    forall id | id in s.threads ensures ThreadOk(L.Apply(s.lease, b), s.threads[id]) {
      OthersStayOk(s.lease, b, s.threads[id]);
    }
  }

  /** A thread's own lock call keeps the thread well. */
  lemma OwnCallKeepsThreadOk(s: State, id: nat, e: Event, delivery: Delivery)
    requires Inv(s) && Enabled(s, Emit(id, e, delivery)) && LockCall(s.threads[id], e, delivery).Some?
    ensures var th := s.threads[id];
            ThreadOk(L.Apply(s.lease, LockCall(th, e, delivery).value), Moved(s, th, e))
  {
    assert ThreadOk(s.lease, s.threads[id]);
  }

  lemma OwnMoveKeepsThreadOk(s: State, id: nat, e: Event, delivery: Delivery)
    requires Inv(s) && Enabled(s, Emit(id, e, delivery)) && LockCall(s.threads[id], e, delivery).None?
    ensures ThreadOk(s.lease, Moved(s, s.threads[id], e))
  {
    assert ThreadOk(s.lease, s.threads[id]);
  }

  /** After its own event a thread owns nothing but what it owned and a lease taken just now; a lock call reaches
      no lease but its own. */
  lemma OwnEventTouchesOwnLeases(s: State, id: nat, e: Event, delivery: Delivery)
    requires id in s.threads && Enabled(s, Emit(id, e, delivery))
    ensures var th := s.threads[id];
            && (forall n | n in Owned(Moved(s, th, e)) :: n in Owned(th) || n == |s.lease.leases|)
            && (LockCall(th, e, delivery).Some? && LockCall(th, e, delivery).value.Release? ==> LockCall(th, e, delivery).value.id in Owned(th))
            && (LockCall(th, e, delivery).Some? && LockCall(th, e, delivery).value.Extend? ==> LockCall(th, e, delivery).value.id in Owned(th))
  {
  }

  lemma OtherThreadKept(s: State, id: nat, e: Event, delivery: Delivery, u: nat)
    requires Inv(s) && Enabled(s, Emit(id, e, delivery)) && u in s.threads && u != id
    ensures var s' := Apply(s, Emit(id, e, delivery));
            ThreadOk(s'.lease, s.threads[u]) && Owned(Moved(s, s.threads[id], e)) !! Owned(s.threads[u])
  {
    var th, other := s.threads[id], s.threads[u];
    assert ThreadOk(s.lease, other) && Owned(th) !! Owned(other);
    OwnEventTouchesOwnLeases(s, id, e, delivery);
    var call := LockCall(th, e, delivery);
    if call.Some? {
      OthersStayOk(s.lease, call.value, other);
    }
    assert forall n | n in Owned(other) :: n < |s.lease.leases|;
  }

  lemma EmitKeepsInv(s: State, id: nat, e: Event, delivery: Delivery)
    requires Inv(s) && Enabled(s, Emit(id, e, delivery))
    ensures Inv(Apply(s, Emit(id, e, delivery)))
  {
    var s' := Apply(s, Emit(id, e, delivery));
    var call := LockCall(s.threads[id], e, delivery);
    assert L.Inv(s'.lease) && ThreadOk(s'.lease, s'.threads[id]) by {
      if call.Some? {
        L.ApplyKeepsInv(s.lease, call.value);
        OwnCallKeepsThreadOk(s, id, e, delivery);
      } else {
        OwnMoveKeepsThreadOk(s, id, e, delivery);
      }
    }
    forall u | u in s.threads && u != id
      ensures ThreadOk(s'.lease, s'.threads[u]) && Owned(s'.threads[id]) !! Owned(s'.threads[u])
    {
      OtherThreadKept(s, id, e, delivery, u);
    }
  }

  lemma ApplyKeepsInv(s: State, a: Action)
    requires Inv(s) && Enabled(s, a)
    ensures Inv(Apply(s, a))
  {
    match a
    case Spawn(_, _, _) =>
    case Emit(id, e, delivery) => EmitKeepsInv(s, id, e, delivery);
    case Background(b) => BackgroundKeepsInv(s, b);
  }

  const FIVE_SECONDS_MS := 5000

  /** Under the timing assumption the leases a thread relies on have not expired. */
  lemma LeasesUnexpired(s: State, id: nat, slack: nat, period: nat)
    requires Inv(s) && Timely(s, slack, period) && slack <= FIVE_SECONDS_MS && id in s.threads
    ensures var th := s.threads[id];
            && (HoldsDriver(th.phase) ==> s.lease.now < s.lease.leases[th.driverLease].deadline)
            && (HoldsOrder(th.phase) ==> s.lease.now < s.lease.leases[th.orderLease].deadline)
  {
    assert ThreadOk(s.lease, s.threads[id]);
  }

  lemma InvMeansExclusive(s: State, slack: nat, period: nat)
    requires Inv(s) && Timely(s, slack, period) && slack <= FIVE_SECONDS_MS
    ensures Exclusive(s)
  {
    L.InvMeansExclusive(s.lease);
    forall t, u | t in s.threads && u in s.threads && t != u
      ensures HoldsOrder(s.threads[t].phase) && HoldsOrder(s.threads[u].phase)
              ==> s.threads[t].order != s.threads[u].order
      ensures HoldsDriver(s.threads[t].phase) && HoldsDriver(s.threads[u].phase)
              ==> LockedDriver(s.threads[t].phase) != LockedDriver(s.threads[u].phase)
    {
      var a, b := s.threads[t], s.threads[u];
      assert ThreadOk(s.lease, a) && ThreadOk(s.lease, b) && Owned(a) !! Owned(b);
      LeasesUnexpired(s, t, slack, period);
      LeasesUnexpired(s, u, slack, period);
      if HoldsOrder(a.phase) && HoldsOrder(b.phase) {
        assert a.orderLease in Owned(a) && b.orderLease in Owned(b);
      }
      if HoldsDriver(a.phase) && HoldsDriver(b.phase) {
        assert a.driverLease in Owned(a) && b.driverLease in Owned(b);
      }
    }
  }

  /** The dispatch lease of a thread in its wait: taken or renewed at most slack + period ago. */
  lemma WaitLeaseUnexpired(s: State, id: nat, slack: nat, period: nat)
    requires Inv(s) && Timely(s, slack, period) && id in s.threads && s.threads[id].phase.InWait?
    requires slack + Min(period, SEQUENTIAL_CALL_TIMEOUT_MS) <= DISPATCH_LOCK_TTL_MS
    ensures s.lease.now < s.lease.leases[s.threads[id].orderLease].deadline
  {
    assert ThreadOk(s.lease, s.threads[id]);
  }

  lemma InvMeansOrderWaitsExclude(s: State, slack: nat, period: nat)
    requires Inv(s) && Timely(s, slack, period)
    requires slack + Min(period, SEQUENTIAL_CALL_TIMEOUT_MS) <= DISPATCH_LOCK_TTL_MS
    ensures OrderWaitsExclude(s)
  {
    L.InvMeansExclusive(s.lease);
    forall t, u | t in s.threads && u in s.threads && t != u && s.threads[t].phase.InWait? && s.threads[u].phase.InWait?
      ensures s.threads[t].order != s.threads[u].order
    {
      var a, b := s.threads[t], s.threads[u];
      assert ThreadOk(s.lease, a) && ThreadOk(s.lease, b) && Owned(a) !! Owned(b);
      WaitLeaseUnexpired(s, t, slack, period);
      WaitLeaseUnexpired(s, u, slack, period);
      assert a.orderLease in Owned(a) && b.orderLease in Owned(b);
    }
  }

  lemma {:induction false} RunKeepsInv(s: State, run: seq<Action>, slack: nat, period: nat)
    requires Inv(s) && Runs(s, run, slack, period)
    ensures Inv(Final(s, run, slack, period)) && Timely(Final(s, run, slack, period), slack, period)
    decreases |run|
  {
    if run != [] {
      ApplyKeepsInv(s, run[0]);
      RunKeepsInv(Apply(s, run[0]), run[1..], slack, period);
    }
  }

  // ----- Main results

  /** A renewal that Redis answers is never refused. */
  lemma RenewalsSucceed(s: State, id: nat, slack: nat, period: nat)
    requires Inv(s) && Timely(s, slack, period)
    requires slack + Min(period, SEQUENTIAL_CALL_TIMEOUT_MS) <= DISPATCH_LOCK_TTL_MS
    ensures !Enabled(s, Emit(id, LeaseLost, Answered))
  {
    if id in s.threads && s.threads[id].phase.InWait? {
      WaitLeaseUnexpired(s, id, slack, period);
      assert ThreadOk(s.lease, s.threads[id]);
      assert L.LeaseOk(s.lease, s.threads[id].orderLease);
    }
  }

  /** In every interleaving in which each contact spends less than five seconds outside its timer, however often
      dispatch leases are renewed and whichever commands Redis loses, at most one thread holds an order's dispatch lease,
      at most one a driver's lease, and no answered renewal is refused. */
  lemma DispatchIsExclusive(run: seq<Action>, period: nat)
    requires Runs(Initial, run, FIVE_SECONDS_MS, period)
    ensures var s := Final(Initial, run, FIVE_SECONDS_MS, period);
            && Exclusive(s) && DriverWaitsExclude(s) && OrderWaitsExclude(s)
            && forall id :: !Enabled(s, Emit(id, LeaseLost, Answered))
  {
    RunKeepsInv(Initial, run, FIVE_SECONDS_MS, period);
    var s := Final(Initial, run, FIVE_SECONDS_MS, period);
    InvMeansExclusive(s, FIVE_SECONDS_MS, period);
    ExclusiveMeansWaitsExclude(s);
    forall id ensures !Enabled(s, Emit(id, LeaseLost, Answered)) {
      RenewalsSucceed(s, id, FIVE_SECONDS_MS, period);
    }
  }

  lemma ExclusiveMeansWaitsExclude(s: State)
    requires Exclusive(s)
    ensures DriverWaitsExclude(s) && OrderWaitsExclude(s)
  {
  }

  // ----- What taking, renewing and giving back does to Redis

  /** An answered acquisition leaves the thread's own value under the key: the driver's for 24 s, the order's for 29 s. */
  lemma TakingStoresTheLease(s: State, id: nat, e: Event)
    requires Enabled(s, Emit(id, e, Answered)) && (e.DriverLocked? || e.OrderLocked?)
    ensures var (th, r, r') := (s.threads[id], s.lease, Apply(s, Emit(id, e, Answered)).lease);
            && r'.now == r.now
            && r'.store == if e.DriverLocked? then
                             r.store[DriverNotificationLock(e.driver) :=
                               Entry(LockValue.LockValue(th.dispatcher + ":" + th.order, r.now), r.now + 24000)]
                           else
                             r.store[DispatchLock(th.order) := Entry(LockValue.LockValue(th.dispatcher, r.now), r.now + 29000)]
  {
  }

  /** A lease can be taken whenever its key is free, and only then; otherwise the attempt is refused. */
  lemma FreeKeysCanBeTaken(s: State, id: nat)
    requires id in s.threads
    ensures var (th, r) := (s.threads[id], s.lease);
            && (th.phase.Outside? ==> forall d ::
                  Enabled(s, Emit(id, DriverLocked(d), Answered)) <==> !Live(r.store, r.now, DriverNotificationLock(d)))
            && (th.phase.Holding? ==>
                  && (Enabled(s, Emit(id, OrderLocked, Answered)) <==> !Live(r.store, r.now, DispatchLock(th.order)))
                  && (Enabled(s, Emit(id, OrderLockRefused, Answered)) <==> Live(r.store, r.now, DispatchLock(th.order))))
  {
  }

  /** An answered renewal gives the same entry another 29 s. */
  lemma RenewingExtendsTheLease(s: State, id: nat)
    requires Inv(s) && Enabled(s, Emit(id, LeaseExtended, Answered))
    ensures var (key, r) := (DispatchLock(s.threads[id].order), s.lease);
            && key in r.store
            && Apply(s, Emit(id, LeaseExtended, Answered)).lease.store
               == r.store[key := Entry(r.store[key].value, r.now + 29000)]
  {
    assert ThreadOk(s.lease, s.threads[id]);
  }

  /** Giving back the dispatch lease removes the order's key and nothing else, if Redis runs the command; then any thread that
      has come as far may take the order at once. */
  lemma OrderIsFreedAtOnce(s: State, id: nat, delivery: Delivery, slack: nat, period: nat)
    requires Inv(s) && Timely(s, slack, period) && slack <= FIVE_SECONDS_MS
    requires Enabled(s, Emit(id, OrderUnlocked, delivery))
    ensures var (key, s') := (DispatchLock(s.threads[id].order), Apply(s, Emit(id, OrderUnlocked, delivery)));
            && Live(s.lease.store, s.lease.now, key) && s'.lease.now == s.lease.now
            && s'.lease.store == (if delivery == NotExecuted then s.lease.store else s.lease.store - {key})
            && (delivery != NotExecuted ==>
                  forall u | u in s'.threads && DispatchLock(s'.threads[u].order) == key && s'.threads[u].phase.Holding? ::
                    Enabled(s', Emit(u, OrderLocked, Answered)))
  {
    var s' := Apply(s, Emit(id, OrderUnlocked, delivery));
    var key := DispatchLock(s.threads[id].order);
    assert ThreadOk(s.lease, s.threads[id]);
    HeldKeyGoes(s, id, OrderUnlocked, delivery, s.threads[id].orderLease, key, slack, period);
    forall u | u in s'.threads && DispatchLock(s'.threads[u].order) == key && s'.threads[u].phase.Holding?
               && delivery != NotExecuted
      ensures Enabled(s', Emit(u, OrderLocked, Answered))
    {
      FreeKeysCanBeTaken(s', u);
    }
  }

  /** The same for the driver's lease: any thread without a driver may take this one at once. */
  lemma DriverIsFreedAtOnce(s: State, id: nat, driver: string, delivery: Delivery, slack: nat, period: nat)
    requires Inv(s) && Timely(s, slack, period) && slack <= FIVE_SECONDS_MS
    requires Enabled(s, Emit(id, DriverUnlocked(driver), delivery))
    ensures var (key, s') := (DriverNotificationLock(driver), Apply(s, Emit(id, DriverUnlocked(driver), delivery)));
            && Live(s.lease.store, s.lease.now, key) && s'.lease.now == s.lease.now
            && s'.lease.store == (if delivery == NotExecuted then s.lease.store else s.lease.store - {key})
            && (delivery != NotExecuted ==>
                  forall u | u in s'.threads && s'.threads[u].phase.Outside? ::
                    Enabled(s', Emit(u, DriverLocked(driver), Answered)))
  {
    var s' := Apply(s, Emit(id, DriverUnlocked(driver), delivery));
    var key := DriverNotificationLock(driver);
    assert ThreadOk(s.lease, s.threads[id]);
    HeldKeyGoes(s, id, DriverUnlocked(driver), delivery, s.threads[id].driverLease, key, slack, period);
    forall u | u in s'.threads && s'.threads[u].phase.Outside? && delivery != NotExecuted
      ensures Enabled(s', Emit(u, DriverLocked(driver), Answered))
    {
      FreeKeysCanBeTaken(s', u);
    }
  }

  lemma HeldKeyGoes(s: State, id: nat, e: Event, delivery: Delivery, lease: nat, key: Key, slack: nat, period: nat)
    requires Inv(s) && Timely(s, slack, period) && slack <= FIVE_SECONDS_MS && Enabled(s, Emit(id, e, delivery))
    requires lease < |s.lease.leases| && key == s.lease.leases[lease].key
    requires (e.OrderUnlocked? && lease == s.threads[id].orderLease) || (e.DriverUnlocked? && lease == s.threads[id].driverLease)
    ensures Live(s.lease.store, s.lease.now, key) && Apply(s, Emit(id, e, delivery)).lease.now == s.lease.now
    ensures Apply(s, Emit(id, e, delivery)).lease.store
            == if delivery == NotExecuted then s.lease.store else s.lease.store - {key}
  {
    assert ThreadOk(s.lease, s.threads[id]);
    LeasesUnexpired(s, id, slack, period);
    LeaseIsLive(s.lease, lease);
    L.ReleaseTouchesOwnEntryOnly(s.lease, lease);
  }

  lemma LeaseIsLive(r: L.State, i: nat)
    requires L.Inv(r) && i < |r.leases| && r.leases[i].open && r.now < r.leases[i].deadline
    ensures L.InForce(r, i)
  {
    assert L.LeaseOk(r, i);
  }

  /** No other event of a contact touches Redis's locks. */
  lemma OtherEventsTouchNoLock(s: State, id: nat, e: Event, delivery: Delivery)
    requires Enabled(s, Emit(id, e, delivery))
    requires !e.DriverLocked? && !e.OrderLocked? && !e.LeaseExtended? && !e.LeaseLost? && !e.OrderUnlocked? && !e.DriverUnlocked?
    ensures Apply(s, Emit(id, e, delivery)).lease == s.lease
  {
  }
}
