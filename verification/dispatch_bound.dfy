/** The time bounds of the dispatch protocol are exact, on the driver's side and on the order's: a contact that takes a
    moment longer lets two orders wait on one driver, or two threads wait for one order. */
module DispatchBound {
  import opened Redis
  import opened Contact
  import opened Model
  import opened DispatchProtocol
  import L = Leases

  ghost predicate Leads(s: State, a: Action, s': State, slack: nat, period: nat) {
    Timely(s, slack, period) && Enabled(s, a) && Apply(s, a) == s'
  }

  lemma Step(s: State, a: Action, s': State, rest: seq<Action>, slack: nat, period: nat)
    requires Leads(s, a, s', slack, period) && Runs(s', rest, slack, period)
    ensures Runs(s, [a] + rest, slack, period) && Final(s, [a] + rest, slack, period) == Final(s', rest, slack, period)
  {
    assert ([a] + rest)[0] == a && ([a] + rest)[1..] == rest;
  }

  // ----- Thread 0, of process p, contacts driver d for order o from time 0 on; thread 1, of process q, works on another
  // ----- order or on the same one

  const DRIVER_LEASE := L.Lease(DriverKey("d"), "p" + ":" + "o", 0, DRIVER_LOCK_TTL_MS, true)

  function OrderLease(takenAt: nat, deadline: nat): L.Lease {
    L.Lease(DispatchLock("o"), "p", takenAt, deadline, true)
  }

  function OneLease(now: nat): L.State {
    L.State(now, map[DriverKey("d") := Entry(DRIVER_LEASE.Value(), DRIVER_LOCK_TTL_MS)], [DRIVER_LEASE],
            map[DriverKey("d") := 0])
  }

  function TwoLeases(now: nat, takenAt: nat, deadline: nat): L.State {
    L.State(now,
            map[DriverKey("d") := Entry(DRIVER_LEASE.Value(), DRIVER_LOCK_TTL_MS),
                DispatchLock("o") := Entry(OrderLease(takenAt, deadline).Value(), deadline)],
            [DRIVER_LEASE, OrderLease(takenAt, deadline)], map[DriverKey("d") := 0, DispatchLock("o") := 1])
  }

  function Fresh(dispatcher: string, order: string): Thread {
    Thread(dispatcher, order, Outside, 0, 0, 0, 0, 0, 0, 0)
  }

  function Contacting(phase: Phase, orderLease: nat, timerAt: nat, leasedAt: nat, tickAt: nat): Thread {
    Thread("p", "o", phase, 0, orderLease, 0, timerAt, 0, leasedAt, tickAt)
  }

  function Stage(lease: L.State, th: Thread, order: string): State {
    State(lease, map[0 := th, 1 := Fresh("q", order)])
  }

  function Started(order: string): State {
    Stage(L.Initial, Fresh("p", "o"), order)
  }

  /** Holding the driver's lease since time 0. */
  function Held(now: nat, order: string): State {
    Stage(OneLease(now), Contacting(Holding("d"), 0, 0, 0, 0), order)
  }

  /** Both leases held, the order's since takenAt. */
  function ArmedAt(now: nat, takenAt: nat, order: string): State {
    Stage(TwoLeases(now, takenAt, takenAt + DISPATCH_LOCK_TTL_MS), Contacting(Armed("d"), 1, 0, takenAt, 0), order)
  }

  /** In the wait, with the order's lease taken at takenAt and last renewed at leasedAt. */
  function Waits(now: nat, takenAt: nat, timerAt: nat, leasedAt: nat, tickAt: nat, order: string): State {
    Stage(TwoLeases(now, takenAt, leasedAt + DISPATCH_LOCK_TTL_MS), Contacting(InWait("d"), 1, timerAt, leasedAt, tickAt), order)
  }

  lemma Begin(order: string, rest: seq<Action>, slack: nat, period: nat) returns (run: seq<Action>)
    requires 0 < slack && Runs(Held(0, order), rest, slack, period)
    ensures Runs(Initial, run, slack, period) && Final(Initial, run, slack, period) == Final(Held(0, order), rest, slack, period)
  {
    TakeDriver(order, slack, period);
    run := [Emit(0, DriverLocked("d"), Answered)] + rest;
    Step(Started(order), Emit(0, DriverLocked("d"), Answered), Held(0, order), rest, slack, period);
    var s1 := State(L.Initial, map[0 := Fresh("p", "o")]);
    assert s1.threads[1 := Fresh("q", order)] == Started(order).threads;
    Step(s1, Spawn(1, "q", order), Started(order), run, slack, period);
    run := [Spawn(1, "q", order)] + run;
    Step(Initial, Spawn(0, "p", "o"), s1, run, slack, period);
    run := [Spawn(0, "p", "o")] + run;
  }

  lemma TakeDriver(order: string, slack: nat, period: nat)
    requires 0 < slack
    ensures Leads(Started(order), Emit(0, DriverLocked("d"), Answered), Held(0, order), slack, period)
  {
    var (s, s', e) := (Started(order), Held(0, order), DriverLocked("d"));
    assert L.Apply(L.Initial, L.Acquire(DriverKey("d"), "p" + ":" + "o", DRIVER_LOCK_TTL_MS)) == OneLease(0);
    assert Moved(s, s.threads[0], e) == s'.threads[0];
    assert s.threads[0 := s'.threads[0]] == s'.threads;
  }

  lemma TakeOrderLease(now: nat)
    ensures L.Apply(OneLease(now), L.Acquire(DispatchLock("o"), "p", DISPATCH_LOCK_TTL_MS))
            == TwoLeases(now, now, now + DISPATCH_LOCK_TTL_MS)
  {
    var r := TwoLeases(now, now, now + DISPATCH_LOCK_TTL_MS);
    assert OneLease(now).store[DispatchLock("o") := r.store[DispatchLock("o")]] == r.store;
    assert OneLease(now).owner[DispatchLock("o") := 1] == r.owner;
  }

  lemma TakeOrder(now: nat, order: string, slack: nat, period: nat)
    requires now < slack
    ensures Leads(Held(now, order), Emit(0, OrderLocked, Answered), ArmedAt(now, now, order), slack, period)
  {
    var (s, s') := (Held(now, order), ArmedAt(now, now, order));
    TakeOrderLease(now);
    assert Moved(s, s.threads[0], OrderLocked) == s'.threads[0];
    assert s.threads[0 := s'.threads[0]] == s'.threads;
  }

  lemma StartTimer(now: nat, takenAt: nat, order: string, slack: nat, period: nat)
    requires now < slack
    ensures Leads(ArmedAt(now, takenAt, order), Emit(0, TimerStarted, Answered),
                  Waits(now, takenAt, now, takenAt, now, order), slack, period)
  {
    var (s, s') := (ArmedAt(now, takenAt, order), Waits(now, takenAt, now, takenAt, now, order));
    assert s.threads[0 := s'.threads[0]] == s'.threads;
  }

  /** Thread 1 takes the next step of a contact of its own. */
  lemma SecondStep(s: State, e: Event, phase: Phase, slack: nat, period: nat) returns (s': State)
    requires Timely(s, slack, period) && 0 < slack && Enabled(s, Emit(1, e, Answered))
    requires Advance(s.threads[1].phase, e) == Some(phase) && (e.DriverLocked? || e.OrderLocked? || e.TimerStarted?)
    requires s.threads[1].phase.Outside? || s.threads[1].since == s.lease.now
    ensures Leads(s, Emit(1, e, Answered), s', slack, period) && Timely(s', slack, period)
    ensures s'.lease.now == s.lease.now && s'.threads.Keys == s.threads.Keys
    ensures s'.threads[1].phase == phase && s'.threads[1].order == s.threads[1].order
    ensures s'.threads[1].since == s.lease.now
    ensures forall id | id in s.threads && id != 1 :: s'.threads[id] == s.threads[id]
    ensures e.DriverLocked? ==> forall k | k != DriverKey(e.driver) ::
              Live(s'.lease.store, s'.lease.now, k) == Live(s.lease.store, s.lease.now, k)
  {
    s' := Apply(s, Emit(1, e, Answered));
    KeepsTime(s, s', slack, period);
  }

  lemma MayMoveOn(s: State, e: Event)
    requires 1 in s.threads && Advance(s.threads[1].phase, e).Some?
    requires e.DriverLocked? || e.OrderLocked? || e.TimerStarted?
    requires e.DriverLocked? ==> !Live(s.lease.store, s.lease.now, DriverKey(e.driver))
    requires e.OrderLocked? ==> !Live(s.lease.store, s.lease.now, DispatchLock(s.threads[1].order))
    ensures Enabled(s, Emit(1, e, Answered))
  {
  }

  lemma SecondLocks(s: State, driver: string, slack: nat, period: nat) returns (s1: State, s2: State)
    requires Timely(s, slack, period) && 0 < slack && 1 in s.threads && s.threads[1].phase.Outside?
    requires !Live(s.lease.store, s.lease.now, DriverKey(driver))
    requires !Live(s.lease.store, s.lease.now, DispatchLock(s.threads[1].order))
    ensures Leads(s, Emit(1, DriverLocked(driver), Answered), s1, slack, period)
    ensures Leads(s1, Emit(1, OrderLocked, Answered), s2, slack, period) && Timely(s2, slack, period)
    ensures s2.lease.now == s.lease.now && s2.threads.Keys == s.threads.Keys
    ensures s2.threads[1].phase == Armed(driver) && s2.threads[1].order == s.threads[1].order
    ensures s2.threads[1].since == s.lease.now
    ensures forall id | id in s.threads && id != 1 :: s2.threads[id] == s.threads[id]
  {
    MayMoveOn(s, DriverLocked(driver));
    s1 := SecondStep(s, DriverLocked(driver), Holding(driver), slack, period);
    assert DispatchLock(s1.threads[1].order) != DriverKey(driver);
    MayMoveOn(s1, OrderLocked);
    s2 := SecondStep(s1, OrderLocked, Armed(driver), slack, period);
  }

  /** Thread 1 goes all the way into its wait at once. */
  lemma SecondWait(s: State, driver: string, slack: nat, period: nat) returns (run: seq<Action>)
    requires Timely(s, slack, period) && 0 < slack && 1 in s.threads && s.threads[1].phase.Outside?
    requires !Live(s.lease.store, s.lease.now, DriverKey(driver))
    requires !Live(s.lease.store, s.lease.now, DispatchLock(s.threads[1].order))
    ensures Runs(s, run, slack, period)
    ensures var t := Final(s, run, slack, period);
            t.threads.Keys == s.threads.Keys && t.threads[1].phase == InWait(driver)
            && t.threads[1].order == s.threads[1].order
            && forall id | id in s.threads && id != 1 :: t.threads[id] == s.threads[id]
  {
    var s1, s2 := SecondLocks(s, driver, slack, period);
    MayMoveOn(s2, TimerStarted);
    var s3 := SecondStep(s2, TimerStarted, InWait(driver), slack, period);
    run := Three(s, Emit(1, DriverLocked(driver), Answered), s1, Emit(1, OrderLocked, Answered), s2,
                 Emit(1, TimerStarted, Answered), s3, slack, period);
  }

  lemma Three(s: State, a: Action, s1: State, b: Action, s2: State, c: Action, s3: State, slack: nat, period: nat)
    returns (run: seq<Action>)
    requires Leads(s, a, s1, slack, period) && Leads(s1, b, s2, slack, period) && Leads(s2, c, s3, slack, period)
    requires Timely(s3, slack, period)
    ensures Runs(s, run, slack, period) && Final(s, run, slack, period) == s3
  {
    run := [];
    Step(s2, c, s3, run, slack, period);
    run := [c] + run;
    Step(s1, b, s2, run, slack, period);
    run := [b] + run;
    Step(s, a, s1, run, slack, period);
    run := [a] + run;
  }

  lemma KeepsTime(s: State, s': State, slack: nat, period: nat)
    requires Timely(s, slack, period) && s'.lease.now == s.lease.now && s'.threads.Keys == s.threads.Keys
    requires forall id | id in s.threads && id != 1 :: s'.threads[id] == s.threads[id]
    requires 1 in s.threads && OutsideMs(s'.threads[1], s'.lease.now) < slack
    requires s'.threads[1].phase.InWait? ==> s'.threads[1].tickAt == s'.lease.now
    ensures Timely(s', slack, period)
  {
  }

  // ----- The driver's side

  /** Thread 0 dawdled 5 s before its timer and is now k ms into its wait, with its dispatch lease just renewed. */
  function Renewed(k: nat): State {
    Waits(FIVE_SECONDS_MS + k, FIVE_SECONDS_MS, FIVE_SECONDS_MS, FIVE_SECONDS_MS + k, FIVE_SECONDS_MS + k, "r")
  }

  function MomentLater(k: nat): State {
    Waits(FIVE_SECONDS_MS + k + 1, FIVE_SECONDS_MS, FIVE_SECONDS_MS, FIVE_SECONDS_MS + k, FIVE_SECONDS_MS + k, "r")
  }

  lemma WaitAMoment(k: nat, slack: nat, period: nat)
    requires k < SEQUENTIAL_CALL_TIMEOUT_MS && FIVE_SECONDS_MS < slack && 1 <= period
    ensures Leads(Renewed(k), Background(L.Tick(1)), MomentLater(k), slack, period)
  {
  }

  lemma RenewOnce(k: nat, slack: nat, period: nat)
    requires k < SEQUENTIAL_CALL_TIMEOUT_MS && FIVE_SECONDS_MS < slack && 1 <= period
    ensures Leads(MomentLater(k), Emit(0, LeaseExtended, Answered), Renewed(k + 1), slack, period)
  {
    var (s, s') := (MomentLater(k), Renewed(k + 1));
    RenewLease(k);
    assert Moved(s, s.threads[0], LeaseExtended) == s'.threads[0];
    assert s.threads[0 := s'.threads[0]] == s'.threads;
  }

  lemma RenewLease(k: nat)
    ensures L.Apply(MomentLater(k).lease, L.Extend(1, DISPATCH_LOCK_TTL_MS)) == Renewed(k + 1).lease
  {
    var (r, r') := (MomentLater(k).lease, Renewed(k + 1).lease);
    assert r.leases[1 := r'.leases[1]] == r'.leases;
    assert r.store[DispatchLock("o") := r'.store[DispatchLock("o")]] == r'.store;
  }

  lemma OneRenewal(k: nat, rest: seq<Action>, slack: nat, period: nat) returns (run: seq<Action>)
    requires k < SEQUENTIAL_CALL_TIMEOUT_MS && FIVE_SECONDS_MS < slack && 1 <= period
    requires Runs(Renewed(k + 1), rest, slack, period)
    ensures Runs(Renewed(k), run, slack, period)
    ensures Final(Renewed(k), run, slack, period) == Final(Renewed(k + 1), rest, slack, period)
  {
    RenewOnce(k, slack, period);
    Step(MomentLater(k), Emit(0, LeaseExtended, Answered), Renewed(k + 1), rest, slack, period);
    run := [Emit(0, LeaseExtended, Answered)] + rest;
    WaitAMoment(k, slack, period);
    Step(Renewed(k), Background(L.Tick(1)), MomentLater(k), run, slack, period);
    run := [Background(L.Tick(1))] + run;
  }

  lemma {:induction false} KeepWaiting(k: nat, rest: seq<Action>, slack: nat, period: nat) returns (run: seq<Action>)
    requires k <= SEQUENTIAL_CALL_TIMEOUT_MS && FIVE_SECONDS_MS < slack && 1 <= period
    requires Runs(Renewed(SEQUENTIAL_CALL_TIMEOUT_MS), rest, slack, period)
    ensures Runs(Renewed(k), run, slack, period)
    ensures Final(Renewed(k), run, slack, period) == Final(Renewed(SEQUENTIAL_CALL_TIMEOUT_MS), rest, slack, period)
    decreases SEQUENTIAL_CALL_TIMEOUT_MS - k
  {
    if k == SEQUENTIAL_CALL_TIMEOUT_MS {
      run := rest;
    } else {
      run := KeepWaiting(k + 1, rest, slack, period);
      run := OneRenewal(k, run, slack, period);
    }
  }

  /** Up to the timer: the driver's lease, 5 s, the dispatch lease. */
  lemma SlowStart(rest: seq<Action>, slack: nat, period: nat) returns (run: seq<Action>)
    requires FIVE_SECONDS_MS < slack && Runs(Renewed(0), rest, slack, period)
    ensures Runs(Initial, run, slack, period) && Final(Initial, run, slack, period) == Final(Renewed(0), rest, slack, period)
  {
    StartTimer(FIVE_SECONDS_MS, FIVE_SECONDS_MS, "r", slack, period);
    Step(ArmedAt(FIVE_SECONDS_MS, FIVE_SECONDS_MS, "r"), Emit(0, TimerStarted, Answered), Renewed(0), rest, slack, period);
    run := [Emit(0, TimerStarted, Answered)] + rest;
    TakeOrder(FIVE_SECONDS_MS, "r", slack, period);
    Step(Held(FIVE_SECONDS_MS, "r"), Emit(0, OrderLocked, Answered), ArmedAt(FIVE_SECONDS_MS, FIVE_SECONDS_MS, "r"), run,
         slack, period);
    run := [Emit(0, OrderLocked, Answered)] + run;
    Dawdle(FIVE_SECONDS_MS, "r", slack, period);
    Step(Held(0, "r"), Background(L.Tick(FIVE_SECONDS_MS)), Held(FIVE_SECONDS_MS, "r"), run, slack, period);
    run := [Background(L.Tick(FIVE_SECONDS_MS))] + run;
    run := Begin("r", run, slack, period);
  }

  lemma Dawdle(ms: nat, order: string, slack: nat, period: nat)
    requires 0 < slack
    ensures Leads(Held(0, order), Background(L.Tick(ms)), Held(ms, order), slack, period)
  {
  }

  /** With more slack, two orders wait on one driver: the first contact loses 5 s before its timer, and at the end of
      its wait the driver's lease has run out and a second contact is already waiting. */
  lemma TwoOrdersOneDriver(slack: nat, period: nat) returns (run: seq<Action>)
    requires FIVE_SECONDS_MS < slack && 1 <= period
    ensures Runs(Initial, run, slack, period) && !DriverWaitsExclude(Final(Initial, run, slack, period))
  {
    var late := Renewed(SEQUENTIAL_CALL_TIMEOUT_MS);
    DriverIsFree(slack, period);
    run := SecondWait(late, "d", slack, period);
    var end := Final(late, run, slack, period);
    assert end.threads[0] == late.threads[0];
    assert end.threads[0].phase == InWait("d") && end.threads[1].phase == InWait("d");
    assert !DriverWaitsExclude(end);
    run := KeepWaiting(0, run, slack, period);
    run := SlowStart(run, slack, period);
  }

  lemma DriverIsFree(slack: nat, period: nat)
    requires FIVE_SECONDS_MS < slack && 1 <= period
    ensures var late := Renewed(SEQUENTIAL_CALL_TIMEOUT_MS);
            && Timely(late, slack, period) && late.threads.Keys == {0, 1} && late.threads[1] == Fresh("q", "r")
            && late.threads[0].phase == InWait("d")
            && !Live(late.lease.store, late.lease.now, DriverKey("d"))
            && !Live(late.lease.store, late.lease.now, DispatchLock("r"))
  {
  }

  /** However often dispatch leases are renewed: in all runs whose contacts spend less than `slack` outside their timers at
      most one order waits on a driver, exactly if slack is at most five seconds. */
  lemma FiveSecondsIsExactlyEnough(slack: nat, period: nat)
    requires 1 <= period
    ensures (forall run: seq<Action> | Runs(Initial, run, slack, period) ::
               DriverWaitsExclude(Final(Initial, run, slack, period)))
            <==> slack <= FIVE_SECONDS_MS
  {
    if slack <= FIVE_SECONDS_MS {
      forall run: seq<Action> | Runs(Initial, run, slack, period)
        ensures DriverWaitsExclude(Final(Initial, run, slack, period))
      {
        RunKeepsInv(Initial, run, slack, period);
        InvMeansExclusive(Final(Initial, run, slack, period), slack, period);
        ExclusiveMeansWaitsExclude(Final(Initial, run, slack, period));
      }
    } else {
      var run := TwoOrdersOneDriver(slack, period);
    }
  }

  // ----- The order's side

  /** The first contact takes the dispatch lease, dawdles, starts its timer and waits without a renewal until the lease
      has run out; then a second thread waits for the same order. */
  lemma TwoWaitsOneOrder(slack: nat, period: nat) returns (run: seq<Action>)
    requires DISPATCH_LOCK_TTL_MS < slack + Min(period, SEQUENTIAL_CALL_TIMEOUT_MS)
    ensures Runs(Initial, run, slack, period) && !OrderWaitsExclude(Final(Initial, run, slack, period))
  {
    var late := OverTime(Min(period, SEQUENTIAL_CALL_TIMEOUT_MS));
    OrderIsFree(slack, period);
    run := SecondWait(late, "e", slack, period);
    BothWait(late, Final(late, run, slack, period));
    run := LateWait(run, slack, period);
  }

  /** The dispatch lease, taken at 0 and never renewed, runs out m ms into the wait. */
  function OverTime(m: nat): State
    requires m <= SEQUENTIAL_CALL_TIMEOUT_MS
  {
    var x: nat := DISPATCH_LOCK_TTL_MS - m;
    Waits(DISPATCH_LOCK_TTL_MS, 0, x, 0, x, "o")
  }

  function StartedAt(x: nat): State {
    Waits(x, 0, x, 0, x, "o")
  }

  function JustWaiting(m: nat): State
    requires m <= SEQUENTIAL_CALL_TIMEOUT_MS
  {
    StartedAt(DISPATCH_LOCK_TTL_MS - m)
  }

  lemma OrderIsFree(slack: nat, period: nat)
    requires DISPATCH_LOCK_TTL_MS < slack + Min(period, SEQUENTIAL_CALL_TIMEOUT_MS)
    ensures var late := OverTime(Min(period, SEQUENTIAL_CALL_TIMEOUT_MS));
            && Timely(late, slack, period) && late.threads.Keys == {0, 1} && late.threads[1] == Fresh("q", "o")
            && late.threads[0].phase == InWait("d") && late.threads[0].order == "o"
            && !Live(late.lease.store, late.lease.now, DriverKey("e"))
            && !Live(late.lease.store, late.lease.now, DispatchLock("o"))
  {
  }

  lemma BothWait(s: State, end: State)
    requires 0 in s.threads && 1 in s.threads && end.threads.Keys == s.threads.Keys && end.threads[0] == s.threads[0]
    requires s.threads[0].phase.InWait? && end.threads[1].phase.InWait? && end.threads[1].order == s.threads[0].order
    ensures !OrderWaitsExclude(end)
  {
  }

  lemma WaitUntilExpiry(slack: nat, period: nat)
    requires DISPATCH_LOCK_TTL_MS < slack + Min(period, SEQUENTIAL_CALL_TIMEOUT_MS)
    ensures var m: nat := Min(period, SEQUENTIAL_CALL_TIMEOUT_MS);
            Leads(JustWaiting(m), Background(L.Tick(m)), OverTime(m), slack, period)
  {
  }

  /** Up to a timer that starts x ms after both leases were taken. */
  lemma LateTimer(x: nat, rest: seq<Action>, slack: nat, period: nat) returns (run: seq<Action>)
    requires x < slack && Runs(StartedAt(x), rest, slack, period)
    ensures Runs(Initial, run, slack, period)
    ensures Final(Initial, run, slack, period) == Final(StartedAt(x), rest, slack, period)
  {
    StartTimer(x, 0, "o", slack, period);
    Step(ArmedAt(x, 0, "o"), Emit(0, TimerStarted, Answered), StartedAt(x), rest, slack, period);
    run := [Emit(0, TimerStarted, Answered)] + rest;
    DawdleArmed(x, slack, period);
    Step(ArmedAt(0, 0, "o"), Background(L.Tick(x)), ArmedAt(x, 0, "o"), run, slack, period);
    run := [Background(L.Tick(x))] + run;
    TakeOrder(0, "o", slack, period);
    Step(Held(0, "o"), Emit(0, OrderLocked, Answered), ArmedAt(0, 0, "o"), run, slack, period);
    run := [Emit(0, OrderLocked, Answered)] + run;
    run := Begin("o", run, slack, period);
  }

  lemma OneMore(s: State, a: Action, s': State, rest: seq<Action>, slack: nat, period: nat) returns (run: seq<Action>)
    requires Leads(s, a, s', slack, period) && Runs(s', rest, slack, period)
    ensures Runs(s, run, slack, period) && Final(s, run, slack, period) == Final(s', rest, slack, period)
  {
    Step(s, a, s', rest, slack, period);
    run := [a] + rest;
  }

  lemma TimerAfter(m: nat, rest: seq<Action>, slack: nat, period: nat) returns (run: seq<Action>)
    requires m <= SEQUENTIAL_CALL_TIMEOUT_MS && DISPATCH_LOCK_TTL_MS < slack + m
    requires Runs(JustWaiting(m), rest, slack, period)
    ensures Runs(Initial, run, slack, period)
    ensures Final(Initial, run, slack, period) == Final(JustWaiting(m), rest, slack, period)
  {
    run := LateTimer(DISPATCH_LOCK_TTL_MS - m, rest, slack, period);
  }

  lemma LateWait(rest: seq<Action>, slack: nat, period: nat) returns (run: seq<Action>)
    requires DISPATCH_LOCK_TTL_MS < slack + Min(period, SEQUENTIAL_CALL_TIMEOUT_MS)
    requires Runs(OverTime(Min(period, SEQUENTIAL_CALL_TIMEOUT_MS)), rest, slack, period)
    ensures Runs(Initial, run, slack, period)
    ensures Final(Initial, run, slack, period)
            == Final(OverTime(Min(period, SEQUENTIAL_CALL_TIMEOUT_MS)), rest, slack, period)
  {
    var m: nat := Min(period, SEQUENTIAL_CALL_TIMEOUT_MS);
    WaitUntilExpiry(slack, period);
    run := OneMore(JustWaiting(m), Background(L.Tick(m)), OverTime(m), rest, slack, period);
    run := TimerAfter(m, run, slack, period);
  }

  lemma DawdleArmed(x: nat, slack: nat, period: nat)
    requires 0 < slack
    ensures Leads(ArmedAt(0, 0, "o"), Background(L.Tick(x)), ArmedAt(x, 0, "o"), slack, period)
  {
  }

  /** At most one thread waits for an order in all such runs, exactly if slack plus renewal period (at most the 19 s of the
      timer) fit into the 29 s of the dispatch lease: 24 s of slack with the renewal every 5 s, 10 s with none. */
  lemma OrderSideBound(slack: nat, period: nat)
    ensures (forall run: seq<Action> | Runs(Initial, run, slack, period) ::
               OrderWaitsExclude(Final(Initial, run, slack, period)))
            <==> slack + Min(period, SEQUENTIAL_CALL_TIMEOUT_MS) <= DISPATCH_LOCK_TTL_MS
  {
    if slack + Min(period, SEQUENTIAL_CALL_TIMEOUT_MS) <= DISPATCH_LOCK_TTL_MS {
      forall run: seq<Action> | Runs(Initial, run, slack, period)
        ensures OrderWaitsExclude(Final(Initial, run, slack, period))
      {
        RunKeepsInv(Initial, run, slack, period);
        InvMeansOrderWaitsExclude(Final(Initial, run, slack, period), slack, period);
      }
    } else {
      var run := TwoWaitsOneOrder(slack, period);
    }
  }
}
