/** How sendFcm moves from candidate to candidate, read off its trace alone. */
module DispatchContacts {
  import opened Model
  import opened Contact
  import opened WaitLoop
  import opened OrderLog
  import opened DispatchTraces
  import opened DispatchResults

  // ----- What an iteration's own events say

  /** Something that ends the contacts: a wait that ended without going on, or an order somebody else is dispatching. */
  predicate Stops(e: Event) {
    (e.WaitEnded? && !e.shouldContinue) || e == OrderLockRefused
  }

  /** An iteration after which the next candidate gets its turn: its order read saw Waiting, and nothing in it stopped. */
  ghost predicate GoesOn(t: seq<Event>) {
    2 <= |t| && t[1] == OrderRead(Waiting) && forall e | e in t :: !Stops(e)
  }

  predicate Taken(e: Event) {
    e.OrderRead? && e.status != Waiting && e.status != Cancelled
  }

  /** An iteration that found the order taken: by its own read, or in its wait. */
  ghost predicate FindsTaken(t: seq<Event>) {
    (2 <= |t| && Taken(t[1])) || exists e | e in t :: e.WaitEnded? && e.accepted
  }

  /** The events of an iteration: its turn, its read of the order, and no other turn. A read that does not see Waiting ends it,
      and a read comes last only if nothing followed it. */
  ghost predicate IsIteration(t: seq<Event>, rank: nat) {
    && 2 <= |t| && t[0] == Turn(rank) && (t[1].OrderRead? || t[1] == OrderReadFailed)
    && (forall k | 0 < k < |t| :: !t[k].Turn?)
    && (t[|t| - 1].OrderRead? || t[1] != OrderRead(Waiting) ==> |t| == 2)
    && (forall e | e in t && e.WaitEnded? :: !(e.accepted && e.shouldContinue))
  }

  lemma WaitEvents(order: Order, driver: string, env: ContactEnv)
    requires ValidWakes(env.wakes)
    ensures var (t, accepted, shouldContinue) := WaitTrace(order, driver, env);
            && (forall e | e in t :: !e.Turn?)
            && (forall e | e in t && e.WaitEnded? :: e == WaitEnded(accepted, shouldContinue))
            && ((exists e | e in t :: Stops(e)) <==> !shouldContinue)
            && ((exists e | e in t :: e.WaitEnded? && e.accepted) <==> accepted)
            && !(accepted && shouldContinue)
  {
    if env.orderLock.Err? {
      assert WaitTrace(order, driver, env).0 == [];
    } else if env.orderLock.value {
      LockedWaitEvents(order, driver, env);
    } else {
      assert WaitTrace(order, driver, env).0 == [OrderLockRefused] && Stops([OrderLockRefused][0]);
    }
  }

  lemma LockedWaitEvents(order: Order, driver: string, env: ContactEnv)
    requires ValidWakes(env.wakes) && env.orderLock == Ok(true)
    ensures var (t, accepted, shouldContinue) := WaitTrace(order, driver, env);
            && OneEnd(t, accepted, shouldContinue) && !(accepted && shouldContinue)
  {
    var n := StopIndex(order.id, driver, env.wakes);
    var outcome := OutcomeOf(env.wakes[n].cause);
    OutcomeMeans(order.id, driver, env.wakes);
    var before := BeforeTheEnd(env.wakes[..n + 1]);
    var after := AfterTheEnd(order, driver, env.timeout, outcome.timedOut);
    OneEndInside(before, outcome, after);
    assert WaitTrace(order, driver, env).0 == before + [WaitEnded(outcome.accepted, outcome.shouldContinue)] + after;
  }

  lemma BeforeTheEnd(wakes: seq<Wake>) returns (before: seq<Event>)
    ensures before == [OrderLocked, TimerStarted] + SeenAll(wakes)
    ensures forall e | e in before :: !Stops(e) && !e.WaitEnded? && !e.Turn?
  {
    SeenEvents(wakes);
    before := [OrderLocked, TimerStarted] + SeenAll(wakes);
  }

  lemma AfterTheEnd(order: Order, driver: string, env: TimeoutEnv, timedOut: bool) returns (after: seq<Event>)
    ensures after == (if timedOut then TimeoutTrace(order, driver, env) else []) + [OrderUnlocked]
    ensures forall e | e in after :: !Stops(e) && !e.WaitEnded? && !e.Turn?
  {
    after := (if timedOut then TimeoutTrace(order, driver, env) else []) + [OrderUnlocked];
  }

  /** A wait ends once, with this outcome. */
  ghost predicate OneEnd(t: seq<Event>, accepted: bool, shouldContinue: bool) {
    && (forall e | e in t :: !e.Turn?)
    && (forall e | e in t && e.WaitEnded? :: e == WaitEnded(accepted, shouldContinue))
    && ((exists e | e in t :: Stops(e)) <==> !shouldContinue)
    && ((exists e | e in t :: e.WaitEnded? && e.accepted) <==> accepted)
  }

  lemma OneEndInside(before: seq<Event>, outcome: Outcome, after: seq<Event>)
    requires forall e | e in before + after :: !Stops(e) && !e.WaitEnded? && !e.Turn?
    ensures OneEnd(before + [WaitEnded(outcome.accepted, outcome.shouldContinue)] + after,
                   outcome.accepted, outcome.shouldContinue)
  {
    var ended := WaitEnded(outcome.accepted, outcome.shouldContinue);
    var t := before + [ended] + after;
    assert t[|before|] == ended;
    assert Stops(ended) <==> !outcome.shouldContinue;
    assert forall e | e in t :: e in before + after || e == ended;
  }

  lemma HeldEvents(order: Order, c: Candidate, rank: nat, env: ContactEnv)
    requires ValidWakes(env.wakes)
    ensures var (t, verdict) := HeldTrace(order, c, rank, env);
            && (forall e | e in t :: !e.Turn?)
            && (forall e | e in t && e.WaitEnded? :: !(e.accepted && e.shouldContinue))
            && (verdict == NextDriver <==> forall e | e in t :: !Stops(e))
            && (verdict == Matched <==> exists e | e in t :: e.WaitEnded? && e.accepted)
            && verdict != Aborted
  {
    if env.driverRead.Ok? && env.driverRead.value.Free() && env.pushOk {
      var head := [DriverRead(c.driver, env.driverRead.value), Pushed(c.driver, c.durationMins + CompensationMins(rank))]
                  + RecordTrace(c.driver, env.recordRead);
      var (waited, accepted, shouldContinue) := WaitTrace(order, c.driver, env);
      assert HeldTrace(order, c, rank, env).0 == head + waited;
      WaitEvents(order, c.driver, env);
      EventsInTail(head, waited);
    }
  }

  lemma EventsInTail(head: seq<Event>, tail: seq<Event>)
    requires forall e | e in head :: !Stops(e) && !e.WaitEnded? && !e.Turn?
    ensures (exists e | e in head + tail :: Stops(e)) <==> exists e | e in tail :: Stops(e)
    ensures (exists e | e in head + tail :: e.WaitEnded? && e.accepted) <==> exists e | e in tail :: e.WaitEnded? && e.accepted
    ensures forall e | e in head + tail && (e.WaitEnded? || e.Turn?) :: e in tail
  {
    forall e | e in tail ensures e in head + tail {
    }
  }

  /** The verdict of an iteration is what its events say. */
  lemma VerdictOfEvents(order: Order, c: Candidate, rank: nat, env: ContactEnv)
    requires ValidWakes(env.wakes)
    ensures var (t, verdict) := ContactTrace(order, c, rank, env);
            && IsIteration(t, rank)
            && (verdict == NextDriver <==> GoesOn(t))
            && (verdict == Matched <==> FindsTaken(t))
            && (verdict == Aborted <==> t[1] == OrderReadFailed)
  {
    var (t, verdict) := ContactTrace(order, c, rank, env);
    if env.orderRead == Ok(Waiting) && c.fcmToken != "" && env.driverLock == Ok(true) {
      var (held, v) := HeldTrace(order, c, rank, env);
      HeldEvents(order, c, rank, env);
      WrappedEvents(rank, c.driver, held);
      assert t == [Turn(rank), OrderRead(Waiting), DriverLocked(c.driver)] + held + [DriverUnlocked(c.driver)];
    }
  }

  lemma WrappedEvents(rank: nat, driver: string, held: seq<Event>)
    requires (forall e | e in held :: !e.Turn?) && (forall e | e in held && e.WaitEnded? :: !(e.accepted && e.shouldContinue))
    ensures var t := [Turn(rank), OrderRead(Waiting), DriverLocked(driver)] + held + [DriverUnlocked(driver)];
            && IsIteration(t, rank)
            && (GoesOn(t) <==> forall e | e in held :: !Stops(e))
            && (FindsTaken(t) <==> exists e | e in held :: e.WaitEnded? && e.accepted)
  {
    var t := [Turn(rank), OrderRead(Waiting), DriverLocked(driver)] + held + [DriverUnlocked(driver)];
    forall e | e in held ensures e in t {
    }
    forall e | e in t && (Stops(e) || e.WaitEnded?) ensures e in held {
    }
    forall k | 0 < k < |t| ensures !t[k].Turn? {
      if 3 <= k < |t| - 1 {
        assert t[k] == held[k - 3];
      }
    }
  }

  // ----- What an iteration does with what it finds

  /** The round a timeout of this handling belongs to. */
  predicate RoundIs(order: Order, rounds: int) {
    (order.rounds.None? && rounds == 1) || order.rounds == Some(rounds)
  }

  /** A timeout in this round is due for logging: the handler is not shut out, could read the order, and the order's log has
      no accept, reject or timeout of the driver in this round, whatever other rounds hold. */
  ghost predicate TimeoutDue(driver: string, rounds: int, env: TimeoutEnv) {
    && env.rejectLock != Ok(false) && env.status.Ok?
    && !exists e | e in env.log ::
         e.driver == driver && e.rounds == rounds
         && (e.action == DriverAccept || e.action == DriverReject || e.action == DriverTimeout)
  }

  /** The handler logs the timeout exactly when it is due, and logs nothing else. */
  lemma TimeoutLoggedExactlyWhenDue(order: Order, driver: string, env: TimeoutEnv, rounds: int)
    requires RoundIs(order, rounds)
    ensures var t := TimeoutTrace(order, driver, env);
            && (TimeoutLogged(driver, rounds) in t <==> TimeoutDue(driver, rounds, env))
            && forall e | e in t && e.TimeoutLogged? :: e == TimeoutLogged(driver, rounds)
  {
    TimeoutIsOneSection(order, driver, env);
    TimeoutNeedsEmptyRound(env.log, driver, rounds);
  }

  /** The wait is entered exactly with the order's lock, and refused exactly if somebody else has it; a timeout is logged
      exactly if the timer ended the wait and the timeout is due. */
  ghost predicate WaitDoes(t: seq<Event>, order: Order, driver: string, env: ContactEnv)
    requires ValidWakes(env.wakes)
  {
    && (OrderLocked in t <==> env.orderLock == Ok(true))
    && (OrderLockRefused in t <==> env.orderLock == Ok(false))
    && forall rounds | RoundIs(order, rounds) ::
         TimeoutLogged(driver, rounds) in t
         <==> env.orderLock == Ok(true) && TimeoutDue(driver, rounds, env.timeout)
              && env.wakes[StopIndex(order.id, driver, env.wakes)].cause == TimerFired
  }

  /** Events of the other parts of an iteration. */
  predicate Foreign(e: Event) {
    e.Pushed? || e.PushFailed? || e.NotifyRecorded? || e.DriverLocked?
  }

  /** A wait under the order's lock: what comes before the timeout handler, and the handler's part. */
  lemma WaitShape(order: Order, driver: string, env: ContactEnv) returns (before: seq<Event>, timeout: seq<Event>)
    requires ValidWakes(env.wakes) && env.orderLock == Ok(true)
    ensures WaitTrace(order, driver, env).0 == before + timeout + [OrderUnlocked]
    ensures before != [] && before[0] == OrderLocked
    ensures forall e | e in before :: !e.TimeoutLogged? && e != OrderLockRefused && !Foreign(e)
    ensures timeout == if env.wakes[StopIndex(order.id, driver, env.wakes)].cause == TimerFired
                       then TimeoutTrace(order, driver, env.timeout) else []
  {
    var n := StopIndex(order.id, driver, env.wakes);
    var outcome := OutcomeOf(env.wakes[n].cause);
    SeenEvents(env.wakes[..n + 1]);
    OutcomeMeans(order.id, driver, env.wakes);
    before := [OrderLocked, TimerStarted] + SeenAll(env.wakes[..n + 1]) + [WaitEnded(outcome.accepted, outcome.shouldContinue)];
    timeout := if outcome.timedOut then TimeoutTrace(order, driver, env.timeout) else [];
  }

  lemma TimeoutHasNoForeign(order: Order, driver: string, env: TimeoutEnv)
    ensures forall e | e in TimeoutTrace(order, driver, env) :: !Foreign(e) && e != OrderLocked && e != OrderLockRefused
  {
  }

  lemma PartsOfWait(before: seq<Event>, timeout: seq<Event>)
    requires before != [] && before[0] == OrderLocked
    requires forall e | e in before :: !e.TimeoutLogged? && e != OrderLockRefused && !Foreign(e)
    requires forall e | e in timeout :: !Foreign(e) && e != OrderLocked && e != OrderLockRefused
    ensures var t := before + timeout + [OrderUnlocked];
            && OrderLocked in t && OrderLockRefused !in t && (forall e | e in t :: !Foreign(e))
            && (forall e: Event | e.TimeoutLogged? :: e in t <==> e in timeout)
  {
    var t := before + timeout + [OrderUnlocked];
    assert t[0] == OrderLocked;
  }

  lemma WaitDoesWhatItFinds(order: Order, driver: string, env: ContactEnv)
    requires ValidWakes(env.wakes)
    ensures WaitDoes(WaitTrace(order, driver, env).0, order, driver, env)
    ensures forall e | e in WaitTrace(order, driver, env).0 :: !Foreign(e)
  {
    if env.orderLock.Err? {
      assert WaitTrace(order, driver, env).0 == [];
    } else if env.orderLock.value {
      var before, timeout := WaitShape(order, driver, env);
      TimeoutHasNoForeign(order, driver, env.timeout);
      PartsOfWait(before, timeout);
      forall rounds | RoundIs(order, rounds)
        ensures TimeoutLogged(driver, rounds) in timeout
                <==> TimeoutDue(driver, rounds, env.timeout)
                     && env.wakes[StopIndex(order.id, driver, env.wakes)].cause == TimerFired
      {
        TimeoutLoggedExactlyWhenDue(order, driver, env.timeout, rounds);
      }
    } else {
      assert WaitTrace(order, driver, env).0 == [OrderLockRefused];
    }
  }

  predicate FoundFree(read: Result<DriverView>) {
    read.Ok? && read.value.status == Idle && (read.value.currentOrder == None || read.value.currentOrder == Some(""))
  }

  /** With the driver's lock held: a driver that is idle without an order, and nobody else, is pushed; a push that went
      through is recorded exactly if the driver is still free, and waited for. */
  ghost predicate HeldDoes(t: seq<Event>, order: Order, c: Candidate, rank: nat, env: ContactEnv)
    requires ValidWakes(env.wakes)
  {
    var pushed := FoundFree(env.driverRead) && env.pushOk;
    && (Pushed(c.driver, c.durationMins + rank * 19 / 30) in t <==> pushed)
    && ((exists e | e in t :: e.PushFailed?) <==> FoundFree(env.driverRead) && !env.pushOk)
    && (NotifyRecorded(c.driver) in t <==> pushed && FoundFree(env.recordRead))
    && (OrderLocked in t <==> pushed && env.orderLock == Ok(true))
    && (OrderLockRefused in t <==> pushed && env.orderLock == Ok(false))
    && forall rounds | RoundIs(order, rounds) ::
         TimeoutLogged(c.driver, rounds) in t
         <==> pushed && env.orderLock == Ok(true) && TimeoutDue(c.driver, rounds, env.timeout)
              && env.wakes[StopIndex(order.id, c.driver, env.wakes)].cause == TimerFired
  }

  lemma HeldDoesWhatItFinds(order: Order, c: Candidate, rank: nat, env: ContactEnv)
    requires ValidWakes(env.wakes)
    ensures HeldDoes(HeldTrace(order, c, rank, env).0, order, c, rank, env)
    ensures forall e | e in HeldTrace(order, c, rank, env).0 :: !e.DriverLocked?
  {
    if env.driverRead.Ok? && env.driverRead.value.Free() {
      if env.pushOk {
        PushedDoes(order, c, rank, env);
      } else {
        var t := [DriverRead(c.driver, env.driverRead.value), PushFailed(c.driver)];
        assert t[1].PushFailed? && HeldTrace(order, c, rank, env).0 == t;
      }
    }
  }

  lemma PushedDoes(order: Order, c: Candidate, rank: nat, env: ContactEnv)
    requires ValidWakes(env.wakes) && FoundFree(env.driverRead) && env.pushOk
    ensures HeldDoes(HeldTrace(order, c, rank, env).0, order, c, rank, env)
    ensures forall e | e in HeldTrace(order, c, rank, env).0 :: !e.DriverLocked?
  {
    var read, push := DriverRead(c.driver, env.driverRead.value), Pushed(c.driver, c.durationMins + CompensationMins(rank));
    var record := RecordTrace(c.driver, env.recordRead);
    var waited := WaitTrace(order, c.driver, env).0;
    assert HeldTrace(order, c, rank, env).0 == [read, push] + record + waited;
    WaitDoesWhatItFinds(order, c.driver, env);
    RecordDoes(c.driver, env.recordRead);
    HeadDoes(read, push, record);
    PartsOfHeld([read, push] + record, waited);
  }

  lemma HeadDoes(read: Event, push: Event, record: seq<Event>)
    requires read.DriverRead? && push.Pushed? && forall e | e in record :: e.DriverRead? || e.NotifyRecorded?
    ensures forall e | e in [read, push] + record :: e.DriverRead? || e.Pushed? || e.NotifyRecorded?
    ensures push in [read, push] + record
    ensures forall e: Event | e.NotifyRecorded? :: e in [read, push] + record <==> e in record
  {
    assert ([read, push] + record)[1] == push;
  }

  lemma RecordDoes(driver: string, read: Result<DriverView>)
    ensures NotifyRecorded(driver) in RecordTrace(driver, read) <==> FoundFree(read)
    ensures forall e | e in RecordTrace(driver, read) :: e.DriverRead? || e.NotifyRecorded?
  {
    if FoundFree(read) {
      assert RecordTrace(driver, read)[1] == NotifyRecorded(driver);
    }
  }

  lemma PartsOfHeld(head: seq<Event>, waited: seq<Event>)
    requires forall e | e in head :: e.DriverRead? || e.Pushed? || e.NotifyRecorded?
    requires forall e | e in waited :: !Foreign(e)
    ensures forall e: Event | e.Pushed? || e.NotifyRecorded? :: e in head + waited <==> e in head
    ensures forall e | e in head + waited :: !e.PushFailed? && !e.DriverLocked?
    ensures forall e: Event | e == OrderLocked || e == OrderLockRefused || e.TimeoutLogged? :: e in head + waited <==> e in waited
  {
  }

  /** A whole iteration: it reads the order; it takes the driver's lock exactly if the order is Waiting, the driver can be
      reached and the lock is granted; the rest needs the lock. */
  ghost predicate IterationDoes(t: seq<Event>, order: Order, c: Candidate, rank: nat, env: ContactEnv)
    requires ValidWakes(env.wakes)
  {
    var locked := env.orderRead == Ok(Waiting) && c.fcmToken != "" && env.driverLock == Ok(true);
    var pushed := locked && FoundFree(env.driverRead) && env.pushOk;
    && 2 <= |t| && t[0] == Turn(rank)
    && t[1] == (if env.orderRead.Ok? then OrderRead(env.orderRead.value) else OrderReadFailed)
    && (DriverLocked(c.driver) in t <==> locked)
    && (Pushed(c.driver, c.durationMins + rank * 19 / 30) in t <==> pushed)
    && ((exists e | e in t :: e.PushFailed?) <==> locked && FoundFree(env.driverRead) && !env.pushOk)
    && (NotifyRecorded(c.driver) in t <==> pushed && FoundFree(env.recordRead))
    && (OrderLocked in t <==> pushed && env.orderLock == Ok(true))
    && (OrderLockRefused in t <==> pushed && env.orderLock == Ok(false))
    && forall rounds | RoundIs(order, rounds) ::
         TimeoutLogged(c.driver, rounds) in t
         <==> pushed && env.orderLock == Ok(true) && TimeoutDue(c.driver, rounds, env.timeout)
              && env.wakes[StopIndex(order.id, c.driver, env.wakes)].cause == TimerFired
  }

  lemma ContactDoesWhatItFinds(order: Order, c: Candidate, rank: nat, env: ContactEnv)
    requires ValidWakes(env.wakes)
    ensures IterationDoes(ContactTrace(order, c, rank, env).0, order, c, rank, env)
  {
    if env.orderRead == Ok(Waiting) && c.fcmToken != "" && env.driverLock == Ok(true) {
      HeldDoesWhatItFinds(order, c, rank, env);
      WrappedDoes(HeldTrace(order, c, rank, env).0, order, c, rank, env);
    }
  }

  lemma WrappedDoes(held: seq<Event>, order: Order, c: Candidate, rank: nat, env: ContactEnv)
    requires ValidWakes(env.wakes) && HeldDoes(held, order, c, rank, env)
    requires env.orderRead == Ok(Waiting) && c.fcmToken != "" && env.driverLock == Ok(true)
    ensures IterationDoes([Turn(rank), OrderRead(Waiting), DriverLocked(c.driver)] + held + [DriverUnlocked(c.driver)],
                          order, c, rank, env)
  {
    var t := [Turn(rank), OrderRead(Waiting), DriverLocked(c.driver)] + held + [DriverUnlocked(c.driver)];
    assert t[2] == DriverLocked(c.driver);
    assert forall e | e in held :: e in t;
    assert forall e | e in t ::
        e in held || e == Turn(rank) || e == OrderRead(Waiting) || e == DriverLocked(c.driver) || e == DriverUnlocked(c.driver);
  }

  // ----- From candidate to candidate

  /** Where the next turn begins, or the end. */
  function NextTurn(t: seq<Event>, from: nat): (n: nat)
    requires from <= |t|
    ensures from <= n <= |t| && (n < |t| ==> t[n].Turn?) && forall k | from <= k < n :: !t[k].Turn?
    decreases |t| - from
  {
    if from == |t| || t[from].Turn? then from else NextTurn(t, from + 1)
  }

  /** From a turn up to the next. */
  function IterationAt(t: seq<Event>, k: nat): seq<Event>
    requires k < |t| && t[k].Turn?
  {
    t[k..NextTurn(t, k + 1)]
  }

  /** How the turn at position k goes on, for n candidates: to the next turn exactly if its iteration goes on and there is
      such a candidate; otherwise the trace ends with its iteration. */
  ghost predicate TurnFollowed(t: seq<Event>, k: nat, n: nat)
    requires k < |t| && t[k].Turn?
  {
    && t[k].rank < n && IsIteration(IterationAt(t, k), t[k].rank)
    && var next := NextTurn(t, k + 1);
       if GoesOn(IterationAt(t, k)) && t[k].rank + 1 < n then next < |t| && t[next] == Turn(t[k].rank + 1)
       else next == |t|
  }

  ghost predicate TurnsFollow(t: seq<Event>, n: nat) {
    forall k: nat {:trigger TurnFollowed(t, k, n)} | k < |t| && t[k].Turn? :: TurnFollowed(t, k, n)
  }

  lemma NextTurnShifts(head: seq<Event>, rest: seq<Event>, from: nat)
    requires from <= |rest|
    ensures NextTurn(head + rest, |head| + from) == |head| + NextTurn(rest, from)
  {
    var t := head + rest;
    var n := NextTurn(rest, from);
    assert n < |rest| ==> t[|head| + n] == rest[n];
    assert forall k | |head| + from <= k < |head| + n :: t[k] == rest[k - |head|];
  }

  /** A turn is followed in the same way when something comes in front. */
  lemma FollowedLater(head: seq<Event>, rest: seq<Event>, k: nat, n: nat)
    requires k < |rest| && rest[k].Turn? && TurnFollowed(rest, k, n)
    ensures (head + rest)[|head| + k] == rest[k] && TurnFollowed(head + rest, |head| + k, n)
  {
    var t := head + rest;
    NextTurnShifts(head, rest, k + 1);
    var next := NextTurn(rest, k + 1);
    assert t[|head| + k..|head| + next] == rest[k..next];
    assert IterationAt(t, |head| + k) == IterationAt(rest, k);
    assert next < |rest| ==> t[|head| + next] == rest[next];
  }

  lemma FirstFollowed(head: seq<Event>, rest: seq<Event>, rank: nat, n: nat)
    requires IsIteration(head, rank) && rank < n
    requires if GoesOn(head) && rank + 1 < n then rest != [] && rest[0] == Turn(rank + 1) else rest == []
    ensures (head + rest)[0] == head[0] && TurnFollowed(head + rest, 0, n)
  {
    FirstIteration(head, rest);
  }

  lemma OnlyFirstTurn(head: seq<Event>, rest: seq<Event>, k: nat)
    requires forall j | 0 < j < |head| :: !head[j].Turn?
    requires k < |head + rest| && (head + rest)[k].Turn?
    ensures k == 0 || (|head| <= k && rest[k - |head|].Turn?)
  {
  }

  /** Putting an iteration in front. */
  lemma TurnsCombine(head: seq<Event>, rest: seq<Event>, rank: nat, n: nat)
    requires IsIteration(head, rank) && rank < n && TurnsFollow(rest, n)
    requires if GoesOn(head) && rank + 1 < n then rest != [] && rest[0] == Turn(rank + 1) else rest == []
    ensures TurnsFollow(head + rest, n)
  {
    FirstFollowed(head, rest, rank, n);
    AllFollowed(head, rest, n);
  }

  lemma AllFollowed(head: seq<Event>, rest: seq<Event>, n: nat)
    requires head != [] && head[0].Turn? && (forall j | 0 < j < |head| :: !head[j].Turn?) && TurnsFollow(rest, n)
    requires (head + rest)[0] == head[0] && TurnFollowed(head + rest, 0, n)
    ensures TurnsFollow(head + rest, n)
  {
    forall k: nat | k < |head + rest| && (head + rest)[k].Turn? ensures TurnFollowed(head + rest, k, n) {
      OnlyFirstTurn(head, rest, k);
      if k > 0 {
        assert TurnFollowed(rest, k - |head|, n);
        FollowedLater(head, rest, k - |head|, n);
      }
    }
  }

  lemma FirstIteration(head: seq<Event>, rest: seq<Event>)
    requires 1 <= |head| && head[0].Turn? && (forall k | 0 < k < |head| :: !head[k].Turn?) && (rest != [] ==> rest[0].Turn?)
    ensures NextTurn(head + rest, 1) == |head| && (head + rest)[0] == head[0] && IterationAt(head + rest, 0) == head
    ensures rest != [] ==> (head + rest)[|head|] == rest[0]
  {
    var t := head + rest;
    assert forall k | 0 < k < |head| :: t[k] == head[k];
    assert rest != [] ==> t[|head|] == rest[0];
  }

  /** The trace of the candidates from i on. */
  ghost predicate TurnsFrom(t: seq<Event>, i: nat, n: nat) {
    TurnsFollow(t, n) && if i < n then t != [] && t[0] == Turn(i) else t == []
  }

  lemma {:induction false} SendTurnsFollow(order: Order, candidates: seq<Candidate>, envs: seq<ContactEnv>, i: nat)
    requires ValidContacts(candidates, envs) && i <= |candidates|
    ensures TurnsFrom(SendTrace(order, candidates, envs, i).0, i, |candidates|)
    decreases |candidates| - i
  {
    if i < |candidates| {
      VerdictOfEvents(order, candidates[i], i, envs[i]);
      SendTurnsFollow(order, candidates, envs, i + 1);
      var (head, verdict) := ContactTrace(order, candidates[i], i, envs[i]);
      OneMoreTurn(head, if verdict == NextDriver then SendTrace(order, candidates, envs, i + 1).0 else [], i, |candidates|);
      assert head + [] == head;
    }
  }

  lemma OneMoreTurn(head: seq<Event>, rest: seq<Event>, i: nat, n: nat)
    requires i < n && IsIteration(head, i) && (if GoesOn(head) then TurnsFrom(rest, i + 1, n) else rest == [])
    ensures TurnsFrom(head + rest, i, n)
  {
    TurnsCombine(head, rest, i, n);
    assert (head + rest)[0] == head[0];
  }

  /** The answer is true exactly if the trace found the order taken: in a wait, or by its last event. */
  ghost predicate EndsTaken(t: seq<Event>) {
    (exists e | e in t :: e.WaitEnded? && e.accepted) || (t != [] && Taken(t[|t| - 1]))
  }

  /** An error comes only from an iteration's own read. */
  ghost predicate EndsUnread(t: seq<Event>) {
    2 <= |t| && t[|t| - 1] == OrderReadFailed && t[|t| - 2].Turn?
  }

  lemma {:induction false} SendAnswersTaken(order: Order, candidates: seq<Candidate>, envs: seq<ContactEnv>, i: nat)
    requires ValidContacts(candidates, envs) && i <= |candidates|
    ensures var (t, result) := SendTrace(order, candidates, envs, i);
            (result == Ok(true) <==> EndsTaken(t)) && (result.Err? <==> EndsUnread(t))
    decreases |candidates| - i
  {
    if i < |candidates| {
      VerdictOfEvents(order, candidates[i], i, envs[i]);
      var (head, verdict) := ContactTrace(order, candidates[i], i, envs[i]);
      if verdict == NextDriver {
        SendAnswersTaken(order, candidates, envs, i + 1);
        SendTurnsFollow(order, candidates, envs, i + 1);
        EndsLater(head, SendTrace(order, candidates, envs, i + 1).0, i, |candidates|);
      } else {
        EndsHere(head, i);
      }
    }
  }

  lemma EndsHere(head: seq<Event>, rank: nat)
    requires IsIteration(head, rank)
    ensures EndsTaken(head) <==> FindsTaken(head)
    ensures EndsUnread(head) <==> head[1] == OrderReadFailed
  {
  }

  lemma EndsLater(head: seq<Event>, rest: seq<Event>, rank: nat, n: nat)
    requires IsIteration(head, rank) && GoesOn(head) && TurnsFrom(rest, rank + 1, n)
    ensures EndsTaken(head + rest) <==> EndsTaken(rest)
    ensures EndsUnread(head + rest) <==> EndsUnread(rest)
  {
    forall e | e in head && e.WaitEnded? ensures !e.accepted {
      assert !Stops(e);
    }
    if rest == [] {
      assert head + rest == head;
      EndsHere(head, rank);
    } else {
      assert TurnFollowed(rest, 0, n);
      TailEnds(head, rest);
    }
  }

  lemma TailEnds(head: seq<Event>, rest: seq<Event>)
    requires 2 <= |rest| && forall e | e in head && e.WaitEnded? :: !e.accepted
    ensures EndsTaken(head + rest) <==> EndsTaken(rest)
    ensures EndsUnread(head + rest) <==> EndsUnread(rest)
  {
    var t := head + rest;
    assert t[|t| - 1] == rest[|rest| - 1] && t[|t| - 2] == rest[|rest| - 2];
    assert forall e | e in rest :: e in t;
  }

  // ----- Over a whole sendFcm and a whole handleOrder

  /** Nothing bad happened: every read saw Waiting, and no wait or lock ended the contacts. */
  predicate Undisturbed(e: Event) {
    e != OrderReadFailed && (e.OrderRead? ==> e.status == Waiting) && !Stops(e)
  }

  /** As long as nothing disturbs it the dispatch reaches every candidate. */
  lemma {:induction false} EverybodyGetsATurn(order: Order, candidates: seq<Candidate>, envs: seq<ContactEnv>, i: nat, m: nat)
    requires ValidContacts(candidates, envs) && i <= m < |candidates|
    requires forall e | e in SendTrace(order, candidates, envs, i).0 :: Undisturbed(e)
    ensures Turn(m) in SendTrace(order, candidates, envs, i).0
    decreases |candidates| - i
  {
    var (head, verdict) := ContactTrace(order, candidates[i], i, envs[i]);
    VerdictOfEvents(order, candidates[i], i, envs[i]);
    var t := SendTrace(order, candidates, envs, i).0;
    assert t[..|head|] == head;
    assert head[1] in t && forall e | e in head :: e in t;
    assert GoesOn(head);
    if i < m {
      var rest := SendTrace(order, candidates, envs, i + 1).0;
      assert t == head + rest;
      assert forall e | e in rest :: e in t;
      EverybodyGetsATurn(order, candidates, envs, i + 1, m);
    } else {
      assert head[0] in t;
    }
  }

  /** Main result: an order is failed for want of an acceptance only after every candidate had its turn, unless a read
      failed or saw the order out of Waiting, a wait ended without going on, or another dispatcher had the order. */
  lemma FailsOnlyAfterAllTurns(order: Order, env: HandleEnv, m: nat)
    requires ValidEnv(env) && env.fcmReady && OrderFailed(NoAcceptance) in HandleTrace(order, env)
    requires forall e | e in HandleTrace(order, env) :: Undisturbed(e)
    ensures env.candidates.Ok? && (m < |env.candidates.value| ==> Turn(m) in HandleTrace(order, env))
  {
    FailsExactlyAfterAWaitingRead(order, env);
    var candidates := env.candidates.value;
    var (sent, result) := SendFcmTrace(order, candidates, env);
    var t := HandleTrace(order, env);
    var tail := ResultTrace(result, env.finalRead) + [RoundCounted];
    assert t == sent + tail;
    assert forall e | e in sent :: e in t;
    assert sent[0] in t && env.initialRead == Ok(Waiting);
    if m < |candidates| {
      var turns := SendTrace(order, candidates, env.contacts, 0).0;
      assert sent == [OrderRead(Waiting)] + turns;
      assert forall e | e in turns :: e in sent;
      EverybodyGetsATurn(order, candidates, env.contacts, 0, m);
    }
  }

  /** The whole of sendFcm, from its first read on. */
  lemma SendFcmFollowsItsTurns(order: Order, candidates: seq<Candidate>, env: HandleEnv)
    requires ValidContacts(candidates, env.contacts)
    ensures var (t, result) := SendFcmTrace(order, candidates, env);
            && t != [] && (t[0].OrderRead? || t[0] == OrderReadFailed)
            && TurnsFollow(t, |candidates|)
            && (t[0] == OrderRead(Waiting) && candidates != [] <==> 1 < |t| && t[1] == Turn(0))
            && (t[0] != OrderRead(Waiting) ==> |t| == 1)
            && (result == Ok(true) <==> EndsTaken(t))
  {
    if env.initialRead == Ok(Waiting) {
      var turns := SendTrace(order, candidates, env.contacts, 0).0;
      SendTurnsFollow(order, candidates, env.contacts, 0);
      SendAnswersTaken(order, candidates, env.contacts, 0);
      AfterOneRead(turns, |candidates|);
    }
  }

  lemma AfterOneRead(turns: seq<Event>, n: nat)
    requires TurnsFollow(turns, n)
    ensures TurnsFollow([OrderRead(Waiting)] + turns, n)
    ensures EndsTaken([OrderRead(Waiting)] + turns) <==> EndsTaken(turns)
  {
    var head := [OrderRead(Waiting)];
    var t := head + turns;
    forall k: nat | k < |t| && t[k].Turn? ensures TurnFollowed(t, k, n) {
      assert TurnFollowed(turns, k - 1, n);
      FollowedLater(head, turns, k - 1, n);
    }
    assert turns != [] ==> t[|t| - 1] == turns[|turns| - 1];
    forall e | e in turns ensures e in t {
    }
  }

  /** What handleOrder reports: nothing for a scheduled order; a failed search or an empty one at once; otherwise one more
      round, and a failure exactly if the candidates' contacts did not end with the order taken (or could not start) and the
      last read saw it Waiting or failed. */
  lemma HandleOrderReports(order: Order, env: HandleEnv)
    requires ValidEnv(env)
    ensures var t := HandleTrace(order, env);
            var found := order.orderType == Instant && env.candidates.Ok? && env.candidates.value != [];
            && (order.orderType == Scheduled ==> t == [])
            && (OrderFailed(FindError) in t <==> order.orderType == Instant && env.candidates.Err?)
            && (OrderFailed(NoCandidates) in t <==> order.orderType == Instant && env.candidates == Ok([]))
            && (RoundCounted in t <==> found)
            && (OrderFailed(NoAcceptance) in t <==>
                  && found && !(env.fcmReady && EndsTaken(SendFcmTrace(order, env.candidates.value, env).0))
                  && (env.finalRead.Err? || env.finalRead.value == Waiting))
  {
    FailsExactlyAfterAWaitingRead(order, env);
    if order.orderType == Instant && env.candidates.Ok? && env.candidates.value != [] {
      var candidates := env.candidates.value;
      SendFcmFollowsItsTurns(order, candidates, env);
      SendFcmFailsNothing(order, candidates, env);
      var (sent, result) := if env.fcmReady then SendFcmTrace(order, candidates, env) else ([], Err);
      var tail := ResultTrace(result, env.finalRead) + [RoundCounted];
      assert HandleTrace(order, env) == sent + tail;
      TailReports(result, env.finalRead);
    }
  }

  lemma TailReports(result: Result<bool>, finalRead: Result<OrderStatus>)
    ensures var tail := ResultTrace(result, finalRead) + [RoundCounted];
            && RoundCounted in tail
            && forall e | e in tail :: e != OrderFailed(FindError) && e != OrderFailed(NoCandidates)
  {
    var tail := ResultTrace(result, finalRead) + [RoundCounted];
    assert tail[|tail| - 1] == RoundCounted;
  }
}
