/** handleOrder, sendFcm, waitForDriverResponseEventDriven and handleDriverTimeout (background/dispatcher.go) as one
    dispatcher thread runs them for one order. Every method produces its trace and keeps, on every path, what is
    promised about leases, pushes, log entries and failed orders. */
module Dispatcher {
  import opened Model
  import opened Contact
  import opened WaitLoop
  import opened OrderLog
  import opened DispatchTraces
  import opened DispatchResults
  import opened DispatchContacts

  method HandleDriverTimeout(order: Order, driver: string, env: TimeoutEnv) returns (trace: seq<Event>)
    ensures trace == TimeoutTrace(order, driver, env)
    ensures OneTimeoutSection(trace, order, driver, env)
    ensures After(Ending(driver), trace) == Some(Ending(driver))
    ensures forall rounds | RoundIs(order, rounds) ::
              && (TimeoutLogged(driver, rounds) in trace <==> TimeoutDue(driver, rounds, env))
              && forall e | e in trace && e.TimeoutLogged? :: e == TimeoutLogged(driver, rounds)
  {
    forall rounds | RoundIs(order, rounds)
      ensures TimeoutLogged(driver, rounds) in TimeoutTrace(order, driver, env) <==> TimeoutDue(driver, rounds, env)
      ensures forall e | e in TimeoutTrace(order, driver, env) && e.TimeoutLogged? :: e == TimeoutLogged(driver, rounds)
    {
      TimeoutLoggedExactlyWhenDue(order, driver, env, rounds);
    }
    TimeoutIsOneSection(order, driver, env);
    TimeoutAccepted(order, driver, env);
    trace := [];
    var release := false;
    if env.rejectLock.Ok? {
      if !env.rejectLock.value {
        return;
      }
      trace := trace + [RejectLocked(driver)];
      release := true;
    }
    var currentRounds := 1;
    if order.rounds.Some? {
      currentRounds := order.rounds.value;
    }
    if env.status.Err? {
      trace := trace + [OrderReadFailed];
    } else {
      trace := trace + [OrderRead(env.status.value)];
      var allowed := ScanForTimeout(env.log, driver, currentRounds);
      if allowed {
        trace := trace + [TimeoutLogged(driver, currentRounds)];
      }
    }
    if release {
      trace := trace + [RejectUnlocked(driver)];
    }
  }

  method AwaitDriverResponse(order: Order, driver: string, env: ContactEnv)
    returns (accepted: bool, shouldContinue: bool, trace: seq<Event>, waited: nat)
    requires ValidWakes(env.wakes)
    ensures (trace, accepted, shouldContinue) == WaitTrace(order, driver, env)
    ensures waited == WaitMs(order, driver, env)
    ensures After(Holding(driver), trace) == Some(if env.orderLock == Ok(true) then Unlocked(driver) else Holding(driver))
    ensures waited == if OrderLocked in trace then env.wakes[StopIndex(order.id, driver, env.wakes)].at else 0
    ensures forall e | e in trace :: !e.Pushed? && !e.OrderFailed?
    ensures !(accepted && shouldContinue)
    ensures accepted <==> exists e | e in trace :: e.WaitEnded? && e.accepted
    ensures shouldContinue <==> forall e | e in trace :: !Stops(e)
    ensures WaitDoes(trace, order, driver, env)
    ensures forall pace | Paced(env.wakes, pace) :: waited <= SEQUENTIAL_CALL_TIMEOUT_MS + OverrunMs(pace)
  {
    WaitAccepted(order, driver, env);
    WaitPushesNothing(order, driver, env);
    WaitFailsNothing(order, driver, env);
    WaitEvents(order, driver, env);
    WaitDoesWhatItFinds(order, driver, env);
    trace, waited := [], 0;
    if env.orderLock.Err? {
      return false, true, trace, waited;
    }
    if !env.orderLock.value {
      return false, false, [OrderLockRefused], waited;
    }
    trace := [OrderLocked, TimerStarted];
    var outcome, seen;
    outcome, seen, waited := WaitForDriverResponse(order.id, driver, env.wakes);
    trace := trace + seen + [WaitEnded(outcome.accepted, outcome.shouldContinue)];
    var timeout: seq<Event> := [];
    if outcome.timedOut {
      timeout := HandleDriverTimeout(order, driver, env.timeout);
    }
    trace := trace + timeout + [OrderUnlocked];
    return outcome.accepted, outcome.shouldContinue, trace, waited;
  }

  /** One iteration of the loop of sendFcm; `continue` is NextDriver. */
  method ContactDriver(order: Order, c: Candidate, rank: nat, env: ContactEnv)
    returns (verdict: Verdict, trace: seq<Event>, waited: nat)
    requires ValidWakes(env.wakes)
    ensures (trace, verdict) == ContactTrace(order, c, rank, env)
    ensures waited == ContactMs(order, c, env)
    ensures After(Outside, trace) == Some(Outside)
    ensures AllPushesGuarded(trace)
    ensures forall k | 0 <= k < |trace| && trace[k].Pushed? ::
              k == 4 && trace[k] == Pushed(c.driver, c.durationMins + CompensationMins(rank))
    ensures waited == if OrderLocked in trace then env.wakes[StopIndex(order.id, c.driver, env.wakes)].at else 0
    ensures IsIteration(trace, rank) && IterationDoes(trace, order, c, rank, env)
    ensures verdict == NextDriver <==> GoesOn(trace)
    ensures verdict == Matched <==> FindsTaken(trace)
    ensures verdict == Aborted <==> trace[1] == OrderReadFailed
  {
    VerdictOfEvents(order, c, rank, env);
    ContactDoesWhatItFinds(order, c, rank, env);
    ContactAccepted(order, c, rank, env);
    ContactPushes(order, c, rank, env);
    waited := 0;
    if env.orderRead.Err? {
      return Aborted, [Turn(rank), OrderReadFailed], waited;
    }
    trace := [Turn(rank), OrderRead(env.orderRead.value)];
    if env.orderRead.value != Waiting {
      if env.orderRead.value == Cancelled {
        return Unmatched, trace, waited;
      }
      return Matched, trace, waited;
    }
    if c.fcmToken == "" {
      return NextDriver, trace, waited;
    }
    if env.driverLock.Err? || !env.driverLock.value {
      return NextDriver, trace, waited;
    }
    verdict, trace, waited := ContactLockedDriver(order, c, rank, env);
    assert [Turn(rank), OrderRead(Waiting), DriverLocked(c.driver)] + trace == ContactTrace(order, c, rank, env).0;
    trace := [Turn(rank), OrderRead(Waiting), DriverLocked(c.driver)] + trace;
  }

  /** The rest of the iteration, from the final driver check to the release of the notification lease. */
  method ContactLockedDriver(order: Order, c: Candidate, rank: nat, env: ContactEnv)
    returns (verdict: Verdict, trace: seq<Event>, waited: nat)
    requires ValidWakes(env.wakes)
    ensures (trace, verdict) == (HeldTrace(order, c, rank, env).0 + [DriverUnlocked(c.driver)], HeldTrace(order, c, rank, env).1)
    ensures waited == HeldMs(order, c.driver, env)
    ensures After(Holding(c.driver), trace) == Some(Outside)
    ensures verdict == NextDriver <==> forall e | e in trace :: !Stops(e)
    ensures verdict == Matched <==> exists e | e in trace :: e.WaitEnded? && e.accepted
    ensures verdict != Aborted && HeldDoes(trace, order, c, rank, env)
  {
    HeldReleases(order, c, rank, env);
    HeldEvents(order, c, rank, env);
    HeldDoesWhatItFinds(order, c, rank, env);
    LastRelease(HeldTrace(order, c, rank, env).0, c.driver);
    verdict, trace, waited := ContactFreeDriver(order, c, rank, env);
    trace := trace + [DriverUnlocked(c.driver)];
  }

  lemma LastRelease(held: seq<Event>, driver: string)
    ensures forall e: Event | !e.DriverUnlocked? :: e in held + [DriverUnlocked(driver)] <==> e in held
  {
  }

  method AwaitNext(order: Order, driver: string, env: ContactEnv)
    returns (accepted: bool, shouldContinue: bool, trace: seq<Event>, waited: nat)
    requires ValidWakes(env.wakes)
    ensures (trace, accepted, shouldContinue) == WaitTrace(order, driver, env) && waited == WaitMs(order, driver, env)
  {
    accepted, shouldContinue, trace, waited := AwaitDriverResponse(order, driver, env);
  }

  method ContactFreeDriver(order: Order, c: Candidate, rank: nat, env: ContactEnv)
    returns (verdict: Verdict, held: seq<Event>, waited: nat)
    requires ValidWakes(env.wakes)
    ensures (held, verdict) == HeldTrace(order, c, rank, env)
    ensures waited == HeldMs(order, c.driver, env)
  {
    var finalMins := c.durationMins + rank * SEQUENTIAL_CALL_TIMEOUT_SECS / 30;
    if env.driverRead.Err? {
      return NextDriver, [], 0;
    }
    held := [DriverRead(c.driver, env.driverRead.value)];
    if env.driverRead.value.status != Idle {
      return NextDriver, held, 0;
    }
    if env.driverRead.value.currentOrder.Some? && env.driverRead.value.currentOrder.value != "" {
      return NextDriver, held, 0;
    }
    if !env.pushOk {
      return NextDriver, held + [PushFailed(c.driver)], 0;
    }
    held := held + [Pushed(c.driver, finalMins)];
    var recorded := RecordPush(c.driver, env.recordRead);
    var accepted, shouldContinue, t;
    accepted, shouldContinue, t, waited := AwaitNext(order, c.driver, env);
    held := held + recorded + t;
    verdict := if accepted then Matched else if !shouldContinue then Unmatched else NextDriver;
  }

  /** The push is recorded for the driver's app only if the driver is still free. */
  method RecordPush(driver: string, read: Result<DriverView>) returns (recorded: seq<Event>)
    ensures recorded == RecordTrace(driver, read)
  {
    recorded := [];
    if read.Ok? {
      recorded := [DriverRead(driver, read.value)];
      if read.value.Free() {
        recorded := recorded + [NotifyRecorded(driver)];
      }
    }
  }

  lemma TotalWait(order: Order, candidates: seq<Candidate>, env: HandleEnv)
    requires ValidContacts(candidates, env.contacts)
    ensures forall pace | AllPaced(env.contacts, pace) ::
              0 <= (SEQUENTIAL_CALL_TIMEOUT_MS + OverrunMs(pace)) * |candidates|
              && SendMs(order, candidates, env.contacts, 0) <= (SEQUENTIAL_CALL_TIMEOUT_MS + OverrunMs(pace)) * |candidates|
  {
    forall pace | AllPaced(env.contacts, pace)
      ensures SendMs(order, candidates, env.contacts, 0) <= (SEQUENTIAL_CALL_TIMEOUT_MS + OverrunMs(pace)) * |candidates|
    {
      NineteenSecondsEach(order, candidates, env.contacts, 0, pace);
    }
  }

  /** The loop of sendFcm. */
  method ContactCandidates(order: Order, candidates: seq<Candidate>, envs: seq<ContactEnv>)
    returns (result: Result<bool>, trace: seq<Event>, waited: nat)
    requires ValidContacts(candidates, envs)
    ensures (trace, result) == SendTrace(order, candidates, envs, 0)
    ensures waited == SendMs(order, candidates, envs, 0)
    ensures PushesInOrder(trace, candidates, 0) && After(Outside, trace) == Some(Outside)
    ensures TurnsFrom(trace, 0, |candidates|)
    ensures (result == Ok(true) <==> EndsTaken(trace)) && (result.Err? <==> EndsUnread(trace))
    ensures waited == SumOfTurns(order, candidates, envs, trace, 0)
  {
    SendMsIsSumOfTurns(order, candidates, envs, 0);
    SendTurnsFollow(order, candidates, envs, 0);
    SendAnswersTaken(order, candidates, envs, 0);
    SendPushes(order, candidates, envs, 0);
    SendAccepted(order, candidates, envs, 0);
    result, trace, waited := ContactInTurn(order, candidates, envs);
  }

  method ContactNext(order: Order, c: Candidate, rank: nat, env: ContactEnv)
    returns (verdict: Verdict, trace: seq<Event>, waited: nat)
    requires ValidWakes(env.wakes)
    ensures (trace, verdict) == ContactTrace(order, c, rank, env) && waited == ContactMs(order, c, env)
  {
    verdict, trace, waited := ContactDriver(order, c, rank, env);
  }

  method ContactInTurn(order: Order, candidates: seq<Candidate>, envs: seq<ContactEnv>)
    returns (result: Result<bool>, trace: seq<Event>, waited: nat)
    requires ValidContacts(candidates, envs)
    ensures (trace, result) == SendTrace(order, candidates, envs, 0)
    ensures waited == SendMs(order, candidates, envs, 0)
  {
    trace, waited := [], 0;
    var i := 0;
    assert [] + SendTrace(order, candidates, envs, 0).0 == SendTrace(order, candidates, envs, 0).0;
    while i < |candidates|
      invariant i <= |candidates|
      invariant SendTrace(order, candidates, envs, 0)
                == (trace + SendTrace(order, candidates, envs, i).0, SendTrace(order, candidates, envs, i).1)
      invariant waited + SendMs(order, candidates, envs, i) == SendMs(order, candidates, envs, 0)
    {
      var verdict, t, w := ContactNext(order, candidates[i], i, envs[i]);
      ghost var rest := SendTrace(order, candidates, envs, i + 1).0;
      assert trace + (t + rest) == trace + t + rest;
      trace, waited := trace + t, waited + w;
      if verdict == Matched {
        return Ok(true), trace, waited;
      } else if verdict == Unmatched {
        return Ok(false), trace, waited;
      } else if verdict == Aborted {
        return Err, trace, waited;
      }
      i := i + 1;
    }
    assert trace + [] == trace;
    return Ok(false), trace, waited;
  }

  /** Candidates are contacted one after the other; the timed waits of the whole call add up to at most 19 s and one
      overrun a candidate. */
  method SendFcm(order: Order, candidates: seq<Candidate>, env: HandleEnv)
    returns (result: Result<bool>, trace: seq<Event>, waited: nat)
    requires ValidContacts(candidates, env.contacts)
    ensures (trace, result) == SendFcmTrace(order, candidates, env)
    ensures waited == (if env.initialRead == Ok(Waiting) then SendMs(order, candidates, env.contacts, 0) else 0)
    ensures forall pace | AllPaced(env.contacts, pace) ::
              waited <= (SEQUENTIAL_CALL_TIMEOUT_MS + OverrunMs(pace)) * |candidates|
    ensures AllPushesGuarded(trace) && (Distinct(candidates) ==> NoDriverTwice(trace))
    ensures After(Outside, trace) == Some(Outside)
    ensures TurnsFollow(trace, |candidates|) && (result == Ok(true) <==> EndsTaken(trace))
    ensures trace != [] && (trace[0] == OrderRead(Waiting) && candidates != [] <==> 1 < |trace| && trace[1] == Turn(0))
  {
    SendFcmFollowsItsTurns(order, candidates, env);
    TotalWait(order, candidates, env);
    SendFcmAccepted(order, candidates, env);
    SendFcmPushes(order, candidates, env);
    if env.initialRead.Err? {
      return Err, [OrderReadFailed], 0;
    }
    if env.initialRead.value != Waiting {
      return Ok(env.initialRead.value != Cancelled), [OrderRead(env.initialRead.value)], 0;
    }
    result, trace, waited := ContactCandidates(order, candidates, env.contacts);
    trace := [OrderRead(Waiting)] + trace;
  }

  lemma AllTurnsBeforeFailing(order: Order, env: HandleEnv)
    requires ValidEnv(env)
    ensures var t := HandleTrace(order, env);
            env.fcmReady && OrderFailed(NoAcceptance) in t && (forall e | e in t :: Undisturbed(e)) ==>
              env.candidates.Ok? && forall m: nat | m < |env.candidates.value| :: Turn(m) in t
  {
    if env.fcmReady && OrderFailed(NoAcceptance) in HandleTrace(order, env)
       && forall e | e in HandleTrace(order, env) :: Undisturbed(e)
    {
      forall m: nat
        ensures env.candidates.Ok? && (m < |env.candidates.value| ==> Turn(m) in HandleTrace(order, env))
      {
        FailsOnlyAfterAllTurns(order, env, m);
      }
    }
  }

  method HandleOrder(order: Order, env: HandleEnv) returns (trace: seq<Event>)
    requires ValidEnv(env)
    ensures trace == HandleTrace(order, env)
    ensures After(Outside, trace) == Some(Outside)
    ensures AllPushesGuarded(trace) && FailsOnlyAfterReads(trace)
    ensures env.candidates.Ok? && Distinct(env.candidates.value) ==> NoDriverTwice(trace)
    ensures env.fcmReady && OrderFailed(NoAcceptance) in trace && (forall e | e in trace :: Undisturbed(e)) ==>
              env.candidates.Ok? && forall m: nat | m < |env.candidates.value| :: Turn(m) in trace
  {
    AllTurnsBeforeFailing(order, env);
    HandleOrderReleasesWhatItTakes(order, env);
    EveryPushIsGuarded(order, env);
    FailsExactlyAfterAWaitingRead(order, env);
    trace := DispatchOrder(order, env);
  }

  method DispatchOrder(order: Order, env: HandleEnv) returns (trace: seq<Event>)
    requires ValidEnv(env)
    ensures trace == HandleTrace(order, env)
  {
    trace := [];
    if order.orderType == Scheduled {
      return;
    }
    if env.candidates.Err? {
      return [OrderFailed(FindError)];
    }
    var candidates := env.candidates.value;
    if |candidates| == 0 {
      return [OrderFailed(NoCandidates)];
    }
    var result: Result<bool>, waited := Err, 0;
    if env.fcmReady {
      result, trace, waited := SendFcm(order, candidates, env);
    }
    var report := ReportResult(result, env.finalRead);
    trace := trace + report + [RoundCounted];
  }

  method ReportResult(result: Result<bool>, finalRead: Result<OrderStatus>) returns (report: seq<Event>)
    ensures report == ResultTrace(result, finalRead)
  {
    report := [];
    var orderMatched := result.Ok? && result.value;
    if !orderMatched {
      if finalRead.Ok? {
        report := report + [OrderRead(finalRead.value)];
      } else {
        report := report + [OrderReadFailed];
      }
      if !(finalRead.Ok? && finalRead.value != Waiting) {
        report := report + [OrderFailed(NoAcceptance)];
      }
    }
  }
}
