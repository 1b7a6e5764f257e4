/** What one dispatcher thread does for one order, as a function of what it is told: the environment supplies the answer of
    every call of handleOrder, sendFcm, waitForDriverResponseEventDriven and handleDriverTimeout
    (background/dispatcher.go), and the thread's effects are a trace. */
module DispatchTraces {
  import opened Model
  import opened Contact
  import opened WaitLoop
  import opened OrderLog

  datatype Order = Order(id: string, orderType: OrderType, rounds: Option<int>)

  datatype Candidate = Candidate(driver: string, fcmToken: string, durationMins: int)

  datatype TimeoutEnv = TimeoutEnv(rejectLock: Result<bool>, status: Result<OrderStatus>, log: seq<LogEntry>)

  /** The answers one candidate's iteration may ask for, in the order it asks. */
  datatype ContactEnv = ContactEnv(
    orderRead: Result<OrderStatus>,
    driverLock: Result<bool>,
    driverRead: Result<DriverView>,
    pushOk: bool,
    recordRead: Result<DriverView>,
    orderLock: Result<bool>,
    wakes: seq<Wake>,
    timeout: TimeoutEnv)

  datatype HandleEnv = HandleEnv(
    candidates: Result<seq<Candidate>>,
    fcmReady: bool,
    initialRead: Result<OrderStatus>,
    contacts: seq<ContactEnv>,
    finalRead: Result<OrderStatus>)

  ghost predicate ValidContacts(candidates: seq<Candidate>, envs: seq<ContactEnv>) {
    |envs| == |candidates| && forall i | 0 <= i < |envs| :: ValidWakes(envs[i].wakes)
  }

  ghost predicate ValidEnv(env: HandleEnv) {
    env.candidates.Ok? ==> ValidContacts(env.candidates.value, env.contacts)
  }

  /** How an iteration of sendFcm ends: return (true, nil), continue, break or return (false, nil), or
      return (false, err). */
  datatype Verdict = Matched | NextDriver | Unmatched | Aborted

  // ----- Specification: the trace as a function of the environment

  function CurrentRounds(order: Order): int {
    match order.rounds case None => 1 case Some(n) => n
  }

  /** Every 30 s of accumulated waiting add one minute to the promised pickup time. */
  function CompensationMins(rank: nat): nat {
    rank * SEQUENTIAL_CALL_TIMEOUT_SECS / 30
  }

  function TimeoutTrace(order: Order, driver: string, env: TimeoutEnv): seq<Event> {
    if env.rejectLock == Ok(false) then []
    else
      var locked := env.rejectLock.Ok?;
      (if locked then [RejectLocked(driver)] else [])
      + (match env.status
         case Err => [OrderReadFailed]
         case Ok(status) =>
           [OrderRead(status)]
           + if TimeoutAllowed(env.log, driver, CurrentRounds(order)) then [TimeoutLogged(driver, CurrentRounds(order))]
             else [])
      + if locked then [RejectUnlocked(driver)] else []
  }

  function WaitTrace(order: Order, driver: string, env: ContactEnv): (seq<Event>, bool, bool)
    requires ValidWakes(env.wakes)
  {
    match env.orderLock
    case Err => ([], false, true)
    case Ok(false) => ([OrderLockRefused], false, false)
    case Ok(true) =>
      var n := StopIndex(order.id, driver, env.wakes);
      var outcome := OutcomeOf(env.wakes[n].cause);
      ([OrderLocked, TimerStarted] + SeenAll(env.wakes[..n + 1])
       + [WaitEnded(outcome.accepted, outcome.shouldContinue)]
       + (if outcome.timedOut then TimeoutTrace(order, driver, env.timeout) else [])
       + [OrderUnlocked],
       outcome.accepted, outcome.shouldContinue)
  }

  function ContactTrace(order: Order, c: Candidate, rank: nat, env: ContactEnv): (seq<Event>, Verdict)
    requires ValidWakes(env.wakes)
  {
    match env.orderRead
    case Err => ([Turn(rank), OrderReadFailed], Aborted)
    case Ok(status) =>
      if status != Waiting then ([Turn(rank), OrderRead(status)], if status == Cancelled then Unmatched else Matched)
      else if c.fcmToken == "" || env.driverLock != Ok(true) then ([Turn(rank), OrderRead(Waiting)], NextDriver)
      else
        var (held, verdict) := HeldTrace(order, c, rank, env);
        ([Turn(rank), OrderRead(Waiting), DriverLocked(c.driver)] + held + [DriverUnlocked(c.driver)], verdict)
  }

  /** The part of an iteration that runs with the driver's notification lease held. */
  function HeldTrace(order: Order, c: Candidate, rank: nat, env: ContactEnv): (seq<Event>, Verdict)
    requires ValidWakes(env.wakes)
  {
    match env.driverRead
    case Err => ([], NextDriver)
    case Ok(view) =>
      var read := [DriverRead(c.driver, view)];
      if !view.Free() then (read, NextDriver)
      else if !env.pushOk then (read + [PushFailed(c.driver)], NextDriver)
      else
        var pushed := read + [Pushed(c.driver, c.durationMins + CompensationMins(rank))];
        var recorded := RecordTrace(c.driver, env.recordRead);
        var (waited, accepted, shouldContinue) := WaitTrace(order, c.driver, env);
        (pushed + recorded + waited,
         if accepted then Matched else if shouldContinue then NextDriver else Unmatched)
  }

  function RecordTrace(driver: string, read: Result<DriverView>): seq<Event> {
    match read
    case Err => []
    case Ok(view) => [DriverRead(driver, view)] + if view.Free() then [NotifyRecorded(driver)] else []
  }

  /** Candidates from position i on, one after the other. */
  function SendTrace(order: Order, candidates: seq<Candidate>, envs: seq<ContactEnv>, i: nat): (seq<Event>, Result<bool>)
    requires ValidContacts(candidates, envs) && i <= |candidates|
    decreases |candidates| - i
  {
    if i == |candidates| then ([], Ok(false))
    else
      var (t, verdict) := ContactTrace(order, candidates[i], i, envs[i]);
      match verdict
      case Matched => (t, Ok(true))
      case Unmatched => (t, Ok(false))
      case Aborted => (t, Err)
      case NextDriver =>
        var (rest, result) := SendTrace(order, candidates, envs, i + 1);
        (t + rest, result)
  }

  function SendFcmTrace(order: Order, candidates: seq<Candidate>, env: HandleEnv): (seq<Event>, Result<bool>)
    requires ValidContacts(candidates, env.contacts)
  {
    match env.initialRead
    case Err => ([OrderReadFailed], Err)
    case Ok(status) =>
      if status == Waiting then
        var (t, result) := SendTrace(order, candidates, env.contacts, 0);
        ([OrderRead(Waiting)] + t, result)
      else ([OrderRead(status)], Ok(status != Cancelled))
  }

  /** The dispatch result and what handleOrder makes of it: a failed or unmatched dispatch reads the order once
      more, and only an order still Waiting (or unreadable) is failed. */
  function ResultTrace(result: Result<bool>, finalRead: Result<OrderStatus>): seq<Event> {
    if result == Ok(true) then []
    else match finalRead
      case Err => [OrderReadFailed, OrderFailed(NoAcceptance)]
      case Ok(status) => [OrderRead(status)] + if status == Waiting then [OrderFailed(NoAcceptance)] else []
  }

  function HandleTrace(order: Order, env: HandleEnv): seq<Event>
    requires ValidEnv(env)
  {
    if order.orderType == Scheduled then []
    else match env.candidates
      case Err => [OrderFailed(FindError)]
      case Ok(candidates) =>
        if candidates == [] then [OrderFailed(NoCandidates)]
        else
          var (t, result) := if env.fcmReady then SendFcmTrace(order, candidates, env) else ([], Err);
          t + ResultTrace(result, env.finalRead) + [RoundCounted]
  }

  // ----- Time spent in timed waits

  function WaitMs(order: Order, driver: string, env: ContactEnv): nat
    requires ValidWakes(env.wakes)
  {
    if env.orderLock == Ok(true) then env.wakes[StopIndex(order.id, driver, env.wakes)].at else 0
  }

  function HeldMs(order: Order, driver: string, env: ContactEnv): nat
    requires ValidWakes(env.wakes)
  {
    if env.driverRead.Ok? && env.driverRead.value.Free() && env.pushOk then WaitMs(order, driver, env) else 0
  }

  function ContactMs(order: Order, c: Candidate, env: ContactEnv): nat
    requires ValidWakes(env.wakes)
  {
    if env.orderRead == Ok(Waiting) && c.fcmToken != "" && env.driverLock == Ok(true) then HeldMs(order, c.driver, env) else 0
  }

  function SendMs(order: Order, candidates: seq<Candidate>, envs: seq<ContactEnv>, i: nat): nat
    requires ValidContacts(candidates, envs) && i <= |candidates|
    decreases |candidates| - i
  {
    if i == |candidates| then 0
    else
      ContactMs(order, candidates[i], envs[i])
      + if ContactTrace(order, candidates[i], i, envs[i]).1.NextDriver? then SendMs(order, candidates, envs, i + 1) else 0
  }

  lemma OneContactMs(order: Order, c: Candidate, env: ContactEnv, pace: Pace)
    requires ValidWakes(env.wakes) && Paced(env.wakes, pace)
    ensures ContactMs(order, c, env) <= SEQUENTIAL_CALL_TIMEOUT_MS + OverrunMs(pace)
  {
    WaitEndsInTime(order.id, c.driver, env.wakes, pace);
  }

  ghost predicate AllPaced(envs: seq<ContactEnv>, pace: Pace) {
    forall i | 0 <= i < |envs| :: Paced(envs[i].wakes, pace)
  }

  lemma {:induction false} TurnsOfOwnRank(order: Order, candidates: seq<Candidate>, envs: seq<ContactEnv>, i: nat, j: nat)
    requires ValidContacts(candidates, envs) && j < i <= |candidates|
    ensures Turn(j) !in SendTrace(order, candidates, envs, i).0
    decreases |candidates| - i
  {
    if i < |candidates| {
      OneTurn(order, candidates[i], i, envs[i]);
      TurnsOfOwnRank(order, candidates, envs, i + 1, j);
    }
  }

  lemma WaitTakesNoTurn(order: Order, driver: string, env: ContactEnv)
    requires ValidWakes(env.wakes)
    ensures forall e | e in WaitTrace(order, driver, env).0 :: !e.Turn?
  {
    if env.orderLock == Ok(true) {
      SeenEvents(env.wakes[..StopIndex(order.id, driver, env.wakes) + 1]);
    }
  }

  lemma OneTurn(order: Order, c: Candidate, rank: nat, env: ContactEnv)
    requires ValidWakes(env.wakes)
    ensures Turn(rank) in ContactTrace(order, c, rank, env).0
    ensures forall e | e in ContactTrace(order, c, rank, env).0 && e.Turn? :: e == Turn(rank)
  {
    assert ContactTrace(order, c, rank, env).0[0] == Turn(rank);
    WaitTakesNoTurn(order, c.driver, env);
    assert forall e | e in HeldTrace(order, c, rank, env).0 :: !e.Turn?;
  }

  function SumOfTurns(order: Order, candidates: seq<Candidate>, envs: seq<ContactEnv>, t: seq<Event>, i: nat): nat
    requires ValidContacts(candidates, envs) && i <= |candidates|
    decreases |candidates| - i
  {
    if i == |candidates| then 0
    else (if Turn(i) in t then ContactMs(order, candidates[i], envs[i]) else 0)
         + SumOfTurns(order, candidates, envs, t, i + 1)
  }

  /** The time of the whole call is the sum of the waits of the candidates that had their turn. */
  lemma {:induction false} SendMsIsSumOfTurns(order: Order, candidates: seq<Candidate>, envs: seq<ContactEnv>, i: nat)
    requires ValidContacts(candidates, envs) && i <= |candidates|
    ensures SendMs(order, candidates, envs, i)
            == SumOfTurns(order, candidates, envs, SendTrace(order, candidates, envs, i).0, i)
    decreases |candidates| - i
  {
    if i < |candidates| {
      OneTurn(order, candidates[i], i, envs[i]);
      var t := SendTrace(order, candidates, envs, i).0;
      if ContactTrace(order, candidates[i], i, envs[i]).1.NextDriver? {
        SendMsIsSumOfTurns(order, candidates, envs, i + 1);
        SameTurns(order, candidates, envs, t, SendTrace(order, candidates, envs, i + 1).0, i + 1);
      } else {
        SameTurns(order, candidates, envs, t, [], i + 1);
        NoTurnNoTime(order, candidates, envs, i + 1);
      }
    }
  }

  lemma {:induction false} NoTurnNoTime(order: Order, candidates: seq<Candidate>, envs: seq<ContactEnv>, i: nat)
    requires ValidContacts(candidates, envs) && i <= |candidates|
    ensures SumOfTurns(order, candidates, envs, [], i) == 0
    decreases |candidates| - i
  {
    if i < |candidates| {
      NoTurnNoTime(order, candidates, envs, i + 1);
    }
  }

  lemma {:induction false} SameTurns(order: Order, candidates: seq<Candidate>, envs: seq<ContactEnv>, t: seq<Event>,
                                     u: seq<Event>, i: nat)
    requires ValidContacts(candidates, envs) && i <= |candidates|
    requires forall j: nat | i <= j :: Turn(j) in t <==> Turn(j) in u
    ensures SumOfTurns(order, candidates, envs, t, i) == SumOfTurns(order, candidates, envs, u, i)
    decreases |candidates| - i
  {
    if i < |candidates| {
      SameTurns(order, candidates, envs, t, u, i + 1);
    }
  }

  /** The timed waits of n contacts add up to at most n times 19 s and one overrun. */
  lemma {:induction false} NineteenSecondsEach(order: Order, candidates: seq<Candidate>, envs: seq<ContactEnv>, i: nat,
                                               pace: Pace)
    requires ValidContacts(candidates, envs) && i <= |candidates| && AllPaced(envs, pace)
    ensures SendMs(order, candidates, envs, i) <= (SEQUENTIAL_CALL_TIMEOUT_MS + OverrunMs(pace)) * (|candidates| - i)
    decreases |candidates| - i
  {
    var each := SEQUENTIAL_CALL_TIMEOUT_MS + OverrunMs(pace);
    if i < |candidates| {
      assert Paced(envs[i].wakes, pace);
      OneContactMs(order, candidates[i], envs[i], pace);
      NineteenSecondsEach(order, candidates, envs, i + 1, pace);
      assert each * (|candidates| - i) == each + each * (|candidates| - i - 1);
    } else {
      assert each * (|candidates| - i) == 0;
    }
  }
}
