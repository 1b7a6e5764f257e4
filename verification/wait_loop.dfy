/** The select loop of waitForDriverResponseEventDriven (background/dispatcher.go). Its environment is the sequence of
    select cases that fire, with the time on the 19 s timer at which each does. Messages may be lost, repeated,
    reordered or forged: any sequence is allowed. */
module WaitLoop {
  import opened Model
  import opened Contact

  datatype ResponseAction = Accept | Reject | OtherResponse

  datatype OrderEventType = StatusChange | AcceptedEvent | FailedEvent | CompletedEvent | CancelledEvent

  datatype Response = Response(order: string, driver: string, action: ResponseAction)

  datatype DriverChange = DriverChange(driver: string, newStatus: DriverStatus)

  datatype OrderChange = OrderChange(order: string, newStatus: OrderStatus, eventType: OrderEventType)

  /** One case of the select; a message that does not parse is None. */
  datatype Cause =
    | TimerFired
    | ResponseMsg(response: Option<Response>)
    | DriverMsg(driverChange: Option<DriverChange>)
    | OrderMsg(orderChange: Option<OrderChange>)
    | StatusTick(read: Result<OrderStatus>)
    | ExtendTick(extended: bool)
    | ContextDone

  /** A case is selected at `at`, in milliseconds since the timer was set, and its handler is busy for `took`. */
  datatype Wake = Wake(at: nat, took: nat, cause: Cause)

  /** The timer case comes once, and last; no case is selected while a handler is busy. */
  ghost predicate ValidWakes(wakes: seq<Wake>) {
    && wakes != []
    && wakes[|wakes| - 1].cause == TimerFired
    && (forall i: nat | i < |wakes| - 1 :: wakes[i].cause != TimerFired)
    && (forall i: nat | i < |wakes| - 1 :: wakes[i].at + wakes[i].took <= wakes[i + 1].at)
  }

  // ----- How late a ready case can be served

  /** Handlers are busy for at most handlerMs; select draws among the ready cases, and a case that is ready loses at most
      lostDraws draws. */
  datatype Pace = Pace(handlerMs: nat, lostDraws: nat)

  function OverrunMs(pace: Pace): nat {
    (pace.lostDraws + 1) * pace.handlerMs
  }

  function Max(a: nat, b: nat): nat {
    if a <= b then b else a
  }

  /** Draws before case n that were held when something was ready since `ready`. */
  function DrawsSince(wakes: seq<Wake>, n: nat, ready: nat): nat
    requires n <= |wakes|
  {
    if n == 0 then 0 else DrawsSince(wakes, n - 1, ready) + if ready <= wakes[n - 1].at then 1 else 0
  }

  /** Case n was ready from `ready` on: until it is served the loop is never idle after that time. */
  ghost predicate ReadySince(wakes: seq<Wake>, n: nat, ready: nat, pace: Pace) {
    && n < |wakes|
    && wakes[0].at <= ready
    && (forall i: nat | i < n :: wakes[i + 1].at <= Max(wakes[i].at + wakes[i].took, ready))
    && DrawsSince(wakes, n, ready) <= pace.lostDraws
  }

  /** The timer is ready 19 s after it was set. */
  ghost predicate Paced(wakes: seq<Wake>, pace: Pace) {
    && wakes != []
    && (forall i: nat | i < |wakes| :: wakes[i].took <= pace.handlerMs)
    && ReadySince(wakes, |wakes| - 1, SEQUENTIAL_CALL_TIMEOUT_MS, pace)
  }

  lemma {:induction false} ServedAfterDraws(wakes: seq<Wake>, n: nat, ready: nat, pace: Pace)
    requires (forall i: nat | i < |wakes| :: wakes[i].took <= pace.handlerMs) && ReadySince(wakes, n, ready, pace)
    ensures wakes[n].at <= ready + (DrawsSince(wakes, n, ready) + 1) * pace.handlerMs
    decreases n
  {
    if n > 0 {
      ServedAfterDraws(wakes, n - 1, ready, pace);
      var d := DrawsSince(wakes, n - 1, ready);
      assert wakes[n - 1 + 1].at <= Max(wakes[n - 1].at + wakes[n - 1].took, ready);
      assert (d + 2) * pace.handlerMs == (d + 1) * pace.handlerMs + pace.handlerMs;
      Nonnegative(d, pace.handlerMs);
    }
  }

  lemma Nonnegative(a: nat, b: nat)
    ensures 0 <= a * b && b <= (a + 1) * b
  {
  }

  /** A ready case is served within one handler for each lost draw and one that was already running. */
  lemma ServedWithinOverrun(wakes: seq<Wake>, n: nat, ready: nat, pace: Pace)
    requires (forall i: nat | i < |wakes| :: wakes[i].took <= pace.handlerMs) && ReadySince(wakes, n, ready, pace)
    ensures wakes[n].at <= ready + OverrunMs(pace)
  {
    ServedAfterDraws(wakes, n, ready, pace);
    MoreDraws(DrawsSince(wakes, n, ready) + 1, pace.lostDraws + 1, pace.handlerMs);
  }

  lemma {:induction false} MoreDraws(a: nat, b: nat, h: nat)
    requires a <= b
    ensures a * h <= b * h
  {
    assert b * h == a * h + (b - a) * h;
    Nonnegative(b - a, h);
  }

  lemma {:induction false} TimesGrow(wakes: seq<Wake>, i: nat, j: nat)
    requires ValidWakes(wakes) && i <= j < |wakes|
    ensures wakes[i].at <= wakes[j].at
    decreases j
  {
    if i < j {
      TimesGrow(wakes, i, j - 1);
      assert wakes[j - 1].at + wakes[j - 1].took <= wakes[j - 1 + 1].at;
    }
  }

  /** The wait runs over the timer's 19 s by the overrun at most: by one handler if a ready timer is always drawn. */
  lemma WaitEndsInTime(order: string, driver: string, wakes: seq<Wake>, pace: Pace)
    requires ValidWakes(wakes) && Paced(wakes, pace)
    ensures wakes[StopIndex(order, driver, wakes)].at <= SEQUENTIAL_CALL_TIMEOUT_MS + OverrunMs(pace)
  {
    ServedWithinOverrun(wakes, |wakes| - 1, SEQUENTIAL_CALL_TIMEOUT_MS, pace);
    TimesGrow(wakes, StopIndex(order, driver, wakes), |wakes| - 1);
  }

  datatype Outcome = Outcome(accepted: bool, shouldContinue: bool, timedOut: bool)

  // ----- The independent reading: which cases end the wait for this order and driver, and how

  predicate Ends(order: string, driver: string, c: Cause) {
    match c
    case TimerFired => true
    case ResponseMsg(Some(r)) => r.order == order && (r.action == Accept || (r.action == Reject && r.driver == driver))
    case DriverMsg(Some(m)) => m.driver == driver && m.newStatus != Idle
    case OrderMsg(Some(m)) => m.order == order && m.newStatus != Waiting
    case StatusTick(Ok(status)) => status != Waiting
    case ExtendTick(extended) => !extended
    case ContextDone => true
    case _ => false
  }

  /** An order that is seen taken ends the dispatch as matched; one seen cancelled or failed, a lost lease and a
      closed context end it unmatched; silence, a reject and a driver gone busy move on to the next driver. */
  function OutcomeOf(c: Cause): Outcome {
    match c
    case TimerFired => Outcome(false, true, true)
    case ResponseMsg(Some(r)) => if r.action == Accept then Outcome(true, false, false) else Outcome(false, true, false)
    case DriverMsg(_) => Outcome(false, true, false)
    case OrderMsg(Some(m)) => Outcome(m.eventType == AcceptedEvent, false, false)
    case StatusTick(Ok(status)) => Outcome(status != Cancelled, false, false)
    case _ => Outcome(false, false, false)
  }

  /** What a case that was selected does to the outside world. */
  function Seen(c: Cause): seq<Event> {
    match c
    case StatusTick(Ok(status)) => [OrderRead(status)]
    case StatusTick(Err) => [OrderReadFailed]
    case ExtendTick(extended) => [if extended then LeaseExtended else LeaseLost]
    case _ => []
  }

  function SeenAll(wakes: seq<Wake>): seq<Event>
    decreases |wakes|
  {
    if wakes == [] then [] else SeenAll(wakes[..|wakes| - 1]) + Seen(wakes[|wakes| - 1].cause)
  }

  /** Position of the first case that ends the wait. */
  ghost predicate StopsAt(order: string, driver: string, wakes: seq<Wake>, n: nat) {
    && n < |wakes|
    && Ends(order, driver, wakes[n].cause)
    && forall i: nat | i < n :: !Ends(order, driver, wakes[i].cause)
  }

  function StopIndex(order: string, driver: string, wakes: seq<Wake>): (n: nat)
    requires ValidWakes(wakes)
    ensures StopsAt(order, driver, wakes, n)
  {
    FirstEnd(order, driver, wakes, 0)
  }

  function FirstEnd(order: string, driver: string, wakes: seq<Wake>, from: nat): (n: nat)
    requires from < |wakes| && wakes[|wakes| - 1].cause == TimerFired
    requires forall i: nat | i < from :: !Ends(order, driver, wakes[i].cause)
    ensures StopsAt(order, driver, wakes, n)
    decreases |wakes| - from
  {
    if Ends(order, driver, wakes[from].cause) then from else FirstEnd(order, driver, wakes, from + 1)
  }

  // ----- The loop

  /** The loop returns at the first ending case with that case's outcome, having waited until it was selected; it
      runs over the 19 s of the timer by no more than handlers and lost draws make it. */
  method WaitForDriverResponse(order: string, driver: string, wakes: seq<Wake>)
    returns (outcome: Outcome, seen: seq<Event>, waited: nat)
    requires ValidWakes(wakes)
    ensures var n := StopIndex(order, driver, wakes);
            && outcome == OutcomeOf(wakes[n].cause)
            && seen == SeenAll(wakes[..n + 1])
            && waited == wakes[n].at
    ensures forall pace | Paced(wakes, pace) :: waited <= SEQUENTIAL_CALL_TIMEOUT_MS + OverrunMs(pace)
    ensures !(outcome.accepted && outcome.shouldContinue)
    ensures var c := wakes[StopIndex(order, driver, wakes)].cause;
            && (outcome.timedOut <==> c == TimerFired)
            && (outcome.shouldContinue <==>
                  || c == TimerFired
                  || c == ResponseMsg(Some(Response(order, driver, Reject)))
                  || (c.DriverMsg? && c.driverChange.Some? && c.driverChange.value.driver == driver
                      && c.driverChange.value.newStatus != Idle))
            && (outcome.accepted <==>
                  || (c.ResponseMsg? && c.response.Some? && c.response.value.order == order && c.response.value.action == Accept)
                  || (c.OrderMsg? && c.orderChange.Some? && c.orderChange.value.order == order
                      && c.orderChange.value.newStatus != Waiting && c.orderChange.value.eventType == AcceptedEvent)
                  || (c.StatusTick? && c.read.Ok? && c.read.value != Waiting && c.read.value != Cancelled))
  {
    OutcomeMeans(order, driver, wakes);
    forall pace | Paced(wakes, pace)
      ensures wakes[StopIndex(order, driver, wakes)].at <= SEQUENTIAL_CALL_TIMEOUT_MS + OverrunMs(pace)
    {
      WaitEndsInTime(order, driver, wakes, pace);
    }
    var i := 0;
    seen := [];
    while true
      invariant i < |wakes|
      invariant forall k: nat | k < i :: !Ends(order, driver, wakes[k].cause)
      invariant seen == SeenAll(wakes[..i])
      decreases |wakes| - i
    {
      var wake := wakes[i];
      waited := wake.at;
      seen := seen + Seen(wake.cause);
      assert wakes[..i + 1][..i] == wakes[..i];
      OnlyStop(order, driver, wakes, i);
      match wake.cause {
        case TimerFired =>
          return Outcome(false, true, true), seen, waited;
        case ResponseMsg(msg) =>
          if msg.Some? && msg.value.order == order {
            if msg.value.action == Accept {
              return Outcome(true, false, false), seen, waited;
            } else if msg.value.action == Reject && msg.value.driver == driver {
              return Outcome(false, true, false), seen, waited;
            }
          }
        case DriverMsg(msg) =>
          if msg.Some? && msg.value.driver == driver && msg.value.newStatus != Idle {
            return Outcome(false, true, false), seen, waited;
          }
        case OrderMsg(msg) =>
          if msg.Some? && msg.value.order == order && msg.value.newStatus != Waiting {
            if msg.value.eventType == AcceptedEvent {
              return Outcome(true, false, false), seen, waited;
            } else {
              return Outcome(false, false, false), seen, waited;
            }
          }
        case StatusTick(read) =>
          if read.Ok? && read.value != Waiting {
            if read.value == Cancelled {
              return Outcome(false, false, false), seen, waited;
            }
            return Outcome(true, false, false), seen, waited;
          }
        case ExtendTick(extended) =>
          if !extended {
            return Outcome(false, false, false), seen, waited;
          }
        case ContextDone =>
          return Outcome(false, false, false), seen, waited;
      }
      i := i + 1;
    }
  }

  /** The first ending case is unique. */
  lemma OnlyStop(order: string, driver: string, wakes: seq<Wake>, i: nat)
    requires ValidWakes(wakes) && i < |wakes|
    requires forall k: nat | k < i :: !Ends(order, driver, wakes[k].cause)
    ensures Ends(order, driver, wakes[i].cause) <==> StopIndex(order, driver, wakes) == i
  {
    assert StopsAt(order, driver, wakes, StopIndex(order, driver, wakes));
  }

  /** What the outcome says about the case that ended the wait: go on to the next driver exactly after the timer, this
      driver's reject and this driver's change away from idle; the order is taken exactly after somebody's acceptance of
      it, an accepted event about it, and a tick that read it neither waiting nor cancelled. */
  lemma OutcomeMeans(order: string, driver: string, wakes: seq<Wake>)
    requires ValidWakes(wakes)
    ensures var c := wakes[StopIndex(order, driver, wakes)].cause;
            var outcome := OutcomeOf(c);
            && (outcome.timedOut <==> c == TimerFired)
            && (outcome.shouldContinue <==>
                  || c == TimerFired
                  || c == ResponseMsg(Some(Response(order, driver, Reject)))
                  || (c.DriverMsg? && c.driverChange.Some? && c.driverChange.value.driver == driver
                      && c.driverChange.value.newStatus != Idle))
            && (outcome.accepted <==>
                  || (c.ResponseMsg? && c.response.Some? && c.response.value.order == order && c.response.value.action == Accept)
                  || (c.OrderMsg? && c.orderChange.Some? && c.orderChange.value.order == order
                      && c.orderChange.value.newStatus != Waiting && c.orderChange.value.eventType == AcceptedEvent)
                  || (c.StatusTick? && c.read.Ok? && c.read.value != Waiting && c.read.value != Cancelled))
  {
    assert StopsAt(order, driver, wakes, StopIndex(order, driver, wakes));
  }

  /** The wait never goes past a case that settles it: an acceptance of the order by anybody, a reject or a change away from
      idle of this driver, news or a reading of the order out of Waiting, a renewal that failed, the end of the context. And
      it stops at nothing else. */
  lemma StopsExactlyWhenSettled(order: string, driver: string, wakes: seq<Wake>, i: nat)
    requires ValidWakes(wakes) && i <= StopIndex(order, driver, wakes)
    ensures var c := wakes[i].cause;
            i == StopIndex(order, driver, wakes) <==>
              || c == TimerFired || c == ContextDone || c == ExtendTick(false)
              || (exists d :: c == ResponseMsg(Some(Response(order, d, Accept))))
              || c == ResponseMsg(Some(Response(order, driver, Reject)))
              || (exists st | st != Idle :: c == DriverMsg(Some(DriverChange(driver, st))))
              || (exists st, kind | st != Waiting :: c == OrderMsg(Some(OrderChange(order, st, kind))))
              || (exists st | st != Waiting :: c == StatusTick(Ok(st)))
  {
    OnlyStop(order, driver, wakes, i);
    SettlingCause(order, driver, wakes[i].cause);
  }

  lemma SettlingCause(order: string, driver: string, c: Cause)
    ensures Ends(order, driver, c) <==>
              || c == TimerFired || c == ContextDone || c == ExtendTick(false)
              || (exists d :: c == ResponseMsg(Some(Response(order, d, Accept))))
              || c == ResponseMsg(Some(Response(order, driver, Reject)))
              || (exists st | st != Idle :: c == DriverMsg(Some(DriverChange(driver, st))))
              || (exists st, kind | st != Waiting :: c == OrderMsg(Some(OrderChange(order, st, kind))))
              || (exists st | st != Waiting :: c == StatusTick(Ok(st)))
  {
    match c
    case ResponseMsg(Some(r)) => assert c == ResponseMsg(Some(Response(r.order, r.driver, r.action)));
    case DriverMsg(Some(m)) => assert c == DriverMsg(Some(DriverChange(m.driver, m.newStatus)));
    case OrderMsg(Some(m)) => assert c == OrderMsg(Some(OrderChange(m.order, m.newStatus, m.eventType)));
    case _ =>
  }

  function Ticks(wakes: seq<Wake>, n: nat): nat
    requires n <= |wakes|
  {
    if n == 0 then 0 else Ticks(wakes, n - 1) + if IsTick(wakes[n - 1].cause) then 1 else 0
  }

  /** How a tick shows: what a status tick read, or that it failed; whether the lease was extended. */
  predicate ShownAs(c: Cause, e: Event) {
    && (c.StatusTick? ==> e == if c.read.Ok? then OrderRead(c.read.value) else OrderReadFailed)
    && (c.ExtendTick? ==> e == if c.extended then LeaseExtended else LeaseLost)
  }

  predicate IsTick(c: Cause) {
    c.StatusTick? || c.ExtendTick?
  }

  /** The trace of the wait is one event a tick, in the order of the ticks. */
  lemma {:induction false} EveryTickIsSeen(wakes: seq<Wake>)
    ensures |SeenAll(wakes)| == Ticks(wakes, |wakes|)
    ensures forall k: nat | k < |wakes| && IsTick(wakes[k].cause) ::
              Ticks(wakes, k) < |SeenAll(wakes)| && ShownAs(wakes[k].cause, SeenAll(wakes)[Ticks(wakes, k)])
    decreases |wakes|
  {
    if wakes != [] {
      var n := |wakes| - 1;
      EveryTickIsSeen(wakes[..n]);
      TicksOfPrefix(wakes, n, n);
      forall k: nat | k < |wakes| && IsTick(wakes[k].cause)
        ensures Ticks(wakes, k) < |SeenAll(wakes)| && ShownAs(wakes[k].cause, SeenAll(wakes)[Ticks(wakes, k)])
      {
        TicksOfPrefix(wakes, n, k);
        if k < n {
          assert wakes[..n][k] == wakes[k];
        }
      }
    }
  }

  lemma {:induction false} TicksOfPrefix(wakes: seq<Wake>, n: nat, k: nat)
    requires k <= n <= |wakes|
    ensures Ticks(wakes[..n], k) == Ticks(wakes, k)
  {
    if k > 0 {
      TicksOfPrefix(wakes, n, k - 1);
    }
  }

  // ----- Consequences a caller relies on

  /** The wait never ends on a response or a status message about another order, on another driver's reject, or
      on another driver's status. */
  lemma EndsOnlyOnOwnMessages(order: string, driver: string, wakes: seq<Wake>)
    requires ValidWakes(wakes)
    ensures var c := wakes[StopIndex(order, driver, wakes)].cause;
            && (c.ResponseMsg? ==> c.response.Some? && c.response.value.order == order)
            && (c.ResponseMsg? && c.response.value.action == Reject ==> c.response.value.driver == driver)
            && (c.OrderMsg? ==> c.orderChange.Some? && c.orderChange.value.order == order)
            && (c.DriverMsg? ==> c.driverChange.Some? && c.driverChange.value.driver == driver)
  {
    assert StopsAt(order, driver, wakes, StopIndex(order, driver, wakes));
  }

  /** A status tick is ready at every whole second and competes with the other cases from then on. (A tick that falls due
      while an earlier one is still waiting is dropped, and the earlier one serves for both.) */
  ghost predicate TicksEverySecond(wakes: seq<Wake>, pace: Pace) {
    forall s: nat | 1 <= s <= 18 ::
      exists n: nat :: StatusTickAfter(wakes, n, 1000 * s) && ReadySince(wakes, n, 1000 * s, pace)
  }

  predicate StatusTickAfter(wakes: seq<Wake>, n: nat, due: nat) {
    n < |wakes| && wakes[n].cause.StatusTick? && due <= wakes[n].at
  }

  /** Losing every message costs at most a second and the overrun of one tick: if the order is out of Waiting from time
      `left` on and reads succeed, the wait is over by then, however many messages are dropped, repeated or forged. */
  lemma LostMessagesCostASecond(order: string, driver: string, wakes: seq<Wake>, left: nat, pace: Pace)
    requires ValidWakes(wakes) && Paced(wakes, pace) && TicksEverySecond(wakes, pace)
    requires forall n: nat | n < |wakes| && wakes[n].cause.StatusTick? && left <= wakes[n].at ::
               wakes[n].cause.read.Ok? && wakes[n].cause.read.value != Waiting
    ensures wakes[StopIndex(order, driver, wakes)].at <= left + 1000 + OverrunMs(pace)
  {
    var stop := StopIndex(order, driver, wakes);
    if left <= 18000 {
      var s: nat := if left == 0 then 1 else (left + 999) / 1000;
      var n: nat :| StatusTickAfter(wakes, n, 1000 * s) && ReadySince(wakes, n, 1000 * s, pace);
      assert Ends(order, driver, wakes[n].cause);
      assert stop <= n;
      TimesGrow(wakes, stop, n);
      ServedWithinOverrun(wakes, n, 1000 * s, pace);
    } else {
      WaitEndsInTime(order, driver, wakes, pace);
    }
  }

  /** No order read inside the wait except the last event can have seen the order gone. */
  lemma {:induction false} SeenBeforeStopIsWaiting(order: string, driver: string, wakes: seq<Wake>)
    requires forall i: nat | i < |wakes| :: !Ends(order, driver, wakes[i].cause)
    ensures forall e | e in SeenAll(wakes) :: e == OrderRead(Waiting) || e == OrderReadFailed || e == LeaseExtended
    decreases |wakes|
  {
    if wakes != [] {
      SeenBeforeStopIsWaiting(order, driver, wakes[..|wakes| - 1]);
    }
  }

  /** Every event of the wait keeps the thread inside the wait. */
  lemma {:induction false} SeenStaysInWait(driver: string, wakes: seq<Wake>)
    ensures After(InWait(driver), SeenAll(wakes)) == Some(InWait(driver))
    decreases |wakes|
  {
    if wakes != [] {
      var n := |wakes| - 1;
      SeenStaysInWait(driver, wakes[..n]);
      AfterConcat(InWait(driver), SeenAll(wakes[..n]), Seen(wakes[n].cause));
      OneSeenStaysInWait(driver, wakes[n].cause);
    }
  }

  lemma OneSeenStaysInWait(driver: string, c: Cause)
    ensures After(InWait(driver), Seen(c)) == Some(InWait(driver))
  {
    var seen := Seen(c);
    if seen != [] {
      assert seen[1..] == [];
    }
  }

  lemma {:induction false} SeenEvents(wakes: seq<Wake>)
    ensures forall e | e in SeenAll(wakes) :: e.OrderRead? || e.OrderReadFailed? || e.LeaseExtended? || e.LeaseLost?
    decreases |wakes|
  {
    if wakes != [] {
      SeenEvents(wakes[..|wakes| - 1]);
    }
  }
}
