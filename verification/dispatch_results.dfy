/** What holds of every trace of handleOrder, for every environment. */
module DispatchResults {
  import opened Model
  import opened Contact
  import opened WaitLoop
  import opened OrderLog
  import opened DispatchTraces

  // ----- Leases: the trace follows the contact automaton

  lemma TimeoutAccepted(order: Order, driver: string, env: TimeoutEnv)
    ensures After(Ending(driver), TimeoutTrace(order, driver, env)) == Some(Ending(driver))
  {
    var t := TimeoutTrace(order, driver, env);
    assert |t| <= 4;
    var p := Ending(driver);
    if |t| > 0 {
      assert Advance(p, t[0]) == Some(p);
      StepStays(p, t);
    }
  }

  /** A trace none of whose events changes the phase leaves it where it was. */
  lemma {:induction false} StepStays(p: Phase, t: seq<Event>)
    requires forall i | 0 <= i < |t| :: Advance(p, t[i]) == Some(p)
    ensures After(p, t) == Some(p)
    decreases |t|
  {
    if t != [] {
      StepStays(p, t[1..]);
    }
  }

  lemma OneEvent(p: Phase, e: Event)
    ensures After(p, [e]) == Advance(p, e)
  {
    assert [e][1..] == [];
  }

  lemma Chain(p: Phase, t: seq<Event>, q: Phase, u: seq<Event>, r: Phase)
    requires After(p, t) == Some(q) && After(q, u) == Some(r)
    ensures After(p, t + u) == Some(r)
  {
    AfterConcat(p, t, u);
  }

  /** The timeout handler is one section: it logs at most one entry, exactly when the scan allows it, between taking and
      giving back the reject lock if it got that lock; it does nothing if the lock is someone else's. */
  ghost predicate OneTimeoutSection(t: seq<Event>, order: Order, driver: string, env: TimeoutEnv) {
    && (env.rejectLock == Ok(false) ==> t == [])
    && (env.rejectLock == Ok(true) ==> 2 <= |t| && t[0] == RejectLocked(driver) && t[|t| - 1] == RejectUnlocked(driver))
    && (forall k | 0 <= k < |t| && (t[k].RejectLocked? || t[k].RejectUnlocked?) ::
          env.rejectLock == Ok(true) && (k == 0 || k == |t| - 1))
    && (forall j, k | 0 <= j < |t| && 0 <= k < |t| && t[j].TimeoutLogged? && t[k].TimeoutLogged? :: j == k)
    && (forall e | e in t && e.TimeoutLogged? :: e == TimeoutLogged(driver, CurrentRounds(order)))
    && (TimeoutLogged(driver, CurrentRounds(order)) in t
        <==> env.rejectLock != Ok(false) && env.status.Ok? && TimeoutAllowed(env.log, driver, CurrentRounds(order)))
  }

  lemma TimeoutIsOneSection(order: Order, driver: string, env: TimeoutEnv)
    ensures OneTimeoutSection(TimeoutTrace(order, driver, env), order, driver, env)
  {
    var t := TimeoutTrace(order, driver, env);
    var logged := TimeoutLogged(driver, CurrentRounds(order));
    var allowed := env.status.Ok? && TimeoutAllowed(env.log, driver, CurrentRounds(order));
    var read := if env.status.Ok? then OrderRead(env.status.value) else OrderReadFailed;
    var inner := [read] + if allowed then [logged] else [];
    assert forall k | 0 <= k < |inner| :: !inner[k].RejectLocked? && !inner[k].RejectUnlocked?;
    assert logged in inner <==> allowed;
    if env.rejectLock.Err? {
      assert t == inner;
    } else if env.rejectLock.value {
      assert t == [RejectLocked(driver)] + inner + [RejectUnlocked(driver)];
      assert forall k | 0 < k < |t| - 1 :: t[k] == inner[k - 1];
    } else {
      assert env.rejectLock == Ok(false) && t == [];
    }
  }

  lemma WaitAccepted(order: Order, driver: string, env: ContactEnv)
    requires ValidWakes(env.wakes)
    ensures After(Holding(driver), WaitTrace(order, driver, env).0)
            == Some(if env.orderLock == Ok(true) then Unlocked(driver) else Holding(driver))
  {
    if env.orderLock == Ok(true) {
      var n := StopIndex(order.id, driver, env.wakes);
      var outcome := OutcomeOf(env.wakes[n].cause);
      var timeout := if outcome.timedOut then TimeoutTrace(order, driver, env.timeout) else [];
      TimeoutAccepted(order, driver, env.timeout);
      LockedWaitAccepted(driver, env.wakes[..n + 1], outcome, timeout);
    }
  }

  lemma WaitBegins(driver: string, wakes: seq<Wake>)
    ensures After(Holding(driver), [OrderLocked, TimerStarted] + SeenAll(wakes)) == Some(InWait(driver))
  {
    var p := Holding(driver);
    OneEvent(p, OrderLocked);
    OneEvent(Armed(driver), TimerStarted);
    Chain(p, [OrderLocked], Armed(driver), [TimerStarted], InWait(driver));
    assert [OrderLocked] + [TimerStarted] == [OrderLocked, TimerStarted];
    SeenStaysInWait(driver, wakes);
    Chain(p, [OrderLocked, TimerStarted], InWait(driver), SeenAll(wakes), InWait(driver));
  }

  lemma LockedWaitAccepted(driver: string, wakes: seq<Wake>, outcome: Outcome, timeout: seq<Event>)
    requires After(Ending(driver), timeout) == Some(Ending(driver))
    ensures After(Holding(driver), [OrderLocked, TimerStarted] + SeenAll(wakes)
                                   + [WaitEnded(outcome.accepted, outcome.shouldContinue)] + timeout + [OrderUnlocked])
            == Some(Unlocked(driver))
  {
    var p := Holding(driver);
    var ended := WaitEnded(outcome.accepted, outcome.shouldContinue);
    var t := [OrderLocked, TimerStarted] + SeenAll(wakes);
    WaitBegins(driver, wakes);
    OneEvent(InWait(driver), ended);
    Chain(p, t, InWait(driver), [ended], Ending(driver));
    Chain(p, t + [ended], Ending(driver), timeout, Ending(driver));
    OneEvent(Ending(driver), OrderUnlocked);
    Chain(p, t + [ended] + timeout, Ending(driver), [OrderUnlocked], Unlocked(driver));
  }

  lemma HeldAccepted(order: Order, c: Candidate, rank: nat, env: ContactEnv)
    requires ValidWakes(env.wakes)
    ensures var p := After(Holding(c.driver), HeldTrace(order, c, rank, env).0);
            p == Some(Holding(c.driver)) || p == Some(Unlocked(c.driver))
  {
    var p := Holding(c.driver);
    match env.driverRead
    case Err =>
    case Ok(view) =>
      var read := [DriverRead(c.driver, view)];
      if !view.Free() || !env.pushOk {
        StepStays(p, HeldTrace(order, c, rank, env).0);
      } else {
        var pushed := read + [Pushed(c.driver, c.durationMins + CompensationMins(rank))];
        var recorded := RecordTrace(c.driver, env.recordRead);
        StepStays(p, pushed + recorded);
        WaitAccepted(order, c.driver, env);
        AfterConcat(p, pushed + recorded, WaitTrace(order, c.driver, env).0);
      }
  }

  /** On every path out of the part under the driver's lease, the release ends the contact. */
  lemma HeldReleases(order: Order, c: Candidate, rank: nat, env: ContactEnv)
    requires ValidWakes(env.wakes)
    ensures After(Holding(c.driver), HeldTrace(order, c, rank, env).0 + [DriverUnlocked(c.driver)]) == Some(Outside)
  {
    HeldAccepted(order, c, rank, env);
    OneEvent(Holding(c.driver), DriverUnlocked(c.driver));
    OneEvent(Unlocked(c.driver), DriverUnlocked(c.driver));
    AfterConcat(Holding(c.driver), HeldTrace(order, c, rank, env).0, [DriverUnlocked(c.driver)]);
  }

  lemma ContactAccepted(order: Order, c: Candidate, rank: nat, env: ContactEnv)
    requires ValidWakes(env.wakes)
    ensures After(Outside, ContactTrace(order, c, rank, env).0) == Some(Outside)
  {
    var t := ContactTrace(order, c, rank, env).0;
    if |t| == 2 {
      StepStays(Outside, t);
    } else {
      var held := HeldTrace(order, c, rank, env).0;
      var enter := [Turn(rank), OrderRead(Waiting), DriverLocked(c.driver)];
      assert enter == [Turn(rank), OrderRead(Waiting)] + [DriverLocked(c.driver)];
      StepStays(Outside, [Turn(rank), OrderRead(Waiting)]);
      OneEvent(Outside, DriverLocked(c.driver));
      AfterConcat(Outside, [Turn(rank), OrderRead(Waiting)], [DriverLocked(c.driver)]);
      HeldReleases(order, c, rank, env);
      AfterConcat(Outside, enter, held + [DriverUnlocked(c.driver)]);
      assert enter + (held + [DriverUnlocked(c.driver)]) == t;
    }
  }

  lemma {:induction false} SendAccepted(order: Order, candidates: seq<Candidate>, envs: seq<ContactEnv>, i: nat)
    requires ValidContacts(candidates, envs) && i <= |candidates|
    ensures After(Outside, SendTrace(order, candidates, envs, i).0) == Some(Outside)
    decreases |candidates| - i
  {
    if i < |candidates| {
      var (t, verdict) := ContactTrace(order, candidates[i], i, envs[i]);
      ContactAccepted(order, candidates[i], i, envs[i]);
      if verdict == NextDriver {
        SendAccepted(order, candidates, envs, i + 1);
        AfterConcat(Outside, t, SendTrace(order, candidates, envs, i + 1).0);
      }
    }
  }

  lemma SendFcmAccepted(order: Order, candidates: seq<Candidate>, env: HandleEnv)
    requires ValidContacts(candidates, env.contacts)
    ensures After(Outside, SendFcmTrace(order, candidates, env).0) == Some(Outside)
  {
    var t := SendFcmTrace(order, candidates, env).0;
    if env.initialRead == Ok(Waiting) {
      SendAccepted(order, candidates, env.contacts, 0);
      OneEvent(Outside, OrderRead(Waiting));
      AfterConcat(Outside, [OrderRead(Waiting)], SendTrace(order, candidates, env.contacts, 0).0);
    } else {
      OneEvent(Outside, t[0]);
    }
  }

  /** Every run of handleOrder follows the automaton and ends holding nothing: each lease it takes it gives back
      exactly once, and it gives back nothing else (Contact.LocksAlternate reads that off an accepted trace). */
  lemma HandleOrderReleasesWhatItTakes(order: Order, env: HandleEnv)
    requires ValidEnv(env)
    ensures After(Outside, HandleTrace(order, env)) == Some(Outside)
  {
    if order.orderType == Instant && env.candidates.Ok? && env.candidates.value != [] {
      var candidates := env.candidates.value;
      var (t, result) := if env.fcmReady then SendFcmTrace(order, candidates, env) else ([], Err);
      assert After(Outside, t) == Some(Outside) by {
        if env.fcmReady {
          SendFcmAccepted(order, candidates, env);
        }
      }
      var tail := ResultTrace(result, env.finalRead) + [RoundCounted];
      StepStays(Outside, tail);
      AfterConcat(Outside, t, tail);
      assert HandleTrace(order, env) == t + tail;
    } else {
      StepStays(Outside, HandleTrace(order, env));
    }
  }

  // ----- Pushes: what every push follows, to whom, and with which promise

  /** The three events right before a push: the order read as Waiting, the driver's lease taken, the driver read
      as free, all in the same iteration. */
  ghost predicate PushGuarded(t: seq<Event>, k: nat)
    requires k < |t| && t[k].Pushed?
  {
    && 3 <= k
    && t[k - 3] == OrderRead(Waiting)
    && t[k - 2] == DriverLocked(t[k].driver)
    && t[k - 1].DriverRead? && t[k - 1].driver == t[k].driver && t[k - 1].view.Free()
  }

  ghost predicate AllPushesGuarded(t: seq<Event>) {
    forall k: nat | k < |t| && t[k].Pushed? :: PushGuarded(t, k)
  }

  lemma GuardedConcat(t: seq<Event>, u: seq<Event>)
    requires AllPushesGuarded(t) && AllPushesGuarded(u)
    ensures AllPushesGuarded(t + u)
  {
    forall k: nat | k < |t + u| && (t + u)[k].Pushed? ensures PushGuarded(t + u, k) {
      if k < |t| {
        assert PushGuarded(t, k);
      } else {
        assert PushGuarded(u, k - |t|);
      }
    }
  }

  /** With the driver's lease held, the only push is the second event, right after a read that found the driver free. */
  lemma HeldPushes(order: Order, c: Candidate, rank: nat, env: ContactEnv)
    requires ValidWakes(env.wakes)
    ensures var held := HeldTrace(order, c, rank, env).0;
            forall k | 0 <= k < |held| && held[k].Pushed? ::
              && k == 1 && held[1] == Pushed(c.driver, c.durationMins + CompensationMins(rank))
              && held[0].DriverRead? && held[0].driver == c.driver && held[0].view.Free()
  {
    if env.driverRead.Ok? && env.driverRead.value.Free() && env.pushOk {
      var head := [DriverRead(c.driver, env.driverRead.value),
                   Pushed(c.driver, c.durationMins + CompensationMins(rank))];
      var rest := RecordTrace(c.driver, env.recordRead) + WaitTrace(order, c.driver, env).0;
      assert HeldTrace(order, c, rank, env).0 == head + rest;
      WaitPushesNothing(order, c.driver, env);
      assert forall e | e in rest :: !e.Pushed?;
      OnlyHeadPushes(head, rest);
    }
  }

  lemma OnlyHeadPushes(head: seq<Event>, rest: seq<Event>)
    requires forall e | e in rest :: !e.Pushed?
    ensures forall k | 0 <= k < |head + rest| && (head + rest)[k].Pushed? :: k < |head|
  {
  }

  /** An iteration pushes at most once, as its fifth event, to its own candidate and with the compensation of
      its rank. */
  lemma ContactPushes(order: Order, c: Candidate, rank: nat, env: ContactEnv)
    requires ValidWakes(env.wakes)
    ensures var t := ContactTrace(order, c, rank, env).0;
            && AllPushesGuarded(t)
            && forall k | 0 <= k < |t| && t[k].Pushed? ::
                 k == 4 && t[k] == Pushed(c.driver, c.durationMins + CompensationMins(rank))
  {
    if env.orderRead == Ok(Waiting) && c.fcmToken != "" && env.driverLock == Ok(true) {
      var held := HeldTrace(order, c, rank, env).0;
      HeldPushes(order, c, rank, env);
      WrappedPushes(held, c.driver, rank);
    }
  }

  lemma WrappedPushes(held: seq<Event>, driver: string, rank: nat)
    requires forall k | 0 <= k < |held| && held[k].Pushed? ::
               k == 1 && held[1].driver == driver
               && held[0].DriverRead? && held[0].driver == driver && held[0].view.Free()
    ensures var t := [Turn(rank), OrderRead(Waiting), DriverLocked(driver)] + held + [DriverUnlocked(driver)];
            && AllPushesGuarded(t)
            && forall k | 0 <= k < |t| && t[k].Pushed? :: k == 4 && 1 < |held| && t[k] == held[1]
  {
    var t := [Turn(rank), OrderRead(Waiting), DriverLocked(driver)] + held + [DriverUnlocked(driver)];
    forall k: nat | k < |t| && t[k].Pushed? ensures k == 4 && 1 < |held| && t[k] == held[1] && PushGuarded(t, k) {
      assert t[k] == held[k - 3];
    }
  }

  lemma WaitPushesNothing(order: Order, driver: string, env: ContactEnv)
    requires ValidWakes(env.wakes)
    ensures forall e | e in WaitTrace(order, driver, env).0 :: !e.Pushed?
  {
    if env.orderLock == Ok(true) {
      SeenEvents(env.wakes[..StopIndex(order.id, driver, env.wakes) + 1]);
    }
  }

  /** Pushes of the candidates from i on: guarded, each for its own candidate, and in the candidates' order. */
  ghost predicate PushOf(t: seq<Event>, k: nat, candidates: seq<Candidate>, i: nat)
    requires k < |t|
  {
    i < |candidates| && t[k] == Pushed(candidates[i].driver, candidates[i].durationMins + CompensationMins(i))
  }

  ghost predicate PushesInOrder(t: seq<Event>, candidates: seq<Candidate>, i: nat) {
    && AllPushesGuarded(t)
    && (forall k: nat | k < |t| && t[k].Pushed? :: exists n: nat | i <= n :: PushOf(t, k, candidates, n))
    && (Distinct(candidates) ==> NoDriverTwice(t))
  }

  lemma PushesCombine(head: seq<Event>, rest: seq<Event>, candidates: seq<Candidate>, i: nat)
    requires i < |candidates| && AllPushesGuarded(head)
    requires forall k: nat | k < |head| && head[k].Pushed? :: k == 4 && PushOf(head, k, candidates, i)
    requires PushesInOrder(rest, candidates, i + 1)
    ensures PushesInOrder(head + rest, candidates, i)
  {
    var t := head + rest;
    GuardedConcat(head, rest);
    forall k: nat | k < |t| && t[k].Pushed? ensures exists n: nat | i <= n :: PushOf(t, k, candidates, n) {
      if k < |head| {
        assert PushOf(head, k, candidates, i);
        assert PushOf(t, k, candidates, i);
      } else {
        var n: nat :| i + 1 <= n && PushOf(rest, k - |head|, candidates, n);
        assert PushOf(t, k, candidates, n);
      }
    }
    if Distinct(candidates) {
      forall j: nat, k: nat | j < k < |t| && t[j].Pushed? && t[k].Pushed? ensures t[j].driver != t[k].driver {
        if |head| <= j {
          assert rest[j - |head|] == t[j] && rest[k - |head|] == t[k];
        } else {
          assert PushOf(head, j, candidates, i) && |head| <= k;
          var n: nat :| i + 1 <= n && PushOf(rest, k - |head|, candidates, n);
        }
      }
    }
  }

  lemma OnePushInOrder(head: seq<Event>, candidates: seq<Candidate>, i: nat)
    requires i < |candidates| && AllPushesGuarded(head)
    requires forall k: nat | k < |head| && head[k].Pushed? :: k == 4 && PushOf(head, k, candidates, i)
    ensures PushesInOrder(head, candidates, i)
  {
  }

  lemma {:induction false} SendPushes(order: Order, candidates: seq<Candidate>, envs: seq<ContactEnv>, i: nat)
    requires ValidContacts(candidates, envs) && i <= |candidates|
    ensures PushesInOrder(SendTrace(order, candidates, envs, i).0, candidates, i)
    decreases |candidates| - i
  {
    if i < |candidates| {
      var (head, verdict) := ContactTrace(order, candidates[i], i, envs[i]);
      ContactPushes(order, candidates[i], i, envs[i]);
      assert forall k: nat | k < |head| && head[k].Pushed? :: PushOf(head, k, candidates, i);
      OnePushInOrder(head, candidates, i);
      if verdict == NextDriver {
        SendPushes(order, candidates, envs, i + 1);
        PushesCombine(head, SendTrace(order, candidates, envs, i + 1).0, candidates, i);
      }
    }
  }

  ghost predicate Distinct(candidates: seq<Candidate>) {
    forall i, j | 0 <= i < j < |candidates| :: candidates[i].driver != candidates[j].driver
  }

  ghost predicate NoDriverTwice(t: seq<Event>) {
    forall j: nat, k: nat | j < k < |t| && t[j].Pushed? && t[k].Pushed? :: t[j].driver != t[k].driver
  }

  lemma PushesInside(head: seq<Event>, sent: seq<Event>, tail: seq<Event>, candidates: seq<Candidate>)
    requires PushesInOrder(sent, candidates, 0)
    requires (forall j | 0 <= j < |head| :: !head[j].Pushed?) && (forall j | 0 <= j < |tail| :: !tail[j].Pushed?)
    ensures PushesInOrder(head + sent + tail, candidates, 0)
  {
    var t := head + sent + tail;
    GuardedConcat(head, sent);
    GuardedConcat(head + sent, tail);
    forall k: nat | k < |t| && t[k].Pushed?
      ensures |head| <= k < |head| + |sent| && t[k] == sent[k - |head|]
              && exists n: nat :: PushOf(t, k, candidates, n)
    {
      var n: nat :| PushOf(sent, k - |head|, candidates, n);
      assert PushOf(t, k, candidates, n);
    }
  }

  lemma SendFcmPushes(order: Order, candidates: seq<Candidate>, env: HandleEnv)
    requires ValidContacts(candidates, env.contacts)
    ensures PushesInOrder(SendFcmTrace(order, candidates, env).0, candidates, 0)
  {
    if env.initialRead == Ok(Waiting) {
      SendPushes(order, candidates, env.contacts, 0);
      var sent := SendTrace(order, candidates, env.contacts, 0).0;
      PushesInside([OrderRead(Waiting)], sent, [], candidates);
      assert [OrderRead(Waiting)] + sent + [] == [OrderRead(Waiting)] + sent;
    }
  }

  /** Over one whole handleOrder: every push directly follows its three checks, carries its own candidate's
      time plus the compensation of that candidate's rank, and no driver is pushed twice. */
  lemma EveryPushIsGuarded(order: Order, env: HandleEnv)
    requires ValidEnv(env)
    ensures var t := HandleTrace(order, env);
            && AllPushesGuarded(t)
            && (forall k: nat | k < |t| && t[k].Pushed? ::
                  env.candidates.Ok? && exists n: nat :: PushOf(t, k, env.candidates.value, n))
            && (env.candidates.Ok? && Distinct(env.candidates.value) ==> NoDriverTwice(t))
  {
    var t := HandleTrace(order, env);
    if order.orderType == Instant && env.candidates.Ok? && env.candidates.value != [] && env.fcmReady {
      var candidates := env.candidates.value;
      var (sent, result) := SendFcmTrace(order, candidates, env);
      var tail := ResultTrace(result, env.finalRead) + [RoundCounted];
      SendFcmPushes(order, candidates, env);
      assert t == [] + sent + tail;
      PushesInside([], sent, tail, candidates);
    } else {
      assert forall e | e in t :: !e.Pushed?;
    }
  }

  /** The compensation of rank i is the number of whole 30 s periods in its 19·i s of accumulated waiting. */
  lemma CompensationCountsHalfMinutes(i: nat)
    ensures var c := CompensationMins(i);
            30 * c <= SEQUENTIAL_CALL_TIMEOUT_SECS * i < 30 * (c + 1) && c <= CompensationMins(i + 1) <= c + 1
  {
  }

  // ----- No acceptance is lost

  /** From position p on, no read sees the order Waiting: it left Waiting for good before p. */
  ghost predicate LeftForGood(t: seq<Event>, p: nat) {
    forall k | p <= k < |t| && t[k].OrderRead? :: t[k].status != Waiting
  }

  function DispatchResult(order: Order, candidates: seq<Candidate>, env: HandleEnv): Result<bool>
    requires ValidContacts(candidates, env.contacts)
  {
    if env.fcmReady then SendFcmTrace(order, candidates, env).1 else Err
  }

  ghost predicate FailsOnlyAfterReads(t: seq<Event>) {
    forall k | 0 <= k < |t| && t[k] == OrderFailed(NoAcceptance) ::
      1 <= k && (t[k - 1] == OrderRead(Waiting) || t[k - 1] == OrderReadFailed)
  }

  /** The dispatch result fails an order exactly when the dispatch was not matched and the final read sees the
      order Waiting or errs; that read is the event right before. */
  lemma FailsExactlyAfterAWaitingRead(order: Order, env: HandleEnv)
    requires ValidEnv(env)
    ensures var t := HandleTrace(order, env);
            && (OrderFailed(NoAcceptance) in t
                <==> order.orderType == Instant && env.candidates.Ok? && env.candidates.value != []
                     && DispatchResult(order, env.candidates.value, env) != Ok(true)
                     && (env.finalRead.Err? || env.finalRead.value == Waiting))
            && FailsOnlyAfterReads(t)
  {
    if order.orderType == Instant && env.candidates.Ok? && env.candidates.value != [] {
      var candidates := env.candidates.value;
      var (t, result) := if env.fcmReady then SendFcmTrace(order, candidates, env) else ([], Err);
      if env.fcmReady {
        SendFcmFailsNothing(order, candidates, env);
      }
      var tail := ResultTrace(result, env.finalRead) + [RoundCounted];
      assert HandleTrace(order, env) == t + tail;
      TailFails(result, env.finalRead);
      FailsOnlyInTail(t, tail);
    }
  }

  lemma TailFails(result: Result<bool>, finalRead: Result<OrderStatus>)
    ensures var tail := ResultTrace(result, finalRead) + [RoundCounted];
            && FailsOnlyAfterReads(tail)
            && (OrderFailed(NoAcceptance) in tail
                <==> result != Ok(true) && (finalRead.Err? || finalRead.value == Waiting))
  {
    var tail := ResultTrace(result, finalRead) + [RoundCounted];
    if result != Ok(true) && (finalRead.Err? || finalRead.value == Waiting) {
      assert tail[1] == OrderFailed(NoAcceptance);
    }
  }

  lemma FailsOnlyInTail(t: seq<Event>, tail: seq<Event>)
    requires (forall e | e in t :: !e.OrderFailed?) && FailsOnlyAfterReads(tail)
    ensures FailsOnlyAfterReads(t + tail)
    ensures OrderFailed(NoAcceptance) in t + tail <==> OrderFailed(NoAcceptance) in tail
  {
    forall k | 0 <= k < |t + tail| && (t + tail)[k] == OrderFailed(NoAcceptance)
      ensures |t| + 1 <= k && ((t + tail)[k - 1] == OrderRead(Waiting) || (t + tail)[k - 1] == OrderReadFailed)
    {
      assert tail[k - |t|] == OrderFailed(NoAcceptance);
    }
  }

  lemma WaitFailsNothing(order: Order, driver: string, env: ContactEnv)
    requires ValidWakes(env.wakes)
    ensures forall e | e in WaitTrace(order, driver, env).0 :: !e.OrderFailed?
  {
    if env.orderLock == Ok(true) {
      SeenEvents(env.wakes[..StopIndex(order.id, driver, env.wakes) + 1]);
    }
  }

  lemma ContactFailsNothing(order: Order, c: Candidate, rank: nat, env: ContactEnv)
    requires ValidWakes(env.wakes)
    ensures forall e | e in ContactTrace(order, c, rank, env).0 :: !e.OrderFailed?
  {
    WaitFailsNothing(order, c.driver, env);
    assert forall e | e in HeldTrace(order, c, rank, env).0 :: !e.OrderFailed?;
  }

  lemma {:induction false} SendFailsNothing(order: Order, candidates: seq<Candidate>, envs: seq<ContactEnv>, i: nat)
    requires ValidContacts(candidates, envs) && i <= |candidates|
    ensures forall e | e in SendTrace(order, candidates, envs, i).0 :: !e.OrderFailed?
    decreases |candidates| - i
  {
    if i < |candidates| {
      ContactFailsNothing(order, candidates[i], i, envs[i]);
      SendFailsNothing(order, candidates, envs, i + 1);
    }
  }

  lemma SendFcmFailsNothing(order: Order, candidates: seq<Candidate>, env: HandleEnv)
    requires ValidContacts(candidates, env.contacts)
    ensures forall e | e in SendFcmTrace(order, candidates, env).0 :: !e.OrderFailed?
  {
    SendFailsNothing(order, candidates, env.contacts, 0);
  }

  /** Main result. Messages may be dropped, repeated, reordered or forged at will. If the order left Waiting for
      good before position p and reads do not err from there on, then after p the dispatch result never fails the
      order, and after the first order read at or past p no driver is pushed. */
  lemma NoAcceptanceIsLost(order: Order, env: HandleEnv, p: nat)
    requires ValidEnv(env)
    requires LeftForGood(HandleTrace(order, env), p)
    requires forall k | p <= k < |HandleTrace(order, env)| :: HandleTrace(order, env)[k] != OrderReadFailed
    ensures var t := HandleTrace(order, env);
            && (forall k | p < k < |t| :: t[k] != OrderFailed(NoAcceptance))
            && (forall q, k | p <= q < k < |t| && t[q].OrderRead? :: !t[k].Pushed?)
  {
    FailsExactlyAfterAWaitingRead(order, env);
    EveryPushIsGuarded(order, env);
    NothingAfterLeaving(HandleTrace(order, env), p);
  }

  lemma NothingAfterLeaving(t: seq<Event>, p: nat)
    requires FailsOnlyAfterReads(t) && AllPushesGuarded(t) && LeftForGood(t, p)
    requires forall k | p <= k < |t| :: t[k] != OrderReadFailed
    ensures forall k | p < k < |t| :: t[k] != OrderFailed(NoAcceptance)
    ensures forall q, k | p <= q < k < |t| && t[q].OrderRead? :: !t[k].Pushed?
  {
    forall k | p < k < |t| ensures t[k] != OrderFailed(NoAcceptance) {
      assert t[k - 1] != OrderRead(Waiting) && t[k - 1] != OrderReadFailed;
    }
    forall q, k | p <= q < k < |t| && t[k].Pushed? ensures !t[q].OrderRead? {
      assert PushGuarded(t, k);
    }
  }
}
