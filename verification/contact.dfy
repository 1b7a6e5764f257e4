/** What one dispatcher thread does to the outside world, as a trace of events, and the order those events can
    come in. The trace of `sendFcm` is proved to follow this automaton (Dispatcher), and the automaton is what
    every thread of the interleaved system follows (DispatchProtocol). */
module Contact {
  import opened Model

  datatype DriverView = DriverView(status: DriverStatus, currentOrder: Option<string>) {
    /** Idle and without a current order; the database stores "" for a cleared one as well. */
    predicate Free() {
      status == Idle && (currentOrder == None || currentOrder == Some(""))
    }
  }

  datatype FailReason = FindError | NoCandidates | NoAcceptance

  /** Turn(i) begins the iteration for the candidate of rank i ("processing_driver"). */
  datatype Event =
    | Turn(rank: nat)
    | OrderRead(status: OrderStatus)
    | OrderReadFailed
    | DriverLocked(driver: string)
    | DriverUnlocked(driver: string)
    | DriverRead(driver: string, view: DriverView)
    | Pushed(driver: string, pickupMins: int)
    | PushFailed(driver: string)
    | NotifyRecorded(driver: string)
    | OrderLocked
    | OrderLockRefused
    | OrderUnlocked
    | TimerStarted
    | LeaseExtended
    | LeaseLost
    | WaitEnded(accepted: bool, shouldContinue: bool)
    | RejectLocked(driver: string)
    | RejectUnlocked(driver: string)
    | TimeoutLogged(driver: string, rounds: int)
    | OrderFailed(reason: FailReason)
    | RoundCounted

  /** Where a thread stands with respect to the driver it contacts: no driver; driver lease held; dispatch lease
      held as well; timer running; wait over but both leases held; dispatch lease given back. */
  datatype Phase =
    | Outside
    | Holding(driver: string)
    | Armed(driver: string)
    | InWait(driver: string)
    | Ending(driver: string)
    | Unlocked(driver: string)

  function Advance(p: Phase, e: Event): Option<Phase> {
    match (p, e)
    case (Outside, Turn(_)) => Some(p)
    case (Outside, DriverLocked(d)) => Some(Holding(d))
    case (Outside, OrderRead(_)) => Some(p)
    case (Outside, OrderReadFailed) => Some(p)
    case (Outside, OrderFailed(_)) => Some(p)
    case (Outside, RoundCounted) => Some(p)
    case (Holding(d), DriverRead(d', _)) => if d == d' then Some(p) else None
    case (Holding(d), Pushed(d', _)) => if d == d' then Some(p) else None
    case (Holding(d), PushFailed(d')) => if d == d' then Some(p) else None
    case (Holding(d), NotifyRecorded(d')) => if d == d' then Some(p) else None
    case (Holding(d), OrderLocked) => Some(Armed(d))
    case (Holding(d), OrderLockRefused) => Some(p)
    case (Holding(d), DriverUnlocked(d')) => if d == d' then Some(Outside) else None
    case (Armed(d), TimerStarted) => Some(InWait(d))
    case (InWait(d), OrderRead(_)) => Some(p)
    case (InWait(d), OrderReadFailed) => Some(p)
    case (InWait(d), LeaseExtended) => Some(p)
    case (InWait(d), LeaseLost) => Some(p)
    case (InWait(d), WaitEnded(_, _)) => Some(Ending(d))
    case (Ending(d), RejectLocked(d')) => if d == d' then Some(p) else None
    case (Ending(d), RejectUnlocked(d')) => if d == d' then Some(p) else None
    case (Ending(d), OrderRead(_)) => Some(p)
    case (Ending(d), OrderReadFailed) => Some(p)
    case (Ending(d), TimeoutLogged(d', _)) => if d == d' then Some(p) else None
    case (Ending(d), OrderUnlocked) => Some(Unlocked(d))
    case (Unlocked(d), DriverUnlocked(d')) => if d == d' then Some(Outside) else None
    case _ => None
  }

  function After(p: Phase, trace: seq<Event>): Option<Phase>
    decreases |trace|
  {
    if trace == [] then Some(p)
    else match Advance(p, trace[0])
      case None => None
      case Some(p') => After(p', trace[1..])
  }

  lemma {:induction false} AfterConcat(p: Phase, t: seq<Event>, u: seq<Event>)
    ensures After(p, t + u) == match After(p, t) case None => None case Some(q) => After(q, u)
    decreases |t|
  {
    if t == [] {
      assert t + u == u;
    } else {
      assert (t + u)[0] == t[0] && (t + u)[1..] == t[1..] + u;
      match Advance(p, t[0])
      case None =>
      case Some(p') => AfterConcat(p', t[1..], u);
    }
  }

  predicate IsLockEvent(e: Event) {
    e.DriverLocked? || e.DriverUnlocked?
  }

  /** The driver a phase has locked, if any. */
  function LockedDriver(p: Phase): Option<string> {
    match p
    case Outside => None
    case Holding(d) => Some(d)
    case Armed(d) => Some(d)
    case InWait(d) => Some(d)
    case Ending(d) => Some(d)
    case Unlocked(d) => Some(d)
  }

  /** Position j gives back what position i took, and no driver lock is taken or given back between them. */
  ghost predicate GivesBack(trace: seq<Event>, i: nat, j: nat)
    requires i < j < |trace|
  {
    && trace[i].DriverLocked? && trace[j] == DriverUnlocked(trace[i].driver)
    && forall k: nat | i < k < j :: !IsLockEvent(trace[k])
  }

  /** In an accepted trace every driver lock that is taken is given back once, and only taken locks are given
      back: lock events alternate, take and give back, for one driver at a time. */
  lemma {:induction false} LocksAlternate(trace: seq<Event>)
    requires After(Outside, trace) == Some(Outside)
    ensures forall i: nat | i < |trace| && trace[i].DriverLocked? ::
              exists j: nat | i < j < |trace| :: GivesBack(trace, i, j)
    ensures forall j: nat | j < |trace| && trace[j].DriverUnlocked? ::
              exists i: nat | i < j :: GivesBack(trace, i, j)
  {
    forall i: nat | i < |trace| && trace[i].DriverLocked?
      ensures exists j: nat | i < j < |trace| :: GivesBack(trace, i, j)
    {
      var q := PhaseAt(trace, i);
      assert trace[i..][1..] == trace[i + 1..];
      var n := NextUnlock(Holding(trace[i].driver), trace[i + 1..]);
      assert trace[i + 1..][n] == trace[i + 1 + n];
      assert GivesBack(trace, i, i + 1 + n) by {
        forall k: nat | i < k < i + 1 + n ensures !IsLockEvent(trace[k]) {
          assert trace[i + 1..][k - i - 1] == trace[k];
        }
      }
    }
    forall j: nat | j < |trace| && trace[j].DriverUnlocked?
      ensures exists i: nat | i < j :: GivesBack(trace, i, j)
    {
      var q := PhaseAt(trace, j);
      var i := LastLock(Outside, trace[..j], q);
      assert GivesBack(trace, i, j);
    }
  }

  /** The phase an accepted trace has reached at a position. */
  lemma PhaseAt(trace: seq<Event>, i: nat) returns (q: Phase)
    requires After(Outside, trace) == Some(Outside) && i < |trace|
    ensures After(Outside, trace[..i]) == Some(q) && After(q, trace[i..]) == Some(Outside)
    ensures Advance(q, trace[i]).Some?
  {
    AfterConcat(Outside, trace[..i], trace[i..]);
    assert trace[..i] + trace[i..] == trace;
    q := After(Outside, trace[..i]).value;
  }

  lemma {:induction false} NextUnlock(p: Phase, rest: seq<Event>) returns (n: nat)
    requires LockedDriver(p).Some? && After(p, rest) == Some(Outside)
    ensures n < |rest| && rest[n] == DriverUnlocked(LockedDriver(p).value)
    ensures forall k: nat | k < n :: !IsLockEvent(rest[k])
    decreases |rest|
  {
    var p' := Advance(p, rest[0]).value;
    if p' == Outside {
      n := 0;
    } else {
      n := NextUnlock(p', rest[1..]);
      n := n + 1;
      assert forall k: nat | 0 < k < n :: rest[k] == rest[1..][k - 1];
    }
  }

  lemma {:induction false} LastLock(p: Phase, before: seq<Event>, q: Phase) returns (i: nat)
    requires p == Outside && After(p, before) == Some(q) && LockedDriver(q).Some?
    ensures i < |before| && before[i] == DriverLocked(LockedDriver(q).value)
    ensures forall k: nat | i < k < |before| :: !IsLockEvent(before[k])
    decreases |before|
  {
    var n := |before| - 1;
    AfterConcat(p, before[..n], [before[n]]);
    assert before[..n] + [before[n]] == before;
    var r := After(p, before[..n]).value;
    assert After(r, [before[n]]) == Some(q) && [before[n]][1..] == [];
    assert Advance(r, before[n]) == Some(q);
    if r == Outside {
      i := n;
    } else {
      i := LastLock(p, before[..n], r);
    }
  }
}
