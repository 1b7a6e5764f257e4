/** RejectOrder (service/driver_service.go) and handleDriverTimeout (background/dispatcher.go) writing one
    order's log at the same time: any number of calls, any interleaving of their steps, under the 10 s reject lock
    of each (order, driver) pair. A call that does not get the lock returns at once and is not a section. */
module RejectLog {
  import opened Model
  import opened Redis
  import opened LockValue
  import opened OrderLog
  import L = Leases

  const REJECT_LOCK_TTL_MS := 10000

  datatype Kind = Manual | Timeout

  datatype Pc = Locked | MayAppend(rounds: int) | Finished

  /** One call that holds (or held) the reject lock of its pair. */
  datatype Section = Section(kind: Kind, order: string, driver: string, givenRounds: int, lease: nat, since: nat, pc: Pc)

  datatype Doc = Doc(log: seq<LogEntry>, rounds: int)

  datatype State = State(lease: L.State, orders: map<string, Doc>, sections: map<nat, Section>)

  datatype Action =
    | Enter(id: nat, kind: Kind, order: string, driver: string, rounds: int)
    | Read(id: nat)
    | Append(id: nat)
    | Leave(id: nat)
    | LeaveUnreleased(id: nat)
    | LogOther(order: string, entry: LogEntry)
    | SetRounds(order: string, rounds: int)
    | Create(order: string, rounds: int)
    | Background(a: L.Action)

  const Initial := State(L.Initial, map[], map[])

  function PairKey(order: string, driver: string): Key {
    OrderRejectLock(order, driver)
  }

  function Source(kind: Kind): string {
    if kind == Manual then "manual" else "timeout"
  }

  /** Entries of a section: a reject carries the round read with the order, a timeout the round its dispatcher was
      given. */
  function EntryOf(sec: Section): LogEntry
    requires sec.pc.MayAppend?
  {
    LogEntry(if sec.kind == Manual then DriverReject else DriverTimeout, sec.driver, sec.pc.rounds)
  }

  predicate Enabled(s: State, a: Action) {
    match a
    case Enter(id, _, order, driver, _) => id !in s.sections && !Live(s.lease.store, s.lease.now, PairKey(order, driver))
    case Read(id) => id in s.sections && s.sections[id].pc == Locked
    case Append(id) => id in s.sections && s.sections[id].pc.MayAppend? && s.sections[id].order in s.orders
    case Leave(id) => id in s.sections && L.Enabled(s.lease, L.Release(s.sections[id].lease), 0)
    case LeaveUnreleased(id) => id in s.sections
    case LogOther(order, entry) => order in s.orders && (entry.action == DriverAccept || entry.action == OtherAction)
    case SetRounds(order, _) => order in s.orders
    case Create(order, _) => order !in s.orders
    case Background(b) =>
      && L.Enabled(s.lease, b, MS_PER_SECOND)
      && forall id | id in s.sections ::
           (b.Release? ==> b.id != s.sections[id].lease) && (b.Extend? ==> b.id != s.sections[id].lease)
  }

  /** A section reads the order and decides; an order that cannot be read ends it. */
  function AfterRead(s: State, sec: Section): Section {
    if sec.order !in s.orders then sec.(pc := Finished)
    else
      var doc := s.orders[sec.order];
      match sec.kind
      case Manual =>
        sec.(pc := if RejectAllowed(doc.log, sec.driver) then MayAppend(doc.rounds) else Finished)
      case Timeout =>
        sec.(pc := if TimeoutAllowed(doc.log, sec.driver, sec.givenRounds) then MayAppend(sec.givenRounds) else Finished)
  }

  function Apply(s: State, a: Action): State
    requires Enabled(s, a)
  {
    match a
    case Enter(id, kind, order, driver, rounds) =>
      var acquire := L.Acquire(PairKey(order, driver), Source(kind), REJECT_LOCK_TTL_MS);
      s.(lease := L.Apply(s.lease, acquire),
         sections := s.sections[id := Section(kind, order, driver, rounds, |s.lease.leases|, s.lease.now, Locked)])
    case Read(id) => s.(sections := s.sections[id := AfterRead(s, s.sections[id])])
    case Append(id) =>
      var sec := s.sections[id];
      var doc := s.orders[sec.order];
      s.(orders := s.orders[sec.order := doc.(log := doc.log + [EntryOf(sec)])],
         sections := s.sections[id := sec.(pc := Finished)])
    case Leave(id) =>
      State(L.Apply(s.lease, L.Release(s.sections[id].lease)), s.orders, s.sections - {id})
    case LeaveUnreleased(id) => s.(sections := s.sections - {id})
    case LogOther(order, entry) =>
      s.(orders := s.orders[order := s.orders[order].(log := s.orders[order].log + [entry])])
    case SetRounds(order, rounds) => s.(orders := s.orders[order := s.orders[order].(rounds := rounds)])
    case Create(order, rounds) => s.(orders := s.orders[order := Doc([], rounds)])
    case Background(b) => s.(lease := L.Apply(s.lease, b))
  }

  /** Sections finish inside the lock. */
  ghost predicate Timely(s: State) {
    forall id | id in s.sections :: s.lease.now < s.sections[id].since + REJECT_LOCK_TTL_MS
  }

  ghost predicate Runs(s: State, run: seq<Action>)
    decreases |run|
  {
    Timely(s) && (run == [] || (Enabled(s, run[0]) && Runs(Apply(s, run[0]), run[1..])))
  }

  ghost function Final(s: State, run: seq<Action>): State
    requires Runs(s, run)
    decreases |run|
  {
    if run == [] then s else Final(Apply(s, run[0]), run[1..])
  }

  // ----- What a log promises

  /** At most one reject per driver; at most one timeout per driver and round; no timeout after the same driver's
      reject of that round. */
  ghost predicate LogOk(log: seq<LogEntry>) {
    forall i, j | 0 <= i < j < |log| && log[i].driver == log[j].driver ::
      && !(log[i].action == DriverReject && log[j].action == DriverReject)
      && (log[i].rounds == log[j].rounds ==>
            && !(log[i].action == DriverTimeout && log[j].action == DriverTimeout)
            && !(log[i].action == DriverReject && log[j].action == DriverTimeout))
  }

  /** The part of a section's check that nobody else can have undone since. */
  ghost predicate StillClear(log: seq<LogEntry>, sec: Section)
    requires sec.pc.MayAppend?
  {
    match sec.kind
    case Manual => RejectAllowed(log, sec.driver)
    case Timeout =>
      forall i | 0 <= i < |log| && log[i].driver == sec.driver && log[i].rounds == sec.pc.rounds ::
        log[i].action != DriverReject && log[i].action != DriverTimeout
  }

  ghost predicate SectionOk(s: State, sec: Section) {
    && sec.lease < |s.lease.leases|
    && s.lease.leases[sec.lease]
       == L.Lease(PairKey(sec.order, sec.driver), Source(sec.kind), sec.since, sec.since + REJECT_LOCK_TTL_MS, true)
    && (sec.pc.MayAppend? ==> sec.order in s.orders && StillClear(s.orders[sec.order].log, sec))
  }

  ghost predicate Inv(s: State) {
    && L.Inv(s.lease)
    && (forall id | id in s.sections :: SectionOk(s, s.sections[id]))
    && (forall i, j | i in s.sections && j in s.sections && i != j :: s.sections[i].lease != s.sections[j].lease)
    && (forall o | o in s.orders :: LogOk(s.orders[o].log))
  }

  /** Two sections at once belong to different pairs. */
  lemma SectionsExclude(s: State, i: nat, j: nat)
    requires Inv(s) && Timely(s) && i in s.sections && j in s.sections && i != j
    ensures s.sections[i].order != s.sections[j].order || s.sections[i].driver != s.sections[j].driver
  {
    L.InvMeansExclusive(s.lease);
    assert SectionOk(s, s.sections[i]) && SectionOk(s, s.sections[j]);
  }

  lemma AppendKeepsInv(s: State, id: nat)
    requires Inv(s) && Timely(s) && Enabled(s, Append(id))
    ensures Inv(Apply(s, Append(id)))
  {
    var s' := Apply(s, Append(id));
    assert SectionOk(s, s.sections[id]);
    forall j | j in s'.sections ensures SectionOk(s', s'.sections[j]) {
      assert SectionOk(s, s.sections[j]);
      if j != id {
        SectionsExclude(s, id, j);
      }
    }
  }

  lemma OtherLogKeepsInv(s: State, order: string, entry: LogEntry)
    requires Inv(s) && Enabled(s, LogOther(order, entry))
    ensures Inv(Apply(s, LogOther(order, entry)))
  {
    var s' := Apply(s, LogOther(order, entry));
    forall j | j in s'.sections ensures SectionOk(s', s'.sections[j]) {
      assert SectionOk(s, s.sections[j]);
    }
  }

  lemma ReadKeepsInv(s: State, id: nat)
    requires Inv(s) && Enabled(s, Read(id))
    ensures Inv(Apply(s, Read(id)))
  {
    var s' := Apply(s, Read(id));
    forall j | j in s'.sections ensures SectionOk(s', s'.sections[j]) {
      assert SectionOk(s, s.sections[j]);
    }
  }

  lemma EnterKeepsInv(s: State, id: nat, kind: Kind, order: string, driver: string, rounds: int)
    requires Inv(s) && Enabled(s, Enter(id, kind, order, driver, rounds))
    ensures Inv(Apply(s, Enter(id, kind, order, driver, rounds)))
  {
    var s' := Apply(s, Enter(id, kind, order, driver, rounds));
    L.ApplyKeepsInv(s.lease, L.Acquire(PairKey(order, driver), Source(kind), REJECT_LOCK_TTL_MS));
    assert forall j | j in s.sections :: SectionOk(s, s.sections[j]) && SectionOk(s', s.sections[j]);
  }

  lemma LeaveKeepsInv(s: State, id: nat)
    requires Inv(s) && Enabled(s, Leave(id))
    ensures Inv(Apply(s, Leave(id)))
  {
    var s' := Apply(s, Leave(id));
    L.ApplyKeepsInv(s.lease, L.Release(s.sections[id].lease));
    forall j | j in s'.sections ensures SectionOk(s', s'.sections[j]) {
      assert SectionOk(s, s.sections[j]);
    }
  }

  /** A release that Redis never runs: the lock stays until it expires. */
  lemma LostReleaseKeepsInv(s: State, id: nat)
    requires Inv(s) && Enabled(s, LeaveUnreleased(id))
    ensures Inv(Apply(s, LeaveUnreleased(id)))
  {
    var s' := Apply(s, LeaveUnreleased(id));
    forall j | j in s'.sections ensures SectionOk(s', s'.sections[j]) {
      assert SectionOk(s, s.sections[j]);
    }
  }

  lemma BackgroundKeepsInv(s: State, b: L.Action)
    requires Inv(s) && Enabled(s, Background(b))
    ensures Inv(Apply(s, Background(b)))
  {
    var s' := Apply(s, Background(b));
    L.ApplyKeepsInv(s.lease, b);
    forall j | j in s'.sections ensures SectionOk(s', s'.sections[j]) {
      assert SectionOk(s, s.sections[j]);
    }
  }

  lemma CreateKeepsInv(s: State, a: Action)
    requires Inv(s) && Enabled(s, a) && (a.SetRounds? || a.Create?)
    ensures Inv(Apply(s, a))
  {
    var s' := Apply(s, a);
    forall j | j in s'.sections ensures SectionOk(s', s'.sections[j]) {
      assert SectionOk(s, s.sections[j]);
    }
  }

  lemma ApplyKeepsInv(s: State, a: Action)
    requires Inv(s) && Timely(s) && Enabled(s, a)
    ensures Inv(Apply(s, a))
  {
    match a
    case Enter(id, kind, order, driver, rounds) => EnterKeepsInv(s, id, kind, order, driver, rounds);
    case Read(id) => ReadKeepsInv(s, id);
    case Append(id) => AppendKeepsInv(s, id);
    case Leave(id) => LeaveKeepsInv(s, id);
    case LeaveUnreleased(id) => LostReleaseKeepsInv(s, id);
    case LogOther(order, entry) => OtherLogKeepsInv(s, order, entry);
    case SetRounds(_, _) => CreateKeepsInv(s, a);
    case Create(_, _) => CreateKeepsInv(s, a);
    case Background(b) => BackgroundKeepsInv(s, b);
  }

  lemma {:induction false} RunKeepsInv(s: State, run: seq<Action>)
    requires Inv(s) && Runs(s, run)
    ensures Inv(Final(s, run))
    decreases |run|
  {
    if run != [] {
      ApplyKeepsInv(s, run[0]);
      RunKeepsInv(Apply(s, run[0]), run[1..]);
    }
  }

  /** Main result: in every run whose sections finish inside their locks, every order's log keeps its promise. */
  lemma LogsStayOk(run: seq<Action>, order: string)
    requires Runs(Initial, run) && order in Final(Initial, run).orders
    ensures LogOk(Final(Initial, run).orders[order].log)
  {
    RunKeepsInv(Initial, run);
  }

  /** What stands in the way of a section's entry, and nothing else does: for a reject, a reject of the driver; for a
      timeout, an accept, reject or timeout of the driver in the section's round. */
  ghost predicate InTheWay(e: LogEntry, sec: Section) {
    && e.driver == sec.driver
    && (sec.kind == Manual ==> e.action == DriverReject)
    && (sec.kind == Timeout ==>
          e.rounds == sec.givenRounds
          && (e.action == DriverAccept || e.action == DriverReject || e.action == DriverTimeout))
  }

  /** A section that reads a log with nothing in its way may append; then the log gains exactly its entry: a reject with the
      round that was read, a timeout with the round it was given, whatever earlier rounds hold. Otherwise it cannot. */
  lemma SectionLogsExactlyWhenClear(s: State, id: nat)
    requires Enabled(s, Read(id)) && s.sections[id].order in s.orders
    ensures var sec := s.sections[id];
            var doc := s.orders[sec.order];
            var s1 := Apply(s, Read(id));
            && (Enabled(s1, Append(id)) <==> forall e | e in doc.log :: !InTheWay(e, sec))
            && (Enabled(s1, Append(id)) ==>
                  Apply(s1, Append(id)).orders == s.orders[sec.order := doc.(log := doc.log + [
                    if sec.kind == Manual then LogEntry(DriverReject, sec.driver, doc.rounds)
                    else LogEntry(DriverTimeout, sec.driver, sec.givenRounds)])])
  {
    var sec := s.sections[id];
    var log := s.orders[sec.order].log;
    RejectNeedsNoReject(log, sec.driver);
    TimeoutNeedsEmptyRound(log, sec.driver, sec.givenRounds);
  }

  /** A section that leaves, and whose release Redis runs, frees the lock of its pair: the next section can enter at once. */
  lemma LeavingFreesTheLock(s: State, id: nat, next: nat, kind: Kind, rounds: int)
    requires Inv(s) && Timely(s) && Enabled(s, Leave(id)) && next !in s.sections
    ensures var (sec, s') := (s.sections[id], Apply(s, Leave(id)));
            && OrderRejectLock(sec.order, sec.driver) in s.lease.store
            && s'.lease.store == s.lease.store - {OrderRejectLock(sec.order, sec.driver)}
            && s'.orders == s.orders
            && Enabled(s', Enter(next, kind, sec.order, sec.driver, rounds))
  {
    assert SectionOk(s, s.sections[id]);
    assert L.LeaseOk(s.lease, s.sections[id].lease);
    L.ReleaseTouchesOwnEntryOnly(s.lease, s.sections[id].lease);
  }

  /** Entering takes the lock for 10 s, under the source of the call. */
  lemma EnteringTakesTheLock(s: State, id: nat, kind: Kind, order: string, driver: string, rounds: int)
    requires Enabled(s, Enter(id, kind, order, driver, rounds))
    ensures var s' := Apply(s, Enter(id, kind, order, driver, rounds));
            s'.lease.store == s.lease.store[OrderRejectLock(order, driver) :=
              Entry(LockValue.LockValue(if kind == Manual then "manual" else "timeout", s.lease.now), s.lease.now + 10000)]
  {
  }

  // ----- One reject, undisturbed

  class OrderDocument {
    var log: seq<LogEntry>
    var rounds: Option<int>

    constructor ()
      ensures log == [] && rounds == None
    {
      log, rounds := [], None;
    }

    /** lock is the answer of the reject lock, an error of which does not stop the call; the other flags say which further
        calls succeed. A driver who has rejected before is answered with success and nothing happens. */
    method RejectOrder(driver: string, lock: Result<bool>, readOk: bool, blacklistOk: bool, appendOk: bool)
      returns (r: Result<()>, published: bool)
      modifies this`log
      ensures var goesOn := lock != Ok(false) && readOk
                            && forall e | e in old(log) && e.driver == driver :: e.action != DriverReject;
              && (published <==> goesOn && blacklistOk)
              && (r.Err? <==> (lock != Ok(false) && !readOk) || (goesOn && !blacklistOk))
              && log == old(log) + (if goesOn && blacklistOk && appendOk then
                                      [LogEntry(DriverReject, driver, if rounds.Some? then rounds.value else 1)]
                                    else [])
      ensures old(LogOk(log)) ==> LogOk(log)
    {
      RejectNeedsNoReject(log, driver);
      published := false;
      if lock.Ok? && !lock.value {
        return Ok(()), published;
      }
      if !readOk {
        return Err, published;
      }
      var allowed := ScanForReject(log, driver);
      if !allowed {
        return Ok(()), published;
      }
      if !blacklistOk {
        return Err, published;
      }
      published := true;
      var currentRounds := 1;
      if rounds.Some? {
        currentRounds := rounds.value;
      }
      if appendOk {
        log := log + [LogEntry(DriverReject, driver, currentRounds)];
      }
      return Ok(()), published;
    }
  }
}
