/** The order a driver is being notified of: written to Redis by the dispatcher right after the push
    (recordNotifyingOrder, background/dispatcher.go) and read back by the driver's app (CheckNotifyingOrder,
    service/driver_service.go). */
module Notifying {
  import opened Model
  import opened Redis
  import opened LockValue

  const BUFFER_SECS := 5

  /** pushTime is in seconds since 1970, as Unix() truncates it. */
  datatype Record = Record(order: string, pushTime: nat, timeoutSeconds: nat)

  datatype Notice = Notice(order: string, remainingSeconds: int)

  /** One push and its record: pushed at pushedAt, and in Redis from storedAt on. */
  datatype Push = Push(driver: string, order: string, pushedAt: nat, storedAt: nat)

  // ----- The rule

  /** The latest push a driver got. */
  function LastPush(pushes: seq<Push>, driver: string): Option<Push> {
    if pushes == [] then None
    else if pushes[|pushes| - 1].driver == driver then Some(pushes[|pushes| - 1])
    else LastPush(pushes[..|pushes| - 1], driver)
  }

  /** The rule the cache is for: a driver sees the order of the latest push for 19 s, counted between whole seconds
      of the clock. */
  function Rule(pushes: seq<Push>, driver: string, now: nat): Option<Notice> {
    match LastPush(pushes, driver)
    case None => None
    case Some(p) =>
      var seconds := now / MS_PER_SECOND - p.pushedAt / MS_PER_SECOND;
      if seconds < SEQUENTIAL_CALL_TIMEOUT_SECS then Some(Notice(p.order, SEQUENTIAL_CALL_TIMEOUT_SECS - seconds)) else None
  }

  ghost predicate InOrder(pushes: seq<Push>, now: nat) {
    && (forall i | 0 <= i < |pushes| :: pushes[i].pushedAt <= pushes[i].storedAt <= now)
    && (forall i, j | 0 <= i < j < |pushes| :: pushes[i].storedAt <= pushes[j].storedAt)
  }

  // ----- The cache

  class NotifyingOrderCache {
    var store: Store<Record>

    ghost var pushes: seq<Push>
    ghost var clock: nat

    /** Redis holds, for each driver, the record of the latest push, with its lifetime counted from when it was
        stored. */
    ghost predicate Valid()
      reads this
    {
      InOrder(pushes, clock) && forall driver :: EntryOk(store, pushes, driver)
    }

    constructor ()
      ensures Valid() && pushes == [] && clock == 0
    {
      store, pushes, clock := map[], [], 0;
    }

    method RecordNotifyingOrder(order: string, driver: string, pushedAt: nat, now: nat)
      requires Valid() && clock <= now && pushedAt <= now
      modifies this
      ensures Valid() && clock == now
      ensures pushes == old(pushes) + [Push(driver, order, pushedAt, now)]
      ensures NotifyingOrder(driver) in store && store[NotifyingOrder(driver)].expiry == now + 24000
    {
      var data := Record(order, pushedAt / MS_PER_SECOND, SEQUENTIAL_CALL_TIMEOUT_SECS);
      store := Set(store, now, NotifyingOrder(driver), data, (SEQUENTIAL_CALL_TIMEOUT_SECS + BUFFER_SECS) * MS_PER_SECOND);
      ghost var before := pushes;
      pushes, clock := pushes + [Push(driver, order, pushedAt, now)], now;
      assert pushes[..|pushes| - 1] == before;
      forall d ensures EntryOk(store, pushes, d) {
        assert EntryOk(old(store), before, d);
      }
    }

    /** Reading computes from the stored record and the lifetime Redis enforces, and answers as the rule does. */
    method CheckNotifyingOrder(driver: string, now: nat) returns (r: Option<Notice>)
      requires Valid() && clock <= now
      ensures r == Rule(pushes, driver, now)
    {
      LastPushIsAPush(pushes, driver);
      assert EntryOk(store, pushes, driver);
      if !Live(store, now, NotifyingOrder(driver)) {
        return None;
      }
      var data := store[NotifyingOrder(driver)].value;
      var elapsed := (now - data.pushTime * MS_PER_SECOND) / MS_PER_SECOND;
      var remainingSeconds := data.timeoutSeconds - elapsed;
      if remainingSeconds <= 0 {
        return None;
      }
      return Some(Notice(data.order, remainingSeconds));
    }
  }

  ghost predicate EntryOk(store: Store<Record>, pushes: seq<Push>, driver: string) {
    match LastPush(pushes, driver)
    case None => NotifyingOrder(driver) !in store
    case Some(p) =>
      && NotifyingOrder(driver) in store
      && store[NotifyingOrder(driver)]
         == Entry(Record(p.order, p.pushedAt / MS_PER_SECOND, SEQUENTIAL_CALL_TIMEOUT_SECS),
                  p.storedAt + (SEQUENTIAL_CALL_TIMEOUT_SECS + BUFFER_SECS) * MS_PER_SECOND)
  }

  lemma {:induction false} LastPushIsAPush(pushes: seq<Push>, driver: string)
    ensures LastPush(pushes, driver).Some? ==> LastPush(pushes, driver).value in pushes
  {
    if pushes != [] {
      LastPushIsAPush(pushes[..|pushes| - 1], driver);
    }
  }

  // ----- What the rule gives the driver

  /** While no new push reaches the driver, the remaining time shown is between 1 and 19 s, never grows, and once the order
      has disappeared it stays away. */
  lemma RemainingOnlyShrinks(pushes: seq<Push>, driver: string, now: nat, later: nat)
    requires InOrder(pushes, now) && now <= later
    ensures Rule(pushes, driver, later).Some? ==>
              && Rule(pushes, driver, now).Some?
              && var (first, second) := (Rule(pushes, driver, now).value, Rule(pushes, driver, later).value);
                 first.order == second.order
                 && 1 <= second.remainingSeconds <= first.remainingSeconds <= SEQUENTIAL_CALL_TIMEOUT_SECS
  {
    LastPushIsAPush(pushes, driver);
  }

  /** The latest push of a driver is the last one in the sequence that is for it. */
  lemma {:induction false} LastPushIsLatest(pushes: seq<Push>, driver: string, i: nat)
    requires i < |pushes| && pushes[i].driver == driver && forall j | i < j < |pushes| :: pushes[j].driver != driver
    ensures LastPush(pushes, driver) == Some(pushes[i])
  {
    if i < |pushes| - 1 {
      LastPushIsLatest(pushes[..|pushes| - 1], driver, i);
    }
  }

  lemma {:induction false} NoPushNoNotice(pushes: seq<Push>, driver: string, now: nat)
    requires forall p | p in pushes :: p.driver != driver
    ensures Rule(pushes, driver, now) == None
  {
    if pushes != [] {
      NoPushNoNotice(pushes[..|pushes| - 1], driver, now);
    }
  }

  /** The notice names the order of the latest push, and its remaining time is off by less than a second. */
  lemma RemainingTimeIsRight(pushes: seq<Push>, driver: string, i: nat, now: nat)
    requires InOrder(pushes, now) && Rule(pushes, driver, now).Some?
    requires i < |pushes| && pushes[i].driver == driver && forall j | i < j < |pushes| :: pushes[j].driver != driver
    ensures var notice := Rule(pushes, driver, now).value;
            && notice.order == pushes[i].order
            && 19000 - (now - pushes[i].pushedAt) - 1000 < 1000 * notice.remainingSeconds
            && 1000 * notice.remainingSeconds < 19000 - (now - pushes[i].pushedAt) + 1000
  {
    LastPushIsLatest(pushes, driver, i);
  }

  /** In real time the notice lasts more than 18 s and at most 19 s. */
  lemma VisibleForNineteenSeconds(pushes: seq<Push>, driver: string, now: nat)
    requires InOrder(pushes, now) && LastPush(pushes, driver).Some?
    ensures Rule(pushes, driver, now).Some? <==> Shown(LastPush(pushes, driver).value.pushedAt, now)
    ensures var age := now - LastPush(pushes, driver).value.pushedAt;
            && (age <= (SEQUENTIAL_CALL_TIMEOUT_SECS - 1) * MS_PER_SECOND ==> Rule(pushes, driver, now).Some?)
            && (Rule(pushes, driver, now).Some? ==> age < SEQUENTIAL_CALL_TIMEOUT_SECS * MS_PER_SECOND)
  {
    LastPushIsAPush(pushes, driver);
  }

  predicate Shown(pushedAt: nat, now: nat) {
    now / MS_PER_SECOND - pushedAt / MS_PER_SECOND < SEQUENTIAL_CALL_TIMEOUT_SECS
  }

  predicate CutShort(pushedAt: nat, storedAt: nat, now: nat, ttl: nat) {
    pushedAt <= storedAt <= now && Shown(pushedAt, now) && storedAt + ttl <= now
  }

  /** A lifetime in Redis hides an order the rule still shows, for some push at some moment, exactly if it is below
      19 s: the 5 s buffer is not needed for this. */
  lemma LifetimeNeverCutsShort(ttl: nat)
    ensures (exists pushedAt, storedAt, now :: CutShort(pushedAt, storedAt, now, ttl)) <==> ttl < SEQUENTIAL_CALL_TIMEOUT_SECS * MS_PER_SECOND
  {
    if ttl < SEQUENTIAL_CALL_TIMEOUT_SECS * MS_PER_SECOND {
      assert CutShort(0, 0, ttl, ttl);
    }
  }
}
