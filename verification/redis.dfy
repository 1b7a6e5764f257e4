/** Redis as the dispatch code uses it: keys with values and expiries, SET NX, and the two Lua scripts that
    compare a value before deleting the key or renewing its expiry (infra/redis_events.go). Times are in
    milliseconds on one monotone clock. */
module Redis {

  datatype Key =
    | DispatchLock(order: string)
    | DriverNotificationLock(driver: string)
    | OrderRejectLock(order: string, driver: string)
    | NotifyingOrder(driver: string)
    | DriverBlacklist(driver: string, addressHash: string)

  datatype Entry<V> = Entry(value: V, expiry: nat)

  type Store<V> = map<Key, Entry<V>>

  /** What happened to a command on the network: answered, never executed, or executed with the answer lost. */
  datatype Delivery = Answered | NotExecuted | AnswerLost

  /** An entry whose expiry has come is as good as absent. */
  predicate Live<V>(store: Store<V>, now: nat, key: Key) {
    key in store && now < store[key].expiry
  }

  function SetNX<V>(store: Store<V>, now: nat, key: Key, value: V, ttl: nat): (Store<V>, bool) {
    if Live(store, now, key) then (store, false)
    else (store[key := Entry(value, now + ttl)], true)
  }

  function Set<V>(store: Store<V>, now: nat, key: Key, value: V, ttl: nat): Store<V> {
    store[key := Entry(value, now + ttl)]
  }

  function Del<V>(store: Store<V>, key: Key): Store<V> {
    store - {key}
  }

  /** The guard both scripts share: GET KEYS[1] == ARGV[1]. */
  predicate Holds<V(==)>(store: Store<V>, now: nat, key: Key, value: V) {
    Live(store, now, key) && store[key].value == value
  }

  function CompareAndDelete<V(==)>(store: Store<V>, now: nat, key: Key, value: V): (Store<V>, bool) {
    if Holds(store, now, key, value) then (Del(store, key), true) else (store, false)
  }

  function CompareAndExpire<V(==)>(store: Store<V>, now: nat, key: Key, value: V, ttl: nat): (Store<V>, bool) {
    if Holds(store, now, key, value) then (store[key := Entry(value, now + ttl)], true) else (store, false)
  }
}

/** Lock values: a source, a colon and the whole second of the clock, as fmt.Sprintf("%s:%d") prints them. */
module LockValue {

  const MS_PER_SECOND := 1000

  function Digit(d: nat): char
    requires d < 10
  {
    "0123456789"[d]
  }

  function Decimal(n: nat): string {
    if n < 10 then [Digit(n)] else Decimal(n / 10) + [Digit(n % 10)]
  }

  function LockValue(source: string, now: nat): string {
    source + ":" + Decimal(now / MS_PER_SECOND)
  }

  lemma {:induction false} DecimalHasNoColon(n: nat)
    ensures ':' !in Decimal(n)
  {
    if n >= 10 {
      DecimalHasNoColon(n / 10);
    }
  }

  lemma {:induction false} DecimalInjective(m: nat, n: nat)
    requires Decimal(m) == Decimal(n)
    ensures m == n
  {
    var s, t := Decimal(m), Decimal(n);
    if m >= 10 && n >= 10 {
      assert s[..|s| - 1] == Decimal(m / 10) && t[..|t| - 1] == Decimal(n / 10);
      assert s[|s| - 1] == Digit(m % 10) && t[|t| - 1] == Digit(n % 10);
      DecimalInjective(m / 10, n / 10);
    } else if m >= 10 {
      DecimalNonEmpty(m / 10);
    } else if n >= 10 {
      DecimalNonEmpty(n / 10);
    }
  }

  lemma DecimalNonEmpty(n: nat)
    ensures |Decimal(n)| >= 1
  {
  }

  /** Equal lock values were printed by the same source within the same whole second, whatever the source:
      the text after the last colon is the second. */
  lemma {:induction false} LockValueDeterminesSecond(s1: string, t1: nat, s2: string, t2: nat)
    requires LockValue(s1, t1) == LockValue(s2, t2)
    ensures t1 / MS_PER_SECOND == t2 / MS_PER_SECOND && s1 == s2
  {
    var d1, d2 := Decimal(t1 / MS_PER_SECOND), Decimal(t2 / MS_PER_SECOND);
    var v := LockValue(s1, t1);
    DecimalHasNoColon(t1 / MS_PER_SECOND);
    DecimalHasNoColon(t2 / MS_PER_SECOND);
    assert v[|s1|] == ':' && v[|s2|] == ':';
    assert forall k | |s1| < k < |v| :: v[k] == d1[k - |s1| - 1];
    assert forall k | |s2| < k < |v| :: v[k] == d2[k - |s2| - 1];
    assert |s1| == |s2|;
    assert v[|s1| + 1..] == d1 && v[|s2| + 1..] == d2;
    DecimalInjective(t1 / MS_PER_SECOND, t2 / MS_PER_SECOND);
    assert v[..|s1|] == s1 && v[..|s2|] == s2;
  }
}
