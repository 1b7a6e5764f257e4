/** The driver blacklist (service/driver_blacklist_service.go): a set of (driver, pickup address) pairs with a lifetime, kept
    in Redis under the driver and the first 8 characters of the address's hash. */
module Blacklist {
  import opened Model
  import opened Redis
  import Candidates

  const HASH_CHARS := 8
  const DEFAULT_EXPIRY_MINUTES := 10
  const MS_PER_MINUTE := 60000

  datatype Event =
    | Added(driver: string, address: string, at: nat)
    | Removed(driver: string, address: string, at: nat)

  function ShortHash(hash: string -> string, address: string): string {
    var h := hash(address);
    if |h| <= HASH_CHARS then h else h[..HASH_CHARS]
  }

  function ExpiryMs(configuredMinutes: int): nat {
    (if configuredMinutes <= 0 then DEFAULT_EXPIRY_MINUTES else configuredMinutes) * MS_PER_MINUTE
  }

  // ----- The exact set and what the service sees of it

  predicate InOrder(history: seq<Event>, now: nat) {
    && (forall i | 0 <= i < |history| :: history[i].at <= now)
    && (forall i, j | 0 <= i < j < |history| :: history[i].at <= history[j].at)
  }

  predicate SamePair(e: Event, driver: string, address: string) {
    e.driver == driver && e.address == address
  }

  predicate SameKey(hash: string -> string, e: Event, driver: string, address: string) {
    e.driver == driver && ShortHash(hash, e.address) == ShortHash(hash, address)
  }

  predicate Fresh(e: Event, expiry: nat, now: nat) {
    e.Added? && now < e.at + expiry
  }

  /** The exact set: the pair's latest event is an addition that has not run out. */
  predicate Listed(history: seq<Event>, expiry: nat, driver: string, address: string, now: nat) {
    history != []
    && var e := history[|history| - 1];
       if SamePair(e, driver, address) then Fresh(e, expiry, now)
       else Listed(history[..|history| - 1], expiry, driver, address, now)
  }

  /** The set the service can see: the latest event under the pair's key counts, whichever address it was for. */
  predicate Reported(hash: string -> string, history: seq<Event>, expiry: nat, driver: string, address: string, now: nat) {
    history != []
    && var e := history[|history| - 1];
       if SameKey(hash, e, driver, address) then Fresh(e, expiry, now)
       else Reported(hash, history[..|history| - 1], expiry, driver, address, now)
  }

  // ----- The service

  class DriverBlacklistService {
    const hash: string -> string
    const expiryMinutes: int
    var store: Store<string>

    ghost var history: seq<Event>
    ghost var clock: nat

    ghost predicate Valid()
      reads this
    {
      && InOrder(history, clock)
      && forall driver, address, now | clock <= now ::
           Live(store, now, Key(driver, address)) && store[Key(driver, address)].value != ""
           <==> Reported(hash, history, ExpiryMs(expiryMinutes), driver, address, now)
    }

    function Key(driver: string, address: string): Redis.Key {
      DriverBlacklist(driver, ShortHash(hash, address))
    }

    constructor (hash: string -> string, expiryMinutes: int)
      ensures Valid() && history == [] && this.hash == hash && this.expiryMinutes == expiryMinutes
    {
      this.hash, this.expiryMinutes := hash, expiryMinutes;
      store, history, clock := map[], [], 0;
    }

    /** ok says whether Redis took the command. */
    method AddDriverToBlacklist(driverID: string, pickupAddress: string, now: nat, ok: bool) returns (r: Result<()>)
      requires Valid() && clock <= now
      modifies this
      ensures Valid() && clock == now && r.Ok? == ok
      ensures history == if ok then old(history) + [Added(driverID, pickupAddress, now)] else old(history)
    {
      clock := now;
      if !ok {
        return Err;
      }
      var minutes := if expiryMinutes <= 0 then DEFAULT_EXPIRY_MINUTES else expiryMinutes;
      store := Set(store, now, Key(driverID, pickupAddress), "1", minutes * MS_PER_MINUTE);
      ghost var before := history;
      history := history + [Added(driverID, pickupAddress, now)];
      assert history[..|history| - 1] == before;
      return Ok(());
    }

    method IsDriverBlacklisted(driverID: string, pickupAddress: string, now: nat, ok: bool) returns (r: Result<bool>)
      requires Valid() && clock <= now
      ensures r == if ok then Ok(Reported(hash, history, ExpiryMs(expiryMinutes), driverID, pickupAddress, now)) else Err
    {
      if !ok {
        return Err;
      }
      var key := Key(driverID, pickupAddress);
      if !Live(store, now, key) {
        return Ok(false);
      }
      return Ok(store[key].value != "");
    }

    method RemoveDriverFromBlacklist(driverID: string, pickupAddress: string, now: nat, ok: bool) returns (r: Result<()>)
      requires Valid() && clock <= now
      modifies this
      ensures Valid() && clock == now && r.Ok? == ok
      ensures history == if ok then old(history) + [Removed(driverID, pickupAddress, now)] else old(history)
    {
      clock := now;
      if !ok {
        return Err;
      }
      store := Del(store, Key(driverID, pickupAddress));
      ghost var before := history;
      history := history + [Removed(driverID, pickupAddress, now)];
      assert history[..|history| - 1] == before;
      return Ok(());
    }
  }

  // ----- How long and under which key

  /** A fresh addition is listed, and reported, from its moment on for exactly the configured minutes, or 10 if the setting
      is not positive. */
  lemma ListedForTheConfiguredTime(hash: string -> string, history: seq<Event>, minutes: int, driver: string, address: string,
                                   at: nat, now: nat)
    requires at <= now
    ensures var after := history + [Added(driver, address, at)];
            && (Listed(after, ExpiryMs(minutes), driver, address, now)
                <==> now < at + (if minutes <= 0 then 600000 else minutes * 60000))
            && (Reported(hash, after, ExpiryMs(minutes), driver, address, now)
                <==> now < at + (if minutes <= 0 then 600000 else minutes * 60000))
  {
    var after := history + [Added(driver, address, at)];
    assert after[|after| - 1] == Added(driver, address, at);
  }

  /** Two addresses of hashes with at least 8 characters share a key exactly if their hashes agree on the first 8. */
  lemma KeysShareEightCharacters(hash: string -> string, a: string, b: string)
    requires 8 <= |hash(a)| && 8 <= |hash(b)|
    ensures ShortHash(hash, a) == ShortHash(hash, b) <==> forall i | 0 <= i < 8 :: hash(a)[i] == hash(b)[i]
  {
    var (x, y) := (hash(a)[..8], hash(b)[..8]);
    assert (forall i | 0 <= i < 8 :: hash(a)[i] == hash(b)[i]) <==> forall i | 0 <= i < 8 :: x[i] == y[i];
  }

  // ----- How the two sets compare

  /** Nothing exactly listed is missed. */
  ghost predicate Covered(hash: string -> string, history: seq<Event>, expiry: nat, now: nat) {
    forall driver, address ::
      Listed(history, expiry, driver, address, now) ==> Reported(hash, history, expiry, driver, address, now)
  }

  lemma {:induction false} ListedHasAddition(history: seq<Event>, expiry: nat, driver: string, address: string, now: nat)
    requires Listed(history, expiry, driver, address, now)
    ensures exists i :: 0 <= i < |history| && SamePair(history[i], driver, address) && Fresh(history[i], expiry, now)
  {
    var n := |history| - 1;
    if SamePair(history[n], driver, address) {
      assert Fresh(history[n], expiry, now);
    } else {
      ListedHasAddition(history[..n], expiry, driver, address, now);
      var i :| 0 <= i < n && SamePair(history[..n][i], driver, address) && Fresh(history[..n][i], expiry, now);
      assert SamePair(history[i], driver, address) && Fresh(history[i], expiry, now);
    }
  }

  /** Main result. While pairs are only added, everything exactly listed is reported, for any hash function: a later
      addition of another address under the same key only prolongs the entry. */
  lemma {:induction false} AdditionsAreCovered(hash: string -> string, history: seq<Event>, expiry: nat, now: nat,
                                               driver: string, address: string)
    requires InOrder(history, now) && forall i | 0 <= i < |history| :: history[i].Added?
    ensures Listed(history, expiry, driver, address, now) ==> Reported(hash, history, expiry, driver, address, now)
  {
    if history != [] && Listed(history, expiry, driver, address, now) {
      var n := |history| - 1;
      ListedHasAddition(history, expiry, driver, address, now);
      AdditionsAreCovered(hash, history[..n], expiry, now, driver, address);
    }
  }

  /** With any history, what is reported is exactly listed for some address with the same short hash. */
  lemma {:induction false} ReportedMeansListed(hash: string -> string, history: seq<Event>, expiry: nat, now: nat,
                                               driver: string, address: string)
    requires Reported(hash, history, expiry, driver, address, now)
    ensures exists other :: ShortHash(hash, other) == ShortHash(hash, address)
                            && Listed(history, expiry, driver, other, now)
  {
    var n := |history| - 1;
    var e := history[n];
    if SameKey(hash, e, driver, address) {
      assert Listed(history, expiry, driver, e.address, now);
    } else {
      ReportedMeansListed(hash, history[..n], expiry, now, driver, address);
      var other :| ShortHash(hash, other) == ShortHash(hash, address) && Listed(history[..n], expiry, driver, other, now);
      assert Listed(history, expiry, driver, other, now);
    }
  }

  /** So with additions only, the report is the exact set up to collisions of the short hash. */
  lemma ReportIsListUpToCollisions(hash: string -> string, history: seq<Event>, expiry: nat, now: nat,
                                   driver: string, address: string)
    requires InOrder(history, now) && forall i | 0 <= i < |history| :: history[i].Added?
    ensures Reported(hash, history, expiry, driver, address, now)
            <==> exists other :: ShortHash(hash, other) == ShortHash(hash, address)
                                 && Listed(history, expiry, driver, other, now)
  {
    if Reported(hash, history, expiry, driver, address, now) {
      ReportedMeansListed(hash, history, expiry, now, driver, address);
    }
    forall other | ShortHash(hash, other) == ShortHash(hash, address) && Listed(history, expiry, driver, other, now)
      ensures Reported(hash, history, expiry, driver, address, now)
    {
      AdditionsAreCovered(hash, history, expiry, now, driver, other);
      SameHashSameReport(hash, history, expiry, now, driver, other, address);
    }
  }

  lemma {:induction false} SameHashSameReport(hash: string -> string, history: seq<Event>, expiry: nat, now: nat,
                                              driver: string, a: string, b: string)
    requires ShortHash(hash, a) == ShortHash(hash, b)
    ensures Reported(hash, history, expiry, driver, a, now) == Reported(hash, history, expiry, driver, b, now)
  {
    if history != [] {
      SameHashSameReport(hash, history[..|history| - 1], expiry, now, driver, a, b);
    }
  }

  /** An explicit removal can lose a pair: it keeps the report complete exactly if no other address of the driver that is
      listed now shares the removed address's short hash. */
  lemma RemovalKeepsCover(hash: string -> string, history: seq<Event>, expiry: nat, now: nat,
                          driver: string, address: string)
    requires Covered(hash, history, expiry, now)
    ensures Covered(hash, history + [Removed(driver, address, now)], expiry, now)
            <==> forall other | other != address && Listed(history, expiry, driver, other, now) ::
                   ShortHash(hash, other) != ShortHash(hash, address)
  {
    var after := history + [Removed(driver, address, now)];
    assert after[..|after| - 1] == history;
    forall d, a ensures Listed(after, expiry, d, a, now)
                        <==> !(d == driver && a == address) && Listed(history, expiry, d, a, now)
    {
    }
    forall d, a ensures Reported(hash, after, expiry, d, a, now)
                        <==> !(d == driver && ShortHash(hash, a) == ShortHash(hash, address))
                             && Reported(hash, history, expiry, d, a, now)
    {
    }
  }

  // ----- The blacklist and candidate selection

  /** What the candidate filter is told about each driver for one pickup address. */
  ghost predicate AsksBlacklist(env: Candidates.Env, hash: string -> string, history: seq<Event>, expiry: nat,
                                address: string, now: nat)
  {
    forall d :: env.blacklisted(d).Err?
                || env.blacklisted(d) == Ok(Reported(hash, history, expiry, d.id, address, now))
  }

  /** A driver still listed for the order's pickup address is never a candidate. */
  lemma ListedDriversAreNoCandidates(order: Candidates.Order, all: seq<Candidates.Driver>, env: Candidates.Env,
                                     short: seq<Candidates.Driver>, chosen: seq<Candidates.DriverRoute>,
                                     picks: seq<Candidates.Pick>, hash: string -> string, history: seq<Event>,
                                     expiry: nat, address: string, now: nat)
    requires Candidates.Selects(order, all, env, short, chosen, Ok(picks))
    requires env.blacklistEnabled && AsksBlacklist(env, hash, history, expiry, address, now)
    requires InOrder(history, now) && forall i | 0 <= i < |history| :: history[i].Added?
    ensures forall n | 0 <= n < |picks| :: !Listed(history, expiry, picks[n].driver.id, address, now)
  {
    forall n | 0 <= n < |picks| ensures !Listed(history, expiry, picks[n].driver.id, address, now) {
      var d := picks[n].driver;
      Candidates.ShortlistIsEligible(order, all, env, short);
      assert d in short;
      AdditionsAreCovered(hash, history, expiry, now, d.id, address);
    }
  }
}
