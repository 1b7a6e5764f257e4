/** The lock operations of RedisEventManager (infra/redis_events.go). Every method is one step of the lease machine, so what
    the machine keeps over whole runs holds for any sequence of calls, by any number of holders. */
module EventManager {
  import opened Model
  import opened Redis
  import opened LockValue
  import L = Leases

  class RedisEventManager {
    /** The lock keys in Redis and its clock. */
    var store: Store<string>
    var now: nat

    /** The run so far, as the lease machine sees it. */
    ghost var leases: L.State

    ghost predicate Valid()
      reads this
    {
      leases.store == store && leases.now == now
    }

    ghost predicate Safe()
      reads this
    {
      Valid() && L.Inv(leases)
    }

    constructor ()
      ensures Safe() && leases == L.Initial
    {
      store, now := map[], 0;
      leases := L.Initial;
    }

    method Elapse(ms: nat)
      requires Valid()
      modifies this
      ensures Valid() && leases == L.Apply(old(leases), L.Tick(ms))
      ensures old(Safe()) ==> Safe()
    {
      if L.Inv(leases) {
        L.TickKeepsInv(leases, ms);
      }
      now := now + ms;
      leases := L.Apply(leases, L.Tick(ms));
    }

    /** What the three acquisitions share: SET NX, then a value the holder can release with. */
    method SetNXLock(key: Key, source: string, ttl: nat, delivery: Delivery) returns (r: Result<Option<string>>, ghost id: nat)
      requires Valid() && 1 <= ttl
      modifies this
      ensures Valid()
      ensures leases == if delivery == NotExecuted then old(leases) else L.Apply(old(leases), L.Acquire(key, source, ttl))
      ensures r.Err? <==> delivery != Answered
      ensures r.Ok? ==> (r.value.None? <==> old(Live(store, now, key)))
      ensures r.Ok? && r.value.Some? ==>
                id < |leases.leases| && L.InForce(leases, id)
                && leases.leases[id] == L.Lease(key, source, now, now + ttl, true)
                && leases.leases[id].Value() == r.value.value
      ensures old(Safe()) && MS_PER_SECOND <= ttl ==> Safe()
    {
      id := |leases.leases|;
      if delivery == NotExecuted {
        return Err, id;
      }
      if L.Inv(leases) && MS_PER_SECOND <= ttl {
        L.AcquireKeepsInv(leases, key, source, ttl);
      }
      var lockValue := LockValue.LockValue(source, now);
      var (newStore, success) := SetNX(store, now, key, lockValue, ttl);
      store := newStore;
      leases := L.Apply(leases, L.Acquire(key, source, ttl));
      r := if delivery == AnswerLost then Err else if success then Ok(Some(lockValue)) else Ok(None);
    }

    method AcquireDispatchLock(orderID: string, dispatcherID: string, ttl: nat, delivery: Delivery)
      returns (r: Result<Option<string>>, ghost id: nat)
      requires Valid() && 1 <= ttl
      modifies this
      ensures Valid()
      ensures leases == if delivery == NotExecuted then old(leases)
                        else L.Apply(old(leases), L.Acquire(DispatchLock(orderID), dispatcherID, ttl))
      ensures r.Err? <==> delivery != Answered
      ensures r.Ok? ==> (r.value.None? <==> old(Live(store, now, DispatchLock(orderID))))
      ensures r.Ok? && r.value.Some? ==>
                id < |leases.leases| && L.InForce(leases, id)
                && leases.leases[id] == L.Lease(DispatchLock(orderID), dispatcherID, now, now + ttl, true)
                && leases.leases[id].Value() == r.value.value
      ensures old(Safe()) && MS_PER_SECOND <= ttl ==> Safe()
    {
      r, id := SetNXLock(DispatchLock(orderID), dispatcherID, ttl, delivery);
    }

    method AcquireDriverNotificationLock(driverID: string, orderID: string, dispatcherID: string, ttl: nat, delivery: Delivery)
      returns (r: Result<Option<string>>, ghost id: nat)
      requires Valid() && 1 <= ttl
      modifies this
      ensures Valid()
      ensures leases == if delivery == NotExecuted then old(leases)
                        else L.Apply(old(leases), L.Acquire(DriverNotificationLock(driverID), dispatcherID + ":" + orderID, ttl))
      ensures r.Err? <==> delivery != Answered
      ensures r.Ok? ==> (r.value.None? <==> old(Live(store, now, DriverNotificationLock(driverID))))
      ensures r.Ok? && r.value.Some? ==>
                id < |leases.leases| && L.InForce(leases, id)
                && leases.leases[id]
                   == L.Lease(DriverNotificationLock(driverID), dispatcherID + ":" + orderID, now, now + ttl, true)
                && leases.leases[id].Value() == r.value.value
      ensures old(Safe()) && MS_PER_SECOND <= ttl ==> Safe()
    {
      r, id := SetNXLock(DriverNotificationLock(driverID), dispatcherID + ":" + orderID, ttl, delivery);
    }

    method AcquireOrderRejectLock(orderID: string, driverID: string, source: string, ttl: nat, delivery: Delivery)
      returns (r: Result<Option<string>>, ghost id: nat)
      requires Valid() && 1 <= ttl
      modifies this
      ensures Valid()
      ensures leases == if delivery == NotExecuted then old(leases)
                        else L.Apply(old(leases), L.Acquire(OrderRejectLock(orderID, driverID), source, ttl))
      ensures r.Err? <==> delivery != Answered
      ensures r.Ok? ==> (r.value.None? <==> old(Live(store, now, OrderRejectLock(orderID, driverID))))
      ensures r.Ok? && r.value.Some? ==>
                id < |leases.leases| && L.InForce(leases, id)
                && leases.leases[id] == L.Lease(OrderRejectLock(orderID, driverID), source, now, now + ttl, true)
                && leases.leases[id].Value() == r.value.value
      ensures old(Safe()) && MS_PER_SECOND <= ttl ==> Safe()
    {
      r, id := SetNXLock(OrderRejectLock(orderID, driverID), source, ttl, delivery);
    }

    /** The closure every acquisition returns. Called by the holder of lease id, it finds the value in place exactly if
        that lease is the one in force, and then removes that entry and nothing else. */
    method ReleaseLock(key: Key, lockValue: string, ghost id: nat, delivery: Delivery) returns (deleted: Result<bool>)
      requires Valid() && id < |leases.leases| && leases.leases[id].open
      requires leases.leases[id].key == key && leases.leases[id].Value() == lockValue
      modifies this
      ensures Valid()
      ensures leases == if delivery == NotExecuted then old(leases) else L.Apply(old(leases), L.Release(id))
      ensures deleted.Err? <==> delivery != Answered
      ensures old(Safe()) && deleted.Ok? ==> deleted.value == old(L.InForce(leases, id))
      ensures old(Safe()) ==>
                store == if delivery != NotExecuted && old(L.InForce(leases, id)) then old(store) - {key} else old(store)
      ensures old(Safe()) ==> Safe()
    {
      if delivery == NotExecuted {
        return Err;
      }
      if L.Inv(leases) {
        L.ReleaseKeepsInv(leases, id);
        L.ReleaseTouchesOwnEntryOnly(leases, id);
        assert L.OwnerOk(leases, key);
        L.InvMeansOwnLeaseOnly(leases);
      }
      var (newStore, hit) := CompareAndDelete(store, now, key, lockValue);
      store := newStore;
      leases := L.Apply(leases, L.Release(id));
      deleted := if delivery == AnswerLost then Err else Ok(hit);
    }

    /** EXPIRE counts whole seconds. An answer of false is reported as an error too. */
    method ExtendDispatchLock(orderID: string, lockValue: string, ttl: nat, ghost id: nat, delivery: Delivery)
      returns (ok: bool)
      requires Valid() && id < |leases.leases| && leases.leases[id].open
      requires leases.leases[id].key == DispatchLock(orderID) && leases.leases[id].Value() == lockValue
      modifies this
      ensures Valid()
      ensures leases == if delivery == NotExecuted then old(leases)
                        else L.Apply(old(leases), L.Extend(id, ttl / MS_PER_SECOND * MS_PER_SECOND))
      ensures old(Safe()) ==> (ok <==> delivery == Answered && old(L.InForce(leases, id)))
      ensures old(Safe()) && ok ==>
                store == old(store)[DispatchLock(orderID) := Entry(lockValue, now + ttl / MS_PER_SECOND * MS_PER_SECOND)]
      ensures old(Safe()) && MS_PER_SECOND <= ttl ==> Safe()
    {
      if delivery == NotExecuted {
        return false;
      }
      ghost var whole := ttl / MS_PER_SECOND * MS_PER_SECOND;
      if L.Inv(leases) {
        assert L.OwnerOk(leases, DispatchLock(orderID));
        L.InvMeansOwnLeaseOnly(leases);
        if MS_PER_SECOND <= ttl {
          L.ExtendKeepsInv(leases, id, whole);
        }
      }
      var (newStore, hit) := CompareAndExpire(store, now, DispatchLock(orderID), lockValue, ttl / MS_PER_SECOND * MS_PER_SECOND);
      store := newStore;
      leases := L.Apply(leases, L.Extend(id, whole));
      ok := hit && delivery == Answered;
    }
  }
}
