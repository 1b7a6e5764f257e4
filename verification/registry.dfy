/** The WebSocket connection registry (controller/websocket_controller.go): a map from user to connection under one
    mutex, close channels closed through sync.Once from several places. Each method is one critical section. */
module Registry {

  const PING_TIMEOUT_MS := 60000

  datatype ConnectionType = DriverConnection | UserConnection

  /** closeCount counts the close(CloseChannel) calls that were made; a second one would panic. */
  class Connection {
    const id: string
    const kind: ConnectionType
    const fleet: string
    var lastPing: int
    var onceDone: bool
    var closeCount: nat

    constructor (id: string, kind: ConnectionType, fleet: string, now: int)
      ensures this.id == id && this.kind == kind && this.fleet == fleet && lastPing == now
      ensures !onceDone && closeCount == 0
    {
      this.id, this.kind, this.fleet := id, kind, fleet;
      lastPing, onceDone, closeCount := now, false, 0;
    }

    ghost predicate OnceOk()
      reads this
    {
      closeCount == if onceDone then 1 else 0
    }

    predicate Open()
      reads this
    {
      !onceDone
    }

    /** CloseOnce.Do(func() { close(CloseChannel) }) */
    method CloseOnce()
      requires OnceOk()
      modifies `onceDone, `closeCount
      ensures OnceOk() && onceDone
      ensures closeCount == if old(onceDone) then old(closeCount) else old(closeCount) + 1
    {
      if !onceDone {
        onceDone := true;
        closeCount := closeCount + 1;
      }
    }
  }

  datatype Stats = Stats(drivers: nat, users: nat, total: nat, byFleet: map<string, nat>)

  class WebSocketController {
    var connections: map<string, Connection>
    /** Every connection ever registered. */
    ghost var registered: set<Connection>

    constructor ()
      ensures Valid() && connections == map[] && registered == {}
    {
      connections := map[];
      registered := {};
    }

    /** Mapped connections are registered under their own ID; a registered connection that is still open is the one
        mapped under its ID; no close channel was closed twice. */
    ghost predicate Valid()
      reads this, registered
    {
      && (forall id | id in connections :: connections[id] in registered && connections[id].id == id)
      && (forall c | c in registered :: c.Open() ==> c.id in connections && connections[c.id] == c)
      && (forall c | c in registered :: c.OnceOk())
    }

    /** So each user has at most one open connection. */
    lemma OneOpenConnectionPerUser(c: Connection, d: Connection)
      requires Valid() && c in registered && d in registered && c.Open() && d.Open()
      ensures c.id == d.id ==> c == d
    {
      assert c.id in connections && connections[c.id] == c;
      assert d.id in connections && connections[d.id] == d;
    }

    method RegisterConnection(conn: Connection)
      requires Valid() && conn !in registered && conn.Open() && conn.OnceOk()
      modifies this, registered
      ensures Valid() && registered == old(registered) + {conn}
      ensures connections == old(connections)[conn.id := conn] && conn.Open()
      ensures forall c | c in old(registered) ::
                c.onceDone == (old(c.onceDone) || (conn.id in old(connections) && old(connections)[conn.id] == c))
                && c.lastPing == old(c.lastPing)
    {
      if conn.id in connections {
        var existing := connections[conn.id];
        connections := connections - {conn.id};
        existing.CloseOnce();
      }
      connections := connections[conn.id := conn];
      registered := registered + {conn};
    }

    /** Cleanup after a connection's close channel was closed; a newer connection of the same user stays. */
    method UnregisterConnection(conn: Connection)
      requires Valid() && conn in registered && !conn.Open()
      modifies `connections
      ensures Valid()
      ensures connections == if conn.id in old(connections) && old(connections)[conn.id] == conn
                             then old(connections) - {conn.id} else old(connections)
    {
      if conn.id in connections && connections[conn.id] == conn {
        connections := connections - {conn.id};
      }
    }

    /** The deferred close of handleReader. */
    method ReaderExit(conn: Connection)
      requires Valid() && conn in registered
      modifies conn
      ensures Valid() && !conn.Open() && conn.lastPing == old(conn.lastPing)
    {
      conn.CloseOnce();
    }

    /** Pong frames and ping messages. */
    method Ping(conn: Connection, now: int)
      requires Valid() && conn in registered
      modifies conn`lastPing
      ensures Valid() && conn.lastPing == now
    {
      conn.lastPing := now;
    }

    predicate Stale(c: Connection, now: int)
      reads c
    {
      now - c.lastPing > PING_TIMEOUT_MS
    }

    /** Closes and removes exactly the mapped connections that have been silent for more than a minute. */
    method HealthCheck(now: int)
      requires Valid()
      modifies this, registered
      ensures Valid() && registered == old(registered)
      ensures connections == map id | id in old(connections) && !old(Stale(connections[id], now)) :: old(connections[id])
      ensures forall id :: id in connections <==> id in old(connections) && now - old(connections[id].lastPing) <= 60000
      ensures forall c | c in registered ::
                c.lastPing == old(c.lastPing)
                && c.onceDone == (old(c.onceDone) || (c.id in old(connections) && old(connections)[c.id] == c
                                                      && old(Stale(c, now))))
    {
      var rest := connections.Keys;
      var toRemove: set<string> := {};
      while rest != {}
        invariant connections == old(connections) && registered == old(registered)
        invariant rest <= connections.Keys
        invariant toRemove == set id | id in connections && id !in rest && Stale(connections[id], now)
        invariant forall c | c in registered ::
                    c.OnceOk() && c.lastPing == old(c.lastPing)
                    && c.onceDone == (old(c.onceDone) || (c.id in connections && connections[c.id] == c
                                                          && c.id !in rest && old(Stale(c, now))))
      {
        var id :| id in rest;
        var conn := connections[id];
        if now - conn.lastPing > PING_TIMEOUT_MS {
          conn.CloseOnce();
          toRemove := toRemove + {id};
        }
        rest := rest - {id};
      }
      connections := connections - toRemove;
    }

    ghost function Kinds(): map<string, ConnectionType>
      reads this, registered
      requires Valid()
    {
      map id | id in connections :: connections[id].kind
    }

    ghost function Fleets(): map<string, string>
      reads this, registered
      requires Valid()
    {
      map id | id in connections :: connections[id].fleet
    }

    /** The counters are the numbers of users they stand for. */
    method GetStats() returns (stats: Stats)
      requires Valid()
      ensures stats.drivers == |Preimage(Kinds(), connections.Keys, DriverConnection)|
      ensures stats.users == |Preimage(Kinds(), connections.Keys, UserConnection)|
      ensures stats.total == |connections| && stats.drivers + stats.users == stats.total
      ensures Tallies(stats.byFleet, Fleets(), connections.Keys)
    {
      var kinds := map id | id in connections :: connections[id].kind;
      var fleets := map id | id in connections :: connections[id].fleet;
      assert |connections| == |connections.Keys|;
      assert kinds == Kinds() && fleets == Fleets();
      assert kinds.Keys == connections.Keys && fleets.Keys == connections.Keys;
      var drivers, users, byFleet := CountConnections(kinds, fleets);
      return Stats(drivers, users, |connections|, byFleet);
    }
  }

  /** The counting loop, on what the connections show while the read lock is held. */
  method CountConnections(kinds: map<string, ConnectionType>, fleets: map<string, string>)
    returns (drivers: nat, users: nat, byFleet: map<string, nat>)
    requires kinds.Keys == fleets.Keys
    ensures drivers == |Preimage(kinds, kinds.Keys, DriverConnection)|
    ensures users == |Preimage(kinds, kinds.Keys, UserConnection)|
    ensures drivers + users == |kinds.Keys|
    ensures Tallies(byFleet, fleets, fleets.Keys)
  {
    var rest := kinds.Keys;
    ghost var done: set<string> := {};
    drivers, users, byFleet := 0, 0, map[];
    while rest != {}
      invariant done !! rest && done + rest == kinds.Keys
      invariant drivers == |Preimage(kinds, done, DriverConnection)| && users == |Preimage(kinds, done, UserConnection)|
      invariant Tallies(byFleet, fleets, done)
    {
      var id :| id in rest;
      TallyStep(byFleet, fleets, done, id);
      byFleet := Increment(byFleet, fleets[id]);
      PreimageStep(kinds, done, id, DriverConnection);
      PreimageStep(kinds, done, id, UserConnection);
      match kinds[id] {
        case DriverConnection => drivers := drivers + 1;
        case UserConnection => users := users + 1;
      }
      done := done + {id};
      rest := rest - {id};
    }
    assert done == kinds.Keys;
    KindsPartition(kinds, done);
  }

  ghost function Preimage<V>(m: map<string, V>, ids: set<string>, v: V): set<string> {
    set id | id in ids && id in m && m[id] == v
  }

  /** counts[f] is the number of ids mapped to f, and values that do not occur have no counter. */
  ghost predicate Tallies(counts: map<string, nat>, m: map<string, string>, ids: set<string>) {
    forall f ::
      if f in counts then counts[f] == |Preimage(m, ids, f)| && counts[f] > 0 else Preimage(m, ids, f) == {}
  }

  lemma PreimageStep<V>(m: map<string, V>, ids: set<string>, id: string, v: V)
    requires id in m && id !in ids
    ensures Preimage(m, ids + {id}, v) == if m[id] == v then Preimage(m, ids, v) + {id} else Preimage(m, ids, v)
    ensures |Preimage(m, ids + {id}, v)| == |Preimage(m, ids, v)| + if m[id] == v then 1 else 0
  {
    assert Preimage(m, ids + {id}, v) == if m[id] == v then Preimage(m, ids, v) + {id} else Preimage(m, ids, v);
  }

  lemma KindsPartition(m: map<string, ConnectionType>, ids: set<string>)
    requires ids <= m.Keys
    ensures |Preimage(m, ids, DriverConnection)| + |Preimage(m, ids, UserConnection)| == |ids|
  {
    assert Preimage(m, ids, DriverConnection) !! Preimage(m, ids, UserConnection);
    forall id | id in ids ensures id in Preimage(m, ids, DriverConnection) + Preimage(m, ids, UserConnection) {
      match m[id]
      case DriverConnection =>
      case UserConnection =>
    }
    assert Preimage(m, ids, DriverConnection) + Preimage(m, ids, UserConnection) == ids;
  }

  /** counts[key]++ on a map whose missing values read as zero. */
  function Increment(counts: map<string, nat>, key: string): map<string, nat> {
    counts[key := 1 + if key in counts then counts[key] else 0]
  }

  lemma TallyStep(counts: map<string, nat>, m: map<string, string>, ids: set<string>, id: string)
    requires id in m && id !in ids && Tallies(counts, m, ids)
    ensures Tallies(Increment(counts, m[id]), m, ids + {id})
  {
    forall f
      ensures |Preimage(m, ids + {id}, f)| == |Preimage(m, ids, f)| + if m[id] == f then 1 else 0
      ensures m[id] != f ==> Preimage(m, ids + {id}, f) == Preimage(m, ids, f)
    {
      PreimageStep(m, ids, id, f);
    }
  }
}
