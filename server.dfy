/** LspServer: the pool of accepted connections. Each CONNECT from a new host
    gets the next id from the counter and a monitor-backed connection; one
    connection per host key is kept. */
module Servers {
  import opened Java
  import opened Params
  import opened ByteBuffers
  import opened Wire
  import opened Connections

  /** A map key as Java sees it after boxing: the pool is keyed by Short, and
      an `int` argument boxes to an Integer. */
  datatype Boxed = BoxedShort(s: int16) | BoxedInteger(i: int32)

  /** `Map.get`/`remove` with a boxed key: Short.equals holds only for another
      Short of the same value, so an Integer key never finds an entry. */
  function KeyLookup(m: map<int16, LspConnection>, key: Boxed): (r: Option<LspConnection>)
    ensures r.Some? <==> key.BoxedShort? && key.s in m
    ensures r.Some? ==> r.value == m[key.s]
  {
    match key
    case BoxedShort(s) => if s in m then Some(m[s]) else None
    case BoxedInteger(_) => None
  }

  class LspServer {
    const port: int32
    /** The parameters every accepted connection gets; may be null. */
    const params: Option<LspParams>
    var connections: map<int16, LspConnection>
    var remoteHosts: set<int32>
    var idCounter: int32
    var active: bool

    /** The host set is exactly the hosts of the pooled connections. */
    ghost predicate HostsMatch()
      reads this
    {
      remoteHosts == set id | id in connections :: connections[id].host
    }

    /** No two pooled connections share a host. */
    ghost predicate HostsDistinct()
      reads this
    {
      forall i, j :: i in connections && j in connections && i != j ==>
        connections[i].host != connections[j].host
    }

    /** Every connection is pooled under its own id, and every id was handed
        out by the counter: it lies in 1..idCounter. */
    ghost predicate IdsFromCounter()
      reads this
    {
      forall id :: id in connections ==> connections[id].id == id && 0 < id <= idCounter
    }

    ghost predicate Valid()
      reads this
    {
      HostsMatch() && HostsDistinct() && IdsFromCounter() && 0 <= idCounter
    }

    /** The pool, the host set, the counter and the flag are as they were. */
    twostate predicate PoolUnchanged()
      reads this
    {
      connections == old(connections) && remoteHosts == old(remoteHosts)
      && idCounter == old(idCounter) && active == old(active)
    }

    /** The effect of a CONNECT whose bytes after the type are `rest`, from
        host key `host` at time `now`, completing with `c`. */
    twostate predicate ConnectOutcome(rest: seq<byte>, host: int32, now: int64, c: Completion)
      reads this, connections.Values
    {
      match CheckConnectHeader(rest)
      case HeaderUnderflow => c == Abrupt(BufferUnderflow) && PoolUnchanged()
      case NonZeroHeader => c == Normal && PoolUnchanged()
      case ZeroHeader =>
        if host in old(remoteHosts) then c == Normal && PoolUnchanged()
        else
          // the counter advances before the connection is constructed
          && idCounter == WrapInt(old(idCounter) + 1) && active == old(active)
          && if params.None? then
               c == Abrupt(NullPointer)
               && connections == old(connections) && remoteHosts == old(remoteHosts)
             else
               var newId := ToShort(idCounter);
               && c == Normal
               && newId in connections
               && connections == old(connections)[newId := connections[newId]]
               && remoteHosts == old(remoteHosts) + {host}
               && var conn := connections[newId];
               && fresh(conn) && conn.id == newId && conn.host == host
               && conn.params == params.value && conn.actions == ServerActions(newId)
               && !conn.closed && conn.lastMsgTime == now
    }

    /** `new LspServer(port, params)`: empty pool, counter 0, active. */
    constructor (port: int32, params: Option<LspParams>)
      ensures this.port == port && this.params == params
      ensures connections == map[] && remoteHosts == {} && idCounter == 0 && active
      ensures Valid()
    {
      this.port := port;
      this.params := params;
      connections := map[];
      remoteHosts := {};
      idCounter := 0;
      active := true;
    }

    /** `processPacket`: wraps the datagram (writable), reads the type and
        runs the CONNECT handler; the DATA and ACK handlers are empty and any
        other type has no case, so those change nothing. */
    method ProcessPacket(data: seq<byte>, length: nat, host: int32, now: int64) returns (c: Completion)
      requires length <= |data|
      modifies this`connections, this`remoteHosts, this`idCounter
      ensures length < 2 ==> c == Abrupt(BufferUnderflow) && PoolUnchanged()
      ensures length >= 2 && ShortAt(data, 0) != CONNECT ==> c == Normal && PoolUnchanged()
      ensures length >= 2 && ShortAt(data, 0) == CONNECT ==> ConnectOutcome(data[2..length], host, now, c)
      ensures old(Valid()) && old(idCounter) < 0x7FFF ==> Valid()
    {
      var buf := new ByteBuffer.Wrap(data, length);
      var msgType := buf.GetShort();
      match msgType
      case Throws(e) =>
        c := Abrupt(e);
      case Ok(t) =>
        if t == CONNECT {
          c := DoConnect(buf, host, now);
        } else {
          // DATA and ACK: empty handlers; anything else: no case
          c := Normal;
        }
    }

    /** `doConnect`: a CONNECT is honoured only when both the connection id
        and the sequence number read as zero (the second is read only if the
        first is), and only for a host key not already connected. The new id
        is the pre-incremented counter cast to short. */
    method DoConnect(buf: ByteBuffer, host: int32, now: int64) returns (c: Completion)
      requires buf.Valid()
      modifies this`connections, this`remoteHosts, this`idCounter, buf`position
      ensures ConnectOutcome(old(buf.Remaining()), host, now, c)
      ensures old(Valid()) && old(idCounter) < 0x7FFF ==> Valid()
    {
      ghost var rest := buf.Remaining();
      var first := buf.GetShort();
      if first.Throws? {
        return Abrupt(first.exc);
      }
      if first.value != 0 {
        return Normal;
      }
      assert buf.Remaining() == rest[2..];
      var second := buf.GetShort();
      if second.Throws? {
        return Abrupt(second.exc);
      }
      assert ShortAt(rest, 2) == second.value;
      if second.value != 0 {
        return Normal;
      }
      if host !in remoteHosts {
        ghost var wasValid := Valid() && idCounter < 0x7FFF;
        idCounter := WrapInt(idCounter + 1);
        var newId := ToShort(idCounter);
        var r := LspConnection.Create(newId, host, params, Some(ServerActions(newId)), now);
        if r.Throws? {
          return Abrupt(r.exc);
        }
        var conn := r.value;
        if wasValid {
          assert newId !in connections;
        }
        connections := connections[newId := conn];
        remoteHosts := remoteHosts + {host};
        if wasValid {
          AcceptKeepsValid(old(connections), old(remoteHosts), newId, conn);
        }
      }
      c := Normal;
    }

    /** closeConn as written: `connections.remove(connId)` boxes the int id to
        an Integer, which no Short key equals, so nothing is removed and the
        following `conn.close()` dereferences null. Nothing changes. */
    method CloseConn(connId: int32) returns (c: Completion)
      ensures c == Abrupt(NullPointer)
    {
      var removed := KeyLookup(connections, BoxedInteger(connId));
      match removed
      case None =>
        c := Abrupt(NullPointer);
    }

    /** closeConn as intended: remove the connection stored under the short
        id, close it and drop its host; an id with no connection is a closed
        connection. The pool invariant is kept. */
    method CloseConnIntended(connId: int32) returns (c: Completion)
      modifies this`connections, this`remoteHosts, connections.Values
      ensures var key := ToShort(connId);
              if key in old(connections) then
                && c == Normal
                && connections == old(connections) - {key}
                && remoteHosts == old(remoteHosts) - {old(connections)[key].host}
                && old(connections)[key].closed
              else
                && c == Abrupt(ClosedConnection)
                && connections == old(connections) && remoteHosts == old(remoteHosts)
      ensures var key := ToShort(connId);
              forall conn :: conn in old(connections.Values) ==>
                && conn.lastMsgTime == old(conn.lastMsgTime)
                && (key !in old(connections) || conn != old(connections)[key] ==> conn.closed == old(conn.closed))
      ensures idCounter == old(idCounter) && active == old(active)
      ensures old(Valid()) ==> Valid()
    {
      var key := ToShort(connId);
      var removed := KeyLookup(connections, BoxedShort(key));
      match removed
      case None =>
        c := Abrupt(ClosedConnection);
      case Some(conn) =>
        ghost var wasValid := Valid();
        connections := connections - {key};
        conn.Close();
        remoteHosts := remoteHosts - {conn.host};
        if wasValid {
          RemoveKeepsValid(old(connections), old(remoteHosts), key);
        }
        c := Normal;
    }

    /** `closeAll`: stops the server, closes every pooled connection (each
        once, in some order) and empties both collections. */
    method CloseAll()
      modifies this`active, this`connections, this`remoteHosts, connections.Values
      ensures !active && connections == map[] && remoteHosts == {}
      ensures forall conn :: conn in old(connections.Values) ==> conn.closed
      ensures forall conn :: conn in old(connections.Values) ==> conn.lastMsgTime == old(conn.lastMsgTime)
      ensures idCounter == old(idCounter)
      ensures old(Valid()) ==> Valid()
    {
      active := false;
      var pending := connections.Values;
      while pending != {}
        invariant pending <= old(connections.Values)
        invariant !active && connections == old(connections)
        invariant forall conn :: conn in old(connections.Values) - pending ==> conn.closed
        invariant forall conn :: conn in old(connections.Values) ==> conn.lastMsgTime == old(conn.lastMsgTime)
        decreases |pending|
      {
        var conn :| conn in pending;
        conn.Close();
        pending := pending - {conn};
      }
      connections := map[];
      remoteHosts := {};
    }

    /** ConnectionActions.closeConnection for the connection accepted as
        `actions.connId`: it calls closeConn with that id, which, as written,
        throws and leaves the pool as it is. */
    method ActionsCloseConnection(actions: Actions) returns (c: Completion)
      requires actions.ServerActions?
      ensures c == Abrupt(NullPointer)
    {
      c := CloseConn(actions.connId);
    }

    /** The same callback over the intended closeConn: the connection pooled
        under its own id is closed and leaves the pool with its host. */
    method ActionsCloseConnectionIntended(actions: Actions) returns (c: Completion)
      requires actions.ServerActions?
      modifies this`connections, this`remoteHosts, connections.Values
      ensures var key := actions.connId;
              if key in old(connections) then
                && c == Normal
                && connections == old(connections) - {key}
                && remoteHosts == old(remoteHosts) - {old(connections)[key].host}
                && old(connections)[key].closed
              else
                && c == Abrupt(ClosedConnection)
                && connections == old(connections) && remoteHosts == old(remoteHosts)
      ensures var key := actions.connId;
              forall conn :: conn in old(connections.Values) ==>
                && conn.lastMsgTime == old(conn.lastMsgTime)
                && (key !in old(connections) || conn != old(connections)[key] ==> conn.closed == old(conn.closed))
      ensures idCounter == old(idCounter) && active == old(active)
      ensures old(Valid()) ==> Valid()
    {
      c := CloseConnIntended(actions.connId);
    }
  }

  /** A CONNECT(0, 0) datagram, six bytes long. */
  function ConnectRequest(): (d: seq<byte>)
    ensures |d| == HeaderSize && ShortAt(d, 0) == CONNECT
    ensures CheckConnectHeader(d[2..]) == ZeroHeader
  {
    ConnectHeaderOfEncode(CONNECT, 0, 0, []);
    Encode(CONNECT, 0, 0, [])
  }

  /** The accepting-connection scenario: two CONNECTs from host 10, one from
      host 20, and a CONNECT with a non-zero id from host 30. Only the first
      request of each of hosts 10 and 20 is accepted, with ids 1 and 2. */
  method AcceptScenario() returns (ids: set<int16>, hosts: set<int32>, counter: int32)
    ensures ids == {1, 2} && hosts == {10, 20} && counter == 2
  {
    var server := new LspServer(0, Some(DefaultParams()));
    var connect := ConnectRequest();
    assert connect[2..6] == connect[2..];
    var c1 := server.ProcessPacket(connect, 6, 10, 0);
    var c2 := server.ProcessPacket(connect, 6, 10, 1);
    var c3 := server.ProcessPacket(connect, 6, 20, 2);
    var refused := Encode(CONNECT, 5, 0, []);
    ConnectHeaderOfEncode(CONNECT, 5, 0, []);
    assert refused[2..6] == refused[2..];
    var c4 := server.ProcessPacket(refused, 6, 30, 3);
    ids, hosts, counter := server.connections.Keys, server.remoteHosts, server.idCounter;
  }

  /** closeConn(1) after connection 1 was accepted: the call throws and the
      connection stays pooled and open. */
  method CloseConnScenario() returns (c: Completion, pooled: bool, open: bool)
    ensures c == Abrupt(NullPointer) && pooled && open
  {
    var server := new LspServer(0, Some(DefaultParams()));
    var connect := ConnectRequest();
    assert connect[2..6] == connect[2..];
    var accepted := server.ProcessPacket(connect, 6, 10, 0);
    var conn := server.connections[1];
    c := server.CloseConn(1);
    pooled := 1 in server.connections;
    open := !conn.closed;
  }

  /** The same call on the intended closeConn: the connection is closed and
      leaves the pool together with its host. */
  method CloseConnIntendedScenario() returns (c: Completion, pooled: bool, closed: bool, hosts: set<int32>)
    ensures c == Normal && !pooled && closed && hosts == {}
  {
    var server := new LspServer(0, Some(DefaultParams()));
    var connect := ConnectRequest();
    assert connect[2..6] == connect[2..];
    var accepted := server.ProcessPacket(connect, 6, 10, 0);
    var conn := server.connections[1];
    c := server.CloseConnIntended(1);
    pooled := 1 in server.connections;
    closed := conn.closed;
    hosts := server.remoteHosts;
  }

  /** Hosts of a pool. */
  ghost function HostsOf(m: map<int16, LspConnection>): set<int32>
  {
    set id | id in m :: m[id].host
  }

  /** Adding a connection under a fresh id for a host not yet present keeps
      the hosts in step and distinct. */
  lemma AcceptKeepsValid(m: map<int16, LspConnection>, hosts: set<int32>, newId: int16, conn: LspConnection)
    requires hosts == HostsOf(m) && newId !in m && conn.host !in hosts
    ensures HostsOf(m[newId := conn]) == hosts + {conn.host}
  {
    var m' := m[newId := conn];
    forall h | h in hosts + {conn.host} ensures h in HostsOf(m') {
      if h != conn.host {
        var id :| id in m && m[id].host == h;
        assert m'[id] == m[id];
      } else {
        assert m'[newId] == conn;
      }
    }
  }

  /** Removing a connection whose host no other connection has keeps the
      hosts in step. */
  lemma RemoveKeepsValid(m: map<int16, LspConnection>, hosts: set<int32>, key: int16)
    requires hosts == HostsOf(m) && key in m
    requires forall i, j :: i in m && j in m && i != j ==> m[i].host != m[j].host
    ensures HostsOf(m - {key}) == hosts - {m[key].host}
  {
    var m' := m - {key};
    forall h | h in hosts - {m[key].host} ensures h in HostsOf(m') {
      var id :| id in m && m[id].host == h;
      assert id != key;
      assert m'[id] == m[id];
    }
  }
}
