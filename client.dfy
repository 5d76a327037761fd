/** LspClient: the application's end of one connection. A single `active`
    flag gates reading and writing and makes `close` one-shot. The socket's
    input and output queues are not part of this model: `Read` is given the
    pack the input queue would yield, and `Write` returns the pack it would
    hand to the output queue. */
module Clients {
  import opened Java
  import opened Connections
  import opened InternalPacks

  class LspClient {
    /** The connection learned from the server's ACK at connect time. */
    const conn: LspConnection
    var active: bool

    /** A client whose handshake has yielded `conn`. */
    constructor (conn: LspConnection)
      ensures this.conn == conn && active
    {
      this.conn := conn;
      active := true;
    }

    /** `getConnId`: the id the server assigned to this client. */
    function GetConnId(): (id: int16)
      ensures id == conn.GetId()
    {
      conn.id
    }

    /** `checkActive`: throws ClosedConnectionException once closed. */
    method CheckActive() returns (c: Completion)
      ensures c == Normal <==> active
      ensures c.Abrupt? ==> c.exc == ClosedConnection
    {
      if !active {
        return Abrupt(ClosedConnection);
      }
      c := Normal;
    }

    /** `read`: the payload of the next incoming pack, if still active. */
    method Read(next: InternalPack) returns (r: Result<array<byte>>)
      ensures r.Throws? <==> !active
      ensures r.Throws? ==> r.exc == ClosedConnection
      ensures r.Ok? ==> r.value == next.GetPayload()
    {
      var c := CheckActive();
      if c.Abrupt? {
        return Throws(c.exc);
      }
      r := Ok(next.GetPayload());
    }

    /** `write`: if still active, wraps the payload (by reference) in a pack
        bound to this client's connection and not yet numbered. */
    method Write(payload: array<byte>) returns (r: Result<InternalPack>)
      ensures r.Throws? <==> !active
      ensures r.Throws? ==> r.exc == ClosedConnection
      ensures r.Ok? ==> fresh(r.value)
      ensures r.Ok? ==> && r.value.GetConnId() == conn.id && r.value.GetConnection() == conn
                        && r.value.GetSeqNum() == UNASSIGNED && r.value.GetPayload() == payload
    {
      var c := CheckActive();
      if c.Abrupt? {
        return Throws(c.exc);
      }
      var p := new InternalPack.Unnumbered(conn, payload);
      r := Ok(p);
    }

    /** `close`: succeeds once; every later call throws. Either way the
        client ends inactive. */
    method Close() returns (c: Completion)
      modifies this`active
      ensures c == if old(active) then Normal else Abrupt(ClosedConnection)
      ensures !active
    {
      c := CheckActive();
      if c.Abrupt? {
        return;
      }
      active := false;
    }

    /** The connection's close callback (`callCloseConnection` through
        `closeConn`): the same as `close`, so it throws when the application
        has already closed the client. */
    method CallCloseConnection() returns (c: Completion)
      modifies this`active
      ensures c == if old(active) then Normal else Abrupt(ClosedConnection)
      ensures !active
    {
      c := Close();
    }
  }

  /** A client on connection 1: the first close succeeds, a second close,
      the monitor's close callback, a read and a write then all throw. */
  method CloseScenario(conn: LspConnection, next: InternalPack, payload: array<byte>)
    returns (first: Completion, second: Completion, callback: Completion,
             read: Result<array<byte>>, write: Result<InternalPack>)
    ensures first == Normal
    ensures second == Abrupt(ClosedConnection) && callback == Abrupt(ClosedConnection)
    ensures read == Throws(ClosedConnection) && write == Throws(ClosedConnection)
  {
    var client := new LspClient(conn);
    first := client.Close();
    second := client.Close();
    callback := client.CallCloseConnection();
    read := client.Read(next);
    write := client.Write(payload);
  }
}
