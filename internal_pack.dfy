/** InternalPack: a Pack bound to the connection that sends it, with the
    sequence number the engine assigns (-1 until one is assigned). */
module InternalPacks {
  import opened Java
  import opened Packs
  import opened Connections

  /** The sequence number of a pack that has not been numbered yet. */
  const UNASSIGNED: int16 := -1

  class InternalPack {
    var connId: int16
    const payload: array<byte>
    var connection: LspConnection?
    var seqNum: int16

    /** `InternalPack(conn, seqNum, payload)`: the connection id is taken from
        the connection. */
    constructor (conn: LspConnection, seqNum: int16, payload: array<byte>)
      ensures GetConnId() == conn.GetId() && GetConnection() == conn
      ensures GetSeqNum() == seqNum && GetPayload() == payload
    {
      this.connId := conn.GetId();
      this.payload := payload;
      this.connection := conn;
      this.seqNum := seqNum;
    }

    /** `InternalPack(conn, payload)`: not numbered yet. */
    constructor Unnumbered(conn: LspConnection, payload: array<byte>)
      ensures GetConnId() == conn.GetId() && GetConnection() == conn
      ensures GetSeqNum() == UNASSIGNED && GetPayload() == payload
    {
      this.connId := conn.GetId();
      this.payload := payload;
      this.connection := conn;
      this.seqNum := UNASSIGNED;
    }

    /** `InternalPack(Pack)`: keeps the id and the payload reference; the
        connection stays null and the sequence number Java's default 0. */
    constructor FromPack(pack: Pack)
      ensures GetConnId() == pack.GetConnId() && GetPayload() == pack.GetPayload()
      ensures GetConnection() == null && GetSeqNum() == 0
    {
      this.connId := pack.GetConnId();
      this.payload := pack.GetPayload();
      this.connection := null;
      this.seqNum := 0;
    }

    function GetConnId(): (r: int16)
      reads this
      ensures r == connId
    {
      connId
    }

    function GetPayload(): (r: array<byte>)
      ensures r == payload
    {
      payload
    }

    function GetConnection(): (r: LspConnection?)
      reads this
      ensures r == connection
    {
      connection
    }

    function GetSeqNum(): (r: int16)
      reads this
      ensures r == seqNum
    {
      seqNum
    }

    /** Inherited from Pack: changes the id only. */
    method SetConnId(connId: int16)
      modifies this`connId
      ensures GetConnId() == connId
      ensures GetConnection() == old(GetConnection()) && GetSeqNum() == old(GetSeqNum())
    {
      this.connId := connId;
    }

    /** Rebinds the pack; the connection id is NOT updated to match. */
    method SetConnection(conn: LspConnection?)
      modifies this`connection
      ensures GetConnection() == conn
      ensures GetConnId() == old(GetConnId()) && GetSeqNum() == old(GetSeqNum())
    {
      this.connection := conn;
    }

    method SetSeqNum(seqNum: int16)
      modifies this`seqNum
      ensures GetSeqNum() == seqNum
      ensures GetConnId() == old(GetConnId()) && GetConnection() == old(GetConnection())
    {
      this.seqNum := seqNum;
    }
  }
}
