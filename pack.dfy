/** Pack: the application-visible unit, a connection id and a payload array. */
module Packs {
  import opened Java

  class Pack {
    var connId: int16
    /** Final reference: the caller's array itself, not a copy. */
    const payload: array<byte>

    constructor (connId: int16, payload: array<byte>)
      ensures GetConnId() == connId && GetPayload() == payload
    {
      this.connId := connId;
      this.payload := payload;
    }

    function GetConnId(): (r: int16)
      reads this
      ensures r == connId
    {
      connId
    }

    function GetPayload(): (r: array<byte>)
      ensures r == payload
    {
      payload
    }

    /** Changes the connection id and nothing else; the payload reference and
        the bytes it holds are untouched. */
    method SetConnId(connId: int16)
      modifies this`connId
      ensures GetConnId() == connId
      ensures payload[..] == old(payload[..])
    {
      this.connId := connId;
    }
  }
}
