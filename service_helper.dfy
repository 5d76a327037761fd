/** ServiceHelper: the older socket draft. Encoding is the same as
    LspSocket's; `receivePacket` hands each handler the whole read-only
    buffer, positioned after the type, instead of a slice. */
module Helpers {
  import opened Java
  import opened ByteBuffers
  import opened Wire
  import opened InternalPacks
  import Sockets

  /** `receivePacket` on a datagram of `length` bytes received into `data`:
      the handler gets a buffer over all of `data`, at position 2 and limited
      to the datagram's length. */
  function HelperDelivery(data: seq<byte>, length: nat): (d: Delivery)
    requires length <= |data|
    ensures length < 2 <==> d == Escapes(BufferUnderflow)
    ensures length >= 2 ==> (d.Ignored? <==> HandlerFor(ShortAt(data, 0)).None?)
    ensures d.Ignored? ==> d.msgType == ShortAt(data, 0)
    ensures d.Delivered? ==> Some(d.handler) == HandlerFor(ShortAt(data, 0))
    ensures d.Delivered? ==> d.buf.Valid() && d.buf.Remaining() == data[2..length]
    ensures d.Delivered? ==> && d.buf.content == data && d.buf.position == 2
                             && d.buf.limit == length && d.buf.readOnly
  {
    if length < 2 then Escapes(BufferUnderflow)
    else match HandlerFor(ShortAt(data, 0))
      case None => Ignored(ShortAt(data, 0))
      case Some(h) => Delivered(h, View(data, 2, length, true))
  }

  class ServiceHelper {
    /** Datagrams handed to the DatagramSocket, oldest first. */
    const port: int32
    var sent: seq<seq<byte>>

    /** It records the port; the socket is bound later, by `start`. */
    constructor (port: int32)
      ensures this.port == port && sent == []
    {
      this.port := port;
      sent := [];
    }

    /** `send`: the same buffer fill as LspSocket's. */
    method Send(msgType: int16, connId: int16, seqNum: int16, payload: seq<byte>)
      modifies this`sent
      ensures sent == old(sent) + [Encode(msgType, connId, seqNum, payload)]
    {
      var buf := new ByteBuffer.Allocate(HeaderSize + |payload|);
      buf.PutShort(msgType);
      buf.PutShort(connId);
      buf.PutShort(seqNum);
      buf.Put(payload);
      assert buf.content == ShortBytes(msgType) + ShortBytes(connId) + ShortBytes(seqNum) + payload;
      sent := sent + [buf.content];
    }

    method SendConnect(connId: int16, seqNum: int16)
      modifies this`sent
      ensures sent == old(sent) + [Encode(CONNECT, connId, seqNum, [])]
      ensures |sent[|sent| - 1]| == HeaderSize
    {
      Send(CONNECT, connId, seqNum, []);
    }

    method SendData(connId: int16, seqNum: int16, payload: array<byte>)
      modifies this`sent
      ensures sent == old(sent) + [Encode(DATA, connId, seqNum, payload[..])]
    {
      Send(DATA, connId, seqNum, payload[..]);
    }

    method SendDataPack(p: InternalPack)
      modifies this`sent
      ensures sent == old(sent) + [Encode(DATA, p.GetConnId(), p.GetSeqNum(), p.GetPayload()[..])]
    {
      SendData(p.GetConnId(), p.GetSeqNum(), p.GetPayload());
    }

    method SendAck(connId: int16, seqNum: int16)
      modifies this`sent
      ensures sent == old(sent) + [Encode(ACK, connId, seqNum, [])]
      ensures |sent[|sent| - 1]| == HeaderSize
    {
      Send(ACK, connId, seqNum, []);
    }

    /** `receivePacket`: wrap, make read-only, read the type, dispatch the
        buffer itself. */
    method ReceivePacket(data: seq<byte>, length: nat) returns (d: Delivery)
      requires length <= |data|
      ensures d == HelperDelivery(data, length)
    {
      var wrapped := new ByteBuffer.Wrap(data, length);
      var buf := wrapped.AsReadOnlyBuffer();
      var msgType := buf.GetShort();
      match msgType
      case Throws(e) =>
        d := Escapes(e);
      case Ok(t) =>
        if t == CONNECT {
          d := Delivered(ReceiveConnect, buf.State());
        } else if t == DATA {
          d := Delivered(ReceiveData, buf.State());
        } else if t == ACK {
          d := Delivered(ReceiveAck, buf.State());
        } else {
          d := Ignored(t);
        }
    }

    /** `getPayload(buf)`: the remaining bytes, in order, in a new array. */
    static method GetPayload(buf: ByteBuffer) returns (bs: array<byte>)
      requires buf.Valid()
      modifies buf`position
      ensures fresh(bs) && bs[..] == old(buf.Remaining())
      ensures buf.Valid() && buf.position == buf.limit
    {
      bs := new byte[buf.limit - buf.position](_ => 0);
      var i := 0;
      while i < bs.Length
        invariant 0 <= i <= bs.Length
        invariant buf.Valid() && buf.limit == old(buf.limit) && buf.content == old(buf.content)
        invariant buf.position == old(buf.position) + i
        invariant bs[..i] == old(buf.Remaining())[..i]
      {
        var b := buf.Get();
        bs[i] := b.value;
        i := i + 1;
      }
    }
  }

  /** Round trip: an encoded CONNECT, DATA or ACK reaches its handler with the
      full buffer at offset 2, from which the id, the sequence number and then
      exactly the payload remain to be read. */
  lemma ReceivePacketOfEncode(t: int16, c: int16, s: int16, p: seq<byte>, data: seq<byte>, length: nat)
    requires t in {CONNECT, DATA, ACK}
    requires length <= |data| && data[..length] == Encode(t, c, s, p)
    ensures var d := HelperDelivery(data, length);
            && d.Delivered? && Some(d.handler) == HandlerFor(t)
            && d.buf.position == 2 && d.buf.limit == length && d.buf.content == data
            && d.buf.readOnly && d.buf.Valid()
            && ShortAt(d.buf.Remaining(), 0) == c && ShortAt(d.buf.Remaining(), 2) == s
            && d.buf.Remaining()[4..] == p
  {
    Sockets.ReceiveOfEncode(t, c, s, p, data, length);
  }

  /** The two drafts agree on everything but the buffer's frame: the same
      exception, the same ignored type, the same handler and the same
      remaining bytes; LspSocket's slice starts at 0 and holds only those
      bytes, ServiceHelper's buffer starts at 2 over the whole array. */
  lemma DraftsAgree(data: seq<byte>, length: nat)
    requires length <= |data|
    ensures var a := Sockets.SocketDelivery(data, length);
            var b := HelperDelivery(data, length);
            && a.Escapes? == b.Escapes? && a.Ignored? == b.Ignored? && a.Delivered? == b.Delivered?
            && (a.Ignored? ==> a.msgType == b.msgType)
            && (a.Delivered? ==> a.handler == b.handler && a.buf.Remaining() == b.buf.Remaining()
                                 && a.buf.position == 0 && b.buf.position == 2)
  {
  }
}
