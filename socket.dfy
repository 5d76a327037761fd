/** LspSocket: the queue-backed socket draft. `send` builds a datagram with
    ByteBuffer puts; `receive` reads the type and hands each handler a
    read-only slice of the rest. The DatagramSocket itself is modelled by the
    datagrams handed to it (`sent`) and by the bytes a receive returns. */
module Sockets {
  import opened Java
  import opened ByteBuffers
  import opened Wire
  import opened InternalPacks

  /** The default capacity of the input and output queues, in packs. */
  const QUEUE_SIZE: int32 := 50

  /** The ports a DatagramSocket can be bound to. */
  predicate ValidPort(port: int32)
  {
    0 <= port <= 0xFFFF
  }

  /** The receive of one datagram of `length` bytes received into `data`:
      a datagram too short for a type escapes with an underflow; CONNECT, DATA
      and ACK go to their handler with a read-only slice of the bytes after
      the type; any other type matches no case. */
  function SocketDelivery(data: seq<byte>, length: nat): (d: Delivery)
    requires length <= |data|
    ensures length < 2 <==> d == Escapes(BufferUnderflow)
    ensures length >= 2 ==> (d.Ignored? <==> HandlerFor(ShortAt(data, 0)).None?)
    ensures d.Ignored? ==> d.msgType == ShortAt(data, 0)
    ensures d.Delivered? ==> Some(d.handler) == HandlerFor(ShortAt(data, 0))
    ensures d.Delivered? ==> d.buf.Valid() && d.buf.Remaining() == data[2..length]
    ensures d.Delivered? ==> d.buf.position == 0 && d.buf.limit == length - 2 && d.buf.readOnly
  {
    if length < 2 then Escapes(BufferUnderflow)
    else match HandlerFor(ShortAt(data, 0))
      case None => Ignored(ShortAt(data, 0))
      case Some(h) => Delivered(h, View(data[2..length], 0, length - 2, true))
  }

  class LspSocket {
    /** Capacity of each of the two queues. */
    const queueSize: int32
    /** Datagrams handed to the DatagramSocket, oldest first. */
    var sent: seq<seq<byte>>

    /** The object once its socket is bound and both queues exist. */
    constructor Sized(queueSize: int32)
      requires queueSize >= 1
      ensures this.queueSize == queueSize && sent == []
    {
      this.queueSize := queueSize;
      sent := [];
    }

    /** `LspSocket(port, queueSize)`: `new DatagramSocket(port)` refuses a port
        outside 0..65535 and an ArrayBlockingQueue a capacity below one, both
        with IllegalArgumentException. */
    static method WithQueueSize(port: int32, queueSize: int32) returns (r: Result<LspSocket>)
      ensures r.Throws? <==> !ValidPort(port) || queueSize < 1
      ensures r.Throws? ==> r.exc == IllegalArgument
      ensures r.Ok? ==> fresh(r.value) && r.value.queueSize == queueSize && r.value.sent == []
    {
      if !ValidPort(port) || queueSize < 1 {
        r := Throws(IllegalArgument);
      } else {
        var s := new LspSocket.Sized(queueSize);
        r := Ok(s);
      }
    }

    /** `LspSocket(port)`: the same with queues of the default capacity. */
    static method Create(port: int32) returns (r: Result<LspSocket>)
      ensures r.Throws? <==> !ValidPort(port)
      ensures r.Throws? ==> r.exc == IllegalArgument
      ensures r.Ok? ==> fresh(r.value) && r.value.queueSize == QUEUE_SIZE && r.value.sent == []
    {
      r := WithQueueSize(port, QUEUE_SIZE);
    }

    /** `send`: a buffer of 6 + |payload| bytes filled by three putShorts and
        one put, whose whole backing array becomes the datagram. */
    method Send(msgType: int16, connId: int16, seqNum: int16, payload: seq<byte>)
      modifies this`sent
      ensures sent == old(sent) + [Encode(msgType, connId, seqNum, payload)]
    {
      var buf := new ByteBuffer.Allocate(HeaderSize + |payload|);
      buf.PutShort(msgType);
      buf.PutShort(connId);
      buf.PutShort(seqNum);
      buf.Put(payload);
      assert buf.content == ShortBytes(msgType) + ShortBytes(connId) + ShortBytes(seqNum) + payload;
      sent := sent + [buf.content];
    }

    /** A CONNECT carries no payload: exactly the six header bytes. */
    method SendConnect(connId: int16, seqNum: int16)
      modifies this`sent
      ensures sent == old(sent) + [Encode(CONNECT, connId, seqNum, [])]
      ensures |sent[|sent| - 1]| == HeaderSize
    {
      Send(CONNECT, connId, seqNum, []);
    }

    method SendData(connId: int16, seqNum: int16, payload: array<byte>)
      modifies this`sent
      ensures sent == old(sent) + [Encode(DATA, connId, seqNum, payload[..])]
    {
      Send(DATA, connId, seqNum, payload[..]);
    }

    /** A data pack goes out with its own id, sequence number and payload. */
    method SendDataPack(p: InternalPack)
      modifies this`sent
      ensures sent == old(sent) + [Encode(DATA, p.GetConnId(), p.GetSeqNum(), p.GetPayload()[..])]
    {
      SendData(p.GetConnId(), p.GetSeqNum(), p.GetPayload());
    }

    /** An ACK carries no payload: exactly the six header bytes. */
    method SendAck(connId: int16, seqNum: int16)
      modifies this`sent
      ensures sent == old(sent) + [Encode(ACK, connId, seqNum, [])]
      ensures |sent[|sent| - 1]| == HeaderSize
    {
      Send(ACK, connId, seqNum, []);
    }

    /** The ACK for a pack: its id and sequence number, no payload. */
    method SendAckPack(p: InternalPack)
      modifies this`sent
      ensures sent == old(sent) + [Encode(ACK, p.GetConnId(), p.GetSeqNum(), [])]
    {
      SendAck(p.GetConnId(), p.GetSeqNum());
    }

    /** `receive`, after the DatagramSocket has filled `data` with `length`
        bytes: wrap, make read-only, read the type, dispatch with a slice. */
    method Receive(data: seq<byte>, length: nat) returns (d: Delivery)
      requires length <= |data|
      ensures d == SocketDelivery(data, length)
    {
      var wrapped := new ByteBuffer.Wrap(data, length);
      var buf := wrapped.AsReadOnlyBuffer();
      var msgType := buf.GetShort();
      match msgType
      case Throws(e) =>
        d := Escapes(e);
      case Ok(t) =>
        if t == CONNECT {
          var rest := buf.Slice();
          d := Delivered(ReceiveConnect, rest.State());
        } else if t == DATA {
          var rest := buf.Slice();
          d := Delivered(ReceiveData, rest.State());
        } else if t == ACK {
          var rest := buf.Slice();
          d := Delivered(ReceiveAck, rest.State());
        } else {
          d := Ignored(t);
        }
    }

    /** `payload(buf)`: copies the remaining bytes, in order, into a new array
        by successive `get`s, leaving nothing remaining. */
    static method Payload(buf: ByteBuffer) returns (bs: array<byte>)
      requires buf.Valid()
      modifies buf`position
      ensures fresh(bs) && bs[..] == old(buf.Remaining())
      ensures buf.Valid() && buf.position == buf.limit
    {
      bs := new byte[buf.limit - buf.position](_ => 0);
      var i := 0;
      while i < bs.Length
        invariant 0 <= i <= bs.Length
        invariant buf.Valid() && buf.limit == old(buf.limit) && buf.content == old(buf.content)
        invariant buf.position == old(buf.position) + i
        invariant bs[..i] == old(buf.Remaining())[..i]
      {
        var b := buf.Get();
        bs[i] := b.value;
        i := i + 1;
      }
    }
  }

  /** Round trip: a received datagram that is the encoding of a CONNECT, DATA
      or ACK reaches that type's handler with a read-only buffer at offset 0
      that reads the connection id, then the sequence number, then exactly
      the payload. */
  lemma ReceiveOfEncode(t: int16, c: int16, s: int16, p: seq<byte>, data: seq<byte>, length: nat)
    requires t in {CONNECT, DATA, ACK}
    requires length <= |data| && data[..length] == Encode(t, c, s, p)
    ensures var d := SocketDelivery(data, length);
            && d.Delivered? && Some(d.handler) == HandlerFor(t)
            && d.buf.position == 0 && d.buf.readOnly && d.buf.Valid()
            && |d.buf.Remaining()| == 4 + |p|
            && ShortAt(d.buf.Remaining(), 0) == c && ShortAt(d.buf.Remaining(), 2) == s
            && d.buf.Remaining()[4..] == p
  {
    var e := Encode(t, c, s, p);
    assert data[..length] == e;
    assert data[0] == e[0] && data[1] == e[1];
    var rest := data[2..length];
    assert rest == e[2..];
    assert rest[0] == e[2] && rest[1] == e[3] && rest[2] == e[4] && rest[3] == e[5];
    assert rest[4..] == e[HeaderSize..];
  }

  /** A datagram whose type is none of the three reaches no handler. */
  lemma ReceiveOfUnknownType(t: int16, c: int16, s: int16, p: seq<byte>, data: seq<byte>, length: nat)
    requires t !in {CONNECT, DATA, ACK}
    requires length <= |data| && data[..length] == Encode(t, c, s, p)
    ensures SocketDelivery(data, length) == Ignored(t)
  {
    var e := Encode(t, c, s, p);
    assert data[0] == e[0] && data[1] == e[1];
  }
}
