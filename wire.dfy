/** The LSP datagram layout shared by both socket drafts: three big-endian
    shorts (message type, connection id, sequence number), then the payload. */
module Wire {
  import opened Java
  import opened ByteBuffers

  const CONNECT: int16 := 0
  const DATA: int16 := 1
  const ACK: int16 := 2

  /** Bytes before the payload. */
  const HeaderSize: nat := 6

  /** The datagram that `send` builds for these fields and payload. */
  function Encode(msgType: int16, connId: int16, seqNum: int16, payload: seq<byte>): (d: seq<byte>)
    ensures |d| == HeaderSize + |payload|
    ensures ShortAt(d, 0) == msgType && ShortAt(d, 2) == connId && ShortAt(d, 4) == seqNum
    ensures d[HeaderSize..] == payload
  {
    ShortBytes(msgType) + ShortBytes(connId) + ShortBytes(seqNum) + payload
  }

  /** Every datagram of at least six bytes is the encoding of the fields it
      carries: a header read back and re-encoded gives the same bytes. */
  lemma EncodeOfFields(d: seq<byte>)
    requires |d| >= HeaderSize
    ensures Encode(ShortAt(d, 0), ShortAt(d, 2), ShortAt(d, 4), d[HeaderSize..]) == d
  {
    BytesRoundTrip(d[0], d[1]);
    BytesRoundTrip(d[2], d[3]);
    BytesRoundTrip(d[4], d[5]);
    assert d == d[0..2] + d[2..4] + d[4..6] + d[6..];
  }

  /** Encoding is one-to-one: equal datagrams come from equal fields. */
  lemma EncodeInjective(t: int16, c: int16, s: int16, p: seq<byte>,
                        t': int16, c': int16, s': int16, p': seq<byte>)
    requires Encode(t, c, s, p) == Encode(t', c', s', p')
    ensures t == t' && c == c' && s == s' && p == p'
  {
  }

  /** The three handlers a received datagram can be dispatched to. */
  datatype Handler = ReceiveConnect | ReceiveData | ReceiveAck

  /** The `switch` on the message type: CONNECT, DATA and ACK have a handler;
      every other value falls through with no case. */
  function HandlerFor(msgType: int16): (h: Option<Handler>)
    ensures h == Some(ReceiveConnect) <==> msgType == CONNECT
    ensures h == Some(ReceiveData) <==> msgType == DATA
    ensures h == Some(ReceiveAck) <==> msgType == ACK
    ensures h.None? <==> msgType !in {CONNECT, DATA, ACK}
  {
    if msgType == CONNECT then Some(ReceiveConnect)
    else if msgType == DATA then Some(ReceiveData)
    else if msgType == ACK then Some(ReceiveAck)
    else None
  }

  /** The message type a handler serves. */
  function TypeOf(h: Handler): (t: int16)
    ensures HandlerFor(t) == Some(h)
  {
    match h
    case ReceiveConnect => CONNECT
    case ReceiveData => DATA
    case ReceiveAck => ACK
  }

  /** What processing one received datagram does: the exception that escapes
      the receive loop, a type that no case matches, or the handler called and
      the state of the buffer it is handed. */
  datatype Delivery =
    | Escapes(exc: Exception)
    | Ignored(msgType: int16)
    | Delivered(handler: Handler, buf: View)

  /** How the server's CONNECT handler reads the two shorts after the type:
      `getShort() == 0 && getShort() == 0`, so the second short is read only
      when the first is zero, and each read throws when the datagram ends. */
  datatype ConnectHeader = HeaderUnderflow | NonZeroHeader | ZeroHeader

  function CheckConnectHeader(rest: seq<byte>): (r: ConnectHeader)
    ensures r == ZeroHeader <==> |rest| >= 4 && ShortAt(rest, 0) == 0 && ShortAt(rest, 2) == 0
    ensures r == HeaderUnderflow <==> |rest| < 2 || (ShortAt(rest, 0) == 0 && |rest| < 4)
  {
    if |rest| < 2 then HeaderUnderflow
    else if ShortAt(rest, 0) != 0 then NonZeroHeader
    else if |rest| < 4 then HeaderUnderflow
    else if ShortAt(rest, 2) != 0 then NonZeroHeader
    else ZeroHeader
  }

  /** For an encoded datagram the header check accepts exactly CONNECT(0, 0)
      whatever the type and payload, and never underflows. */
  lemma ConnectHeaderOfEncode(t: int16, c: int16, s: int16, p: seq<byte>)
    ensures var rest := Encode(t, c, s, p)[2..];
            CheckConnectHeader(rest) == if c == 0 && s == 0 then ZeroHeader else NonZeroHeader
  {
    var d := Encode(t, c, s, p);
    var rest := d[2..];
    assert rest[0] == d[2] && rest[1] == d[3] && rest[2] == d[4] && rest[3] == d[5];
  }

  /** A datagram that ends after the connection id is refused with an
      underflow only when that id is zero; with a non-zero id the second read
      never happens. */
  lemma ShortConnectHeader(rest: seq<byte>)
    requires 2 <= |rest| < 4
    ensures CheckConnectHeader(rest) == if ShortAt(rest, 0) == 0 then HeaderUnderflow else NonZeroHeader
  {
  }
}
