/** ConnectionTriggers.Helpers: what one epoch retransmits for a connection.
    The connection's pending pack (`sent()`) and the last sequence number it
    received (`receivedSeqNum()`, -1 when none) are the helpers' inputs. */
module Triggers {
  import opened Java
  import opened InternalPacks
  import opened Connections

  /** A datagram handed to the socket: a data pack, or an ACK for a connection. */
  datatype Resend = DataResend(pack: InternalPack) | AckResend(conn: LspConnection, seqNum: int16)

  /** The sentinel for "no data received yet". */
  const NONE_RECEIVED: int16 := -1

  /** resendData: the pending pack, unchanged, if there is one; else nothing. */
  function ResendData(sent: InternalPack?): (out: seq<Resend>)
    ensures |out| <= 1
    ensures sent != null <==> |out| == 1
    ensures forall d :: d in out ==> d == DataResend(sent)
  {
    if sent != null then [DataResend(sent)] else []
  }

  /** resendAck: exactly one ACK for the connection, carrying the last received
      sequence number, or 0 when nothing was received. */
  function ResendAck(conn: LspConnection, receivedSeqNum: int16): (out: seq<Resend>)
    ensures |out| == 1 && out[0].AckResend? && out[0].conn == conn
    ensures out[0].seqNum != NONE_RECEIVED
    ensures receivedSeqNum != NONE_RECEIVED ==> out[0].seqNum == receivedSeqNum
    ensures out[0].seqNum == 0 <==> receivedSeqNum in {NONE_RECEIVED, 0}
  {
    if receivedSeqNum != NONE_RECEIVED then [AckResend(conn, receivedSeqNum)]
    else [AckResend(conn, 0)]
  }

  /** One epoch's retransmissions: the pending data pack if any, then one ACK. */
  lemma EpochRetransmission(conn: LspConnection, sent: InternalPack?, receivedSeqNum: int16)
    ensures var out := ResendData(sent) + ResendAck(conn, receivedSeqNum);
            && |out| == (if sent == null then 1 else 2)
            && out[|out| - 1].AckResend?
            && (sent != null ==> out[0] == DataResend(sent))
  {
  }
}
