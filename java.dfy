/** Java's fixed-width integers, the exceptions the LSP core raises, and the
    big-endian 16-bit layout that java.nio.ByteBuffer uses for getShort/putShort. */
module Java {

  /** One octet, as its unsigned bit pattern (Java's signed byte reads the same bits). */
  type byte = x: int | 0 <= x < 0x100

  /** Java short. */
  type int16 = x: int | -0x8000 <= x < 0x8000

  /** Java int. */
  type int32 = x: int | -0x8000_0000 <= x < 0x8000_0000

  /** Java long. */
  type int64 = x: int | -0x8000_0000_0000_0000 <= x < 0x8000_0000_0000_0000

  datatype Option<T> = None | Some(value: T)

  /** The exceptions the modelled code can raise. */
  datatype Exception =
    | NullPointer         // java.lang.NullPointerException
    | BufferUnderflow     // java.nio.BufferUnderflowException
    | ClosedConnection    // lsp.ClosedConnectionException
    | IllegalArgument     // java.lang.IllegalArgumentException

  /** A call that returns a value or completes abruptly with an exception. */
  datatype Result<T> = Ok(value: T) | Throws(exc: Exception)

  /** A call without a value: it completes normally or abruptly. */
  datatype Completion = Normal | Abrupt(exc: Exception)

  /** The cast `(short) x`: keeps the low 16 bits and reads them as two's complement. */
  function ToShort(x: int): (r: int16)
    ensures (r - x) % 0x1_0000 == 0
    ensures -0x8000 <= x < 0x8000 ==> r == x
  {
    var u := x % 0x1_0000;
    if u < 0x8000 then u else u - 0x1_0000
  }

  /** Java int arithmetic: the low 32 bits of `x`, read as two's complement. */
  function WrapInt(x: int): (r: int32)
    ensures (r - x) % 0x1_0000_0000 == 0
    ensures -0x8000_0000 <= x < 0x8000_0000 ==> r == x
  {
    var u := x % 0x1_0000_0000;
    if u < 0x8000_0000 then u else u - 0x1_0000_0000
  }

  /** The short whose big-endian bytes are `hi`, `lo` (ByteBuffer.getShort). */
  function ShortFrom(hi: byte, lo: byte): (v: int16)
    ensures v % 0x1_0000 == hi * 0x100 + lo
    ensures v < 0 <==> hi >= 0x80
  {
    var u := hi * 0x100 + lo;
    if u < 0x8000 then u else u - 0x1_0000
  }

  /** The two big-endian bytes of `v` (ByteBuffer.putShort). */
  function ShortBytes(v: int16): (r: seq<byte>)
    ensures |r| == 2
    ensures ShortFrom(r[0], r[1]) == v
  {
    var u := v % 0x1_0000;
    [u / 0x100, u % 0x100]
  }

  /** The short stored big-endian at offset `i` of `d`. */
  function ShortAt(d: seq<byte>, i: nat): (v: int16)
    requires i + 2 <= |d|
    ensures v == ShortFrom(d[i], d[i + 1])
  {
    ShortFrom(d[i], d[i + 1])
  }

  /** Reading two bytes as a short and writing it back gives the same two bytes. */
  lemma BytesRoundTrip(hi: byte, lo: byte)
    ensures ShortBytes(ShortFrom(hi, lo)) == [hi, lo]
  {
    var u := hi * 0x100 + lo;
    var v: int := ShortFrom(hi, lo);
    assert v % 0x1_0000 == u by {
      if u >= 0x8000 {
        assert v == u - 0x1_0000;
      }
    }
    DivModByte(u, hi, lo);
  }

  /** Splitting a number into its high part and low byte. */
  lemma DivModByte(u: int, hi: int, lo: int)
    requires 0 <= lo < 0x100 && u == hi * 0x100 + lo
    ensures u / 0x100 == hi && u % 0x100 == lo
  {
  }
}
