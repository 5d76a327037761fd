/** The part of java.nio.ByteBuffer that the LSP codec uses: allocate/wrap,
    relative big-endian puts and gets, read-only views and slices. */
module ByteBuffers {
  import opened Java

  /** What a buffer holds at one moment: its backing bytes (capacity is their
      number), its position and limit, and whether it is a read-only view. */
  datatype View = View(content: seq<byte>, position: nat, limit: nat, readOnly: bool)
  {
    ghost predicate Valid() {
      position <= limit <= |content|
    }

    /** The bytes between position and limit. */
    function Remaining(): seq<byte>
      requires Valid()
    {
      content[position..limit]
    }
  }

  function Zeros(n: nat): (z: seq<byte>)
    ensures |z| == n
  {
    seq(n, _ => 0)
  }

  class ByteBuffer {
    var content: seq<byte>
    var position: nat
    var limit: nat
    var readOnly: bool

    ghost predicate Valid()
      reads this
    {
      position <= limit <= |content|
    }

    function State(): View
      reads this
    {
      View(content, position, limit, readOnly)
    }

    function Remaining(): (r: seq<byte>)
      reads this
      requires Valid()
      ensures r == State().Remaining()
    {
      content[position..limit]
    }

    /** ByteBuffer.allocate(capacity): zero-filled, position 0, limit = capacity. */
    constructor Allocate(capacity: nat)
      ensures Valid() && State() == View(Zeros(capacity), 0, capacity, false)
    {
      content, position, limit, readOnly := Zeros(capacity), 0, capacity, false;
    }

    /** ByteBuffer.wrap(data, 0, length): backed by all of `data`, limit = length. */
    constructor Wrap(data: seq<byte>, length: nat)
      requires length <= |data|
      ensures Valid() && State() == View(data, 0, length, false)
    {
      content, position, limit, readOnly := data, 0, length, false;
    }

    constructor OfView(v: View)
      requires v.Valid()
      ensures Valid() && State() == v
    {
      content, position, limit, readOnly := v.content, v.position, v.limit, v.readOnly;
    }

    /** asReadOnlyBuffer(): same bytes, position and limit; writes refused. */
    method AsReadOnlyBuffer() returns (b: ByteBuffer)
      requires Valid()
      ensures fresh(b) && b.Valid() && b.State() == State().(readOnly := true)
    {
      b := new ByteBuffer.OfView(State().(readOnly := true));
    }

    /** slice(): a buffer over exactly the remaining bytes, positioned at 0. */
    method Slice() returns (b: ByteBuffer)
      requires Valid()
      ensures fresh(b) && b.Valid()
      ensures b.State() == View(Remaining(), 0, |Remaining()|, readOnly)
    {
      var rest := content[position..limit];
      b := new ByteBuffer.OfView(View(rest, 0, |rest|, readOnly));
    }

    /** getShort(): the next two bytes, big-endian; throws when fewer remain. */
    method GetShort() returns (r: Result<int16>)
      requires Valid()
      modifies this`position
      ensures Valid()
      ensures |old(Remaining())| < 2 ==> r == Throws(BufferUnderflow) && position == old(position)
      ensures |old(Remaining())| >= 2 ==>
                r == Ok(ShortAt(old(Remaining()), 0)) && position == old(position) + 2
    {
      if limit - position < 2 {
        r := Throws(BufferUnderflow);
      } else {
        r := Ok(ShortFrom(content[position], content[position + 1]));
        position := position + 2;
      }
    }

    /** get(): the next byte; throws when none remains. */
    method Get() returns (r: Result<byte>)
      requires Valid()
      modifies this`position
      ensures Valid()
      ensures |old(Remaining())| == 0 ==> r == Throws(BufferUnderflow) && position == old(position)
      ensures |old(Remaining())| > 0 ==>
                r == Ok(old(Remaining())[0]) && position == old(position) + 1
    {
      if limit == position {
        r := Throws(BufferUnderflow);
      } else {
        r := Ok(content[position]);
        position := position + 1;
      }
    }

    /** putShort(v) on a writable buffer with room for it. */
    method PutShort(v: int16)
      requires Valid() && !readOnly && position + 2 <= limit
      modifies this`content, this`position
      ensures Valid()
      ensures content == old(content[..position]) + ShortBytes(v) + old(content[position + 2..])
      ensures position == old(position) + 2
    {
      content := content[..position] + ShortBytes(v) + content[position + 2..];
      position := position + 2;
    }

    /** put(src) on a writable buffer with room for all of `src`. */
    method Put(src: seq<byte>)
      requires Valid() && !readOnly && position + |src| <= limit
      modifies this`content, this`position
      ensures Valid()
      ensures content == old(content[..position]) + src + old(content[position + |src|..])
      ensures position == old(position) + |src|
    {
      content := content[..position] + src + content[position + |src|..];
      position := position + |src|;
    }
  }
}
