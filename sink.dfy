/**
 * A destination byte stream (a `java.io.OutputStream` that some other code
 * supplies): the delegate of the transactional buffer and of the uncloseable
 * wrapper, and the stream a receiver hands out for an upload. It records
 * every write call it accepts, how often it was flushed, and whether it was
 * closed; a closed stream refuses writes and flushes with an IOException.
 */
module Sinks {
  import opened Common

  class Sink {
    /** The payload of every accepted write call, in call order. */
    var writes: seq<seq<byte>>
    var flushes: nat
    var closed: bool

    /** Everything the stream has received so far. */
    function Data(): seq<byte>
      reads this
    {
      Concat(writes)
    }

    constructor ()
      ensures writes == [] && flushes == 0 && !closed
    {
      writes, flushes, closed := [], 0, false;
    }

    /** `write(byte[] b)`. */
    method Write(b: seq<byte>) returns (err: Option<Exception>)
      modifies this
      ensures err == (if old(closed) then Some(IOFault) else None)
      ensures writes == (if old(closed) then old(writes) else old(writes) + [b])
      ensures err.None? ==> Data() == old(Data()) + b
      ensures flushes == old(flushes) && closed == old(closed)
    {
      if closed {
        return Some(IOFault);
      }
      writes := writes + [b];
      err := None;
    }

    /** `write(int b)`: one byte, the low eight bits of `b`. */
    method WriteByte(b: int) returns (err: Option<Exception>)
      modifies this
      ensures err == (if old(closed) then Some(IOFault) else None)
      ensures writes == (if old(closed) then old(writes) else old(writes) + [[ToByte(b)]])
      ensures flushes == old(flushes) && closed == old(closed)
    {
      err := Write([ToByte(b)]);
    }

    /** `write(byte[] b, int off, int len)`: the range is checked before anything is written. */
    method WriteRange(b: seq<byte>, off: int, len: int) returns (err: Option<Exception>)
      modifies this
      ensures !ValidRange(|b|, off, len) ==> err == Some(IndexOutOfBounds) && writes == old(writes)
      ensures ValidRange(|b|, off, len) && old(closed) ==> err == Some(IOFault) && writes == old(writes)
      ensures ValidRange(|b|, off, len) && !old(closed) ==>
                err == None && writes == old(writes) + [b[off..off + len]]
      ensures flushes == old(flushes) && closed == old(closed)
    {
      if !ValidRange(|b|, off, len) {
        return Some(IndexOutOfBounds);
      }
      err := Write(b[off..off + len]);
    }

    method Flush() returns (err: Option<Exception>)
      modifies this
      ensures err == (if old(closed) then Some(IOFault) else None)
      ensures flushes == (if old(closed) then old(flushes) else old(flushes) + 1)
      ensures writes == old(writes) && closed == old(closed)
    {
      if closed {
        return Some(IOFault);
      }
      flushes := flushes + 1;
      err := None;
    }

    method Close()
      modifies this
      ensures closed
      ensures writes == old(writes) && flushes == old(flushes)
    {
      closed := true;
    }
  }

  /** The range check of `write(b, off, len)` and `ByteBuffer.put(b, off, len)`. */
  predicate ValidRange(length: nat, off: int, len: int)
  {
    0 <= off && 0 <= len && off + len <= length
  }
}
