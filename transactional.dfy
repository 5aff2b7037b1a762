/**
 * TransactionalOutputStream: an in-memory buffer of fixed capacity in front of
 * a delegate stream. Writes only fill the buffer; `Rollback` forgets what was
 * buffered; `Commit` hands the buffered bytes to the delegate in blocks of at
 * most 1024 bytes and empties the buffer, so the object can be reused.
 */
module Transactional {
  import opened Common
  import opened Sinks

  /** Size of the copy array `commit` passes to the delegate. */
  const BlockSize: nat := 1024

  function Min(a: int, b: int): int { if a <= b then a else b }

  /** `s` cut into consecutive blocks of BlockSize bytes, the last one possibly shorter. */
  function Blocks(s: seq<byte>): seq<seq<byte>>
    decreases |s|
  {
    if s == [] then []
    else if |s| <= BlockSize then [s]
    else [s[..BlockSize]] + Blocks(s[BlockSize..])
  }

  /** The blocks, put back together, are exactly the original bytes in order. */
  lemma {:induction false} BlocksConcat(s: seq<byte>)
    ensures Concat(Blocks(s)) == s
    decreases |s|
  {
    if s == [] {
    } else if |s| <= BlockSize {
      ConcatCons(s, []);
    } else {
      BlocksConcat(s[BlockSize..]);
      ConcatCons(s[..BlockSize], Blocks(s[BlockSize..]));
      assert s[..BlockSize] + s[BlockSize..] == s;
    }
  }

  /** Every block is non-empty and at most BlockSize long; all but the last are full. */
  lemma {:induction false} BlocksSizes(s: seq<byte>)
    ensures forall i :: 0 <= i < |Blocks(s)| ==> 0 < |Blocks(s)[i]| <= BlockSize
    ensures forall i :: 0 <= i < |Blocks(s)| - 1 ==> |Blocks(s)[i]| == BlockSize
    decreases |s|
  {
    if |s| > BlockSize {
      BlocksSizes(s[BlockSize..]);
      var rest := Blocks(s[BlockSize..]);
      assert Blocks(s) == [s[..BlockSize]] + rest;
      forall i | 1 <= i < |Blocks(s)|
        ensures Blocks(s)[i] == rest[i - 1]
      {
      }
    }
  }

  /** The delegate receives ceil(|s| / BlockSize) writes. */
  lemma {:induction false} BlocksCount(s: seq<byte>)
    ensures |Blocks(s)| == (|s| + BlockSize - 1) / BlockSize
    decreases |s|
  {
    if |s| > BlockSize {
      BlocksCount(s[BlockSize..]);
    }
  }

  /** The first block of `data[from..]` is `len` bytes long when `len` is at most BlockSize and all that is left. */
  lemma BlocksFront(data: seq<byte>, from: nat, len: nat)
    requires from + len <= |data| && len == Min(BlockSize, |data| - from) && len > 0
    ensures Blocks(data[from..]) == [data[from..from + len]] + Blocks(data[from + len..])
  {
    var rest := data[from..];
    assert rest[..len] == data[from..from + len];
    if len < |rest| {
      assert rest[len..] == data[from + len..];
    } else {
      assert rest[..len] == rest && data[from + len..] == [];
    }
  }

  class TransactionalOutputStream {
    const buffer: array<byte>
    /** May be null: the constructor accepts it, and only `commit` uses it. */
    const delegate: Sink?
    /** The ByteBuffer's position: how many bytes are buffered. */
    var position: nat

    ghost predicate Valid()
      reads this
    {
      position <= buffer.Length
    }

    /** The bytes written since the last rollback or commit. */
    ghost function Buffered(): seq<byte>
      reads this, buffer
      requires Valid()
    {
      buffer[..position]
    }

    /** A negative capacity (an IllegalArgumentException in ByteBuffer.allocate) is excluded by the type. */
    constructor (capacity: nat, delegate: Sink?)
      ensures Valid() && fresh(buffer)
      ensures buffer.Length == capacity && this.delegate == delegate
      ensures Buffered() == []
    {
      buffer := new byte[capacity];
      this.delegate := delegate;
      position := 0;
    }

    /** `getCapacity()`. */
    function GetCapacity(): (c: nat)
      ensures c == buffer.Length
    {
      buffer.Length
    }

    /**
     * `ByteBuffer.put(src, off, len)`: the range is checked first, then the
     * remaining space; on either failure nothing is written.
     */
    method Put(src: seq<byte>, off: int, len: int) returns (err: Option<Exception>)
      requires Valid()
      modifies this, buffer
      ensures Valid()
      ensures !ValidRange(|src|, off, len) ==> err == Some(IndexOutOfBounds)
      ensures ValidRange(|src|, off, len) && len > buffer.Length - old(position) ==> err == Some(BufferOverflow)
      ensures err.Some? ==> position == old(position) && buffer[..] == old(buffer[..])
      ensures err.None? <==> ValidRange(|src|, off, len) && len <= buffer.Length - old(position)
      ensures err.None? ==> Buffered() == old(Buffered()) + src[off..off + len]
      ensures delegate != null ==> unchanged(delegate)
    {
      if !ValidRange(|src|, off, len) {
        return Some(IndexOutOfBounds);
      }
      if len > buffer.Length - position {
        return Some(BufferOverflow);
      }
      var i := 0;
      while i < len
        invariant 0 <= i <= len
        invariant position == old(position)
        invariant buffer[..position + i] == old(buffer[..position]) + src[off..off + i]
      {
        buffer[position + i] := src[off + i];
        i := i + 1;
      }
      position := position + len;
      err := None;
    }

    /** `write(byte[] b)`. */
    method Write(b: seq<byte>) returns (err: Option<Exception>)
      requires Valid()
      modifies this, buffer
      ensures Valid()
      ensures err.None? <==> |b| <= buffer.Length - old(position)
      ensures err.Some? ==> err == Some(BufferOverflow) && position == old(position) && buffer[..] == old(buffer[..])
      ensures err.None? ==> Buffered() == old(Buffered()) + b
      ensures delegate != null ==> unchanged(delegate)
    {
      err := Put(b, 0, |b|);
      assert b[0..|b|] == b;
    }

    /** `write(int b)`: buffers the low eight bits of `b`. */
    method WriteByte(b: int) returns (err: Option<Exception>)
      requires Valid()
      modifies this, buffer
      ensures Valid()
      ensures err.None? <==> old(position) < buffer.Length
      ensures err.Some? ==> err == Some(BufferOverflow) && position == old(position) && buffer[..] == old(buffer[..])
      ensures err.None? ==> Buffered() == old(Buffered()) + [ToByte(b)]
      ensures delegate != null ==> unchanged(delegate)
    {
      err := Put([ToByte(b)], 0, 1);
    }

    /** `write(byte[] b, int off, int len)`. */
    method WriteRange(b: seq<byte>, off: int, len: int) returns (err: Option<Exception>)
      requires Valid()
      modifies this, buffer
      ensures Valid()
      ensures !ValidRange(|b|, off, len) ==> err == Some(IndexOutOfBounds)
      ensures ValidRange(|b|, off, len) && len > buffer.Length - old(position) ==> err == Some(BufferOverflow)
      ensures err.Some? ==> position == old(position) && buffer[..] == old(buffer[..])
      ensures err.None? <==> ValidRange(|b|, off, len) && len <= buffer.Length - old(position)
      ensures err.None? ==> Buffered() == old(Buffered()) + b[off..off + len]
      ensures delegate != null ==> unchanged(delegate)
    {
      err := Put(b, off, len);
    }

    /** `rollback()`: discards everything buffered, without touching the delegate. */
    method Rollback()
      requires Valid()
      modifies this
      ensures Valid() && Buffered() == []
      ensures delegate != null ==> unchanged(delegate)
    {
      position := 0;
    }

    /** `buffer.get(buf, 0, len)` from position `from`. */
    method CopyOut(buf: array<byte>, from: nat, len: nat)
      requires buf != buffer && from + len <= buffer.Length && len <= buf.Length
      modifies buf
      ensures buf[..len] == buffer[from..from + len]
    {
      forall k | 0 <= k < len {
        buf[k] := buffer[from + k];
      }
    }

    /**
     * `commit()`: the buffered bytes go to the delegate as Blocks(Buffered()),
     * one delegate write per block, and the buffer is emptied. A delegate that
     * refuses the first block stops the commit, and so does a null delegate
     * (NullPointerException); by then the buffer's position has already moved
     * past that block. With nothing buffered the delegate is never used.
     */
    method Commit() returns (err: Option<Exception>)
      requires Valid()
      modifies this, delegate
      ensures Valid()
      ensures err.None? <==> old(position) == 0 || (delegate != null && !old(delegate.closed))
      ensures err.None? ==> position == 0
      ensures err.Some? ==> err == (if delegate == null then Some(NullPointer) else Some(IOFault))
                            && position == Min(BlockSize, old(position))
      ensures delegate != null ==> delegate.closed == old(delegate.closed) && delegate.flushes == old(delegate.flushes)
      ensures delegate != null && err.None? ==> delegate.writes == old(delegate.writes) + Blocks(old(Buffered()))
      ensures delegate != null && err.Some? ==> delegate.writes == old(delegate.writes)
    {
      ghost var data := buffer[..position];
      var available := position;
      position := 0;
      var buf := new byte[BlockSize];
      while available > 0
        invariant 0 <= available && position + available == |data|
        invariant buffer[..] == old(buffer[..])
        invariant delegate == null || old(delegate.closed) ==> position == 0
        invariant delegate != null ==> delegate.closed == old(delegate.closed) && delegate.flushes == old(delegate.flushes)
        invariant delegate != null && old(delegate.closed) ==> delegate.writes == old(delegate.writes)
        invariant delegate != null ==> delegate.writes + Blocks(data[position..]) == old(delegate.writes) + Blocks(data)
      {
        var len := Min(BlockSize, available);
        available := available - len;
        BlocksFront(data, position, len);
        CopyOut(buf, position, len);
        assert buf[..][0..len] == data[position..position + len];
        position := position + len;
        if delegate == null {
          return Some(NullPointer);
        }
        err := delegate.WriteRange(buf[..], 0, len);
        if err.Some? {
          return;
        }
      }
      assert data[position..] == [];
      position := 0;
      err := None;
    }
  }

  /**
   * The reuse law: an attempt that was written (possibly only in part, if it
   * overflowed) and then rolled back leaves no trace; the delegate receives
   * exactly the retried bytes, and a second commit adds nothing.
   */
  method RetryAfterRollback(t: TransactionalOutputStream, abandoned: seq<byte>, retried: seq<byte>)
    returns (err: Option<Exception>)
    requires t.Valid() && t.delegate != null && !t.delegate.closed && |retried| <= t.buffer.Length
    modifies t, t.buffer, t.delegate
    ensures err.None? && t.Valid() && t.Buffered() == []
    ensures t.delegate.writes == old(t.delegate.writes) + Blocks(retried)
    ensures t.delegate.Data() == old(t.delegate.Data()) + retried
  {
    var _ := t.Write(abandoned);
    t.Rollback();
    err := t.Write(retried);
    assert t.Buffered() == retried;
    err := t.Commit();
    assert t.delegate.writes == old(t.delegate.writes) + Blocks(retried);
    assert t.Buffered() == [];
    err := t.Commit();
    BlocksConcat(retried);
    ConcatAppend(old(t.delegate.writes), Blocks(retried));
  }
}
