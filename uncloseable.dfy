/**
 * UncloseableOutputStream (also the nested copy inside Plupload): forwards
 * every write to its delegate unchanged and turns `close` into a flush, so
 * the delegate stays open across the several chunk requests of one upload.
 * The wrapper keeps no state besides the delegate reference, which may be
 * null (Plupload wraps whatever its receiver returned); every call on a null
 * delegate raises a NullPointerException.
 */
module Uncloseable {
  import opened Common
  import opened Sinks

  class UncloseableOutputStream {
    const delegate: Sink?

    constructor (delegate: Sink?)
      ensures this.delegate == delegate
    {
      this.delegate := delegate;
    }

    /** `write(byte[] b)`: the delegate receives all of `b` as one write. */
    method Write(b: seq<byte>) returns (err: Option<Exception>)
      modifies delegate
      ensures delegate == null ==> err == Some(NullPointer)
      ensures delegate != null ==> err == (if old(delegate.closed) then Some(IOFault) else None)
      ensures delegate != null && err.None? ==>
                delegate.writes == old(delegate.writes) + [b] && delegate.Data() == old(delegate.Data()) + b
      ensures delegate != null && err.Some? ==> delegate.writes == old(delegate.writes)
      ensures delegate != null ==> delegate.closed == old(delegate.closed) && delegate.flushes == old(delegate.flushes)
    {
      if delegate == null {
        return Some(NullPointer);
      }
      err := delegate.Write(b);
    }

    /** `write(int b)`: the delegate receives exactly one byte. */
    method WriteByte(b: int) returns (err: Option<Exception>)
      modifies delegate
      ensures delegate == null ==> err == Some(NullPointer)
      ensures delegate != null ==> err == (if old(delegate.closed) then Some(IOFault) else None)
      ensures delegate != null && err.None? ==> delegate.writes == old(delegate.writes) + [[ToByte(b)]]
      ensures delegate != null && err.Some? ==> delegate.writes == old(delegate.writes)
      ensures delegate != null ==> delegate.closed == old(delegate.closed) && delegate.flushes == old(delegate.flushes)
    {
      if delegate == null {
        return Some(NullPointer);
      }
      err := delegate.WriteByte(b);
    }

    /** `write(byte[] b, int off, int len)`: the delegate receives exactly `b[off..off+len)`. */
    method WriteRange(b: seq<byte>, off: int, len: int) returns (err: Option<Exception>)
      modifies delegate
      ensures delegate == null ==> err == Some(NullPointer)
      ensures delegate != null && !ValidRange(|b|, off, len) ==> err == Some(IndexOutOfBounds)
      ensures delegate != null && ValidRange(|b|, off, len) ==>
                err == (if old(delegate.closed) then Some(IOFault) else None)
      ensures delegate != null && err.None? ==>
                delegate.writes == old(delegate.writes) + [b[off..off + len]]
                && delegate.Data() == old(delegate.Data()) + b[off..off + len]
      ensures delegate != null && err.Some? ==> delegate.writes == old(delegate.writes)
      ensures delegate != null ==> delegate.closed == old(delegate.closed) && delegate.flushes == old(delegate.flushes)
    {
      if delegate == null {
        return Some(NullPointer);
      }
      err := delegate.WriteRange(b, off, len);
    }

    /**
     * `flush()` is not overridden, so OutputStream's own flush runs: it does
     * nothing and never fails, whatever the delegate is.
     */
    method Flush() returns (err: Option<Exception>)
      ensures err.None?
    {
      err := None;
    }

    /** `close()`: only flushes; the delegate is never closed. */
    method Close() returns (err: Option<Exception>)
      modifies delegate
      ensures delegate == null ==> err == Some(NullPointer)
      ensures delegate != null ==> err == (if old(delegate.closed) then Some(IOFault) else None)
      ensures delegate != null ==> delegate.closed == old(delegate.closed) && delegate.writes == old(delegate.writes)
      ensures delegate != null && err.None? ==> delegate.flushes == old(delegate.flushes) + 1
    {
      if delegate == null {
        return Some(NullPointer);
      }
      err := delegate.Flush();
    }
  }

  /**
   * However often the wrapper is closed, an open delegate stays open and the
   * next write still reaches it.
   */
  method WritableAfterCloses(w: UncloseableOutputStream, closes: nat, b: seq<byte>)
    returns (err: Option<Exception>)
    requires w.delegate != null && !w.delegate.closed
    modifies w.delegate
    ensures err.None? && !w.delegate.closed
    ensures w.delegate.Data() == old(w.delegate.Data()) + b
    ensures w.delegate.flushes == old(w.delegate.flushes) + closes
  {
    var i := 0;
    while i < closes
      invariant 0 <= i <= closes
      invariant !w.delegate.closed && w.delegate.writes == old(w.delegate.writes)
      invariant w.delegate.flushes == old(w.delegate.flushes) + i
    {
      var _ := w.Close();
      i := i + 1;
    }
    err := w.Write(b);
  }

  /**
   * The wrapper keeps nothing of its own: after any sequence of successful
   * writes the delegate holds their concatenation, appended in order.
   */
  method WriteAllInOrder(w: UncloseableOutputStream, chunks: seq<seq<byte>>)
    returns (err: Option<Exception>)
    requires w.delegate != null && !w.delegate.closed
    modifies w.delegate
    ensures err.None?
    ensures w.delegate.writes == old(w.delegate.writes) + chunks
    ensures w.delegate.Data() == old(w.delegate.Data()) + Concat(chunks)
  {
    var i := 0;
    err := None;
    while i < |chunks|
      invariant 0 <= i <= |chunks|
      invariant !w.delegate.closed && err.None?
      invariant w.delegate.writes == old(w.delegate.writes) + chunks[..i]
    {
      err := w.Write(chunks[i]);
      assert chunks[..i + 1] == chunks[..i] + [chunks[i]];
      i := i + 1;
    }
    assert chunks[..i] == chunks;
    ConcatAppend(old(w.delegate.writes), chunks);
  }
}
