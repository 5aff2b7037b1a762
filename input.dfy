/**
 * The request body as the handler reads it: a `java.io.InputStream` given as
 * the sequence of results its reads will produce. A read into a buffer
 * returns at most the buffer's length and keeps the rest of a longer
 * segment for the next read; at the end it returns -1, and a broken stream
 * raises an IOException. Also `readAll`, which drains a stream completely.
 */
module Input {
  import opened Common

  datatype ReadResult =
    | Bytes(data: seq<byte>)   // the next bytes the stream has; an empty segment reads as 0
    | EndOfStream              // read returns -1, now and on every later read
    | Broken                   // read raises an IOException

  /** The effect of one `read(buf)` with `buf.length == max`. */
  datatype Step = Step(n: int, chunk: seq<byte>, fault: bool, rest: seq<ReadResult>)

  /** Bytes still pending, plus one per pending segment: what every read into a non-empty buffer lowers. */
  function Size(pending: seq<ReadResult>): nat
  {
    if pending == [] then 0
    else (if pending[0].Bytes? then |pending[0].data| + 1 else 0) + Size(pending[1..])
  }

  /**
   * `read(buf)`: stores at most the buffer's length of the next segment and
   * returns how many bytes it stored, keeping the rest for the next read;
   * -1 at the end of the stream.
   */
  function ReadStep(pending: seq<ReadResult>, max: nat): (s: Step)
    ensures -1 <= s.n <= max && (s.n < 0 ==> s.chunk == []) && (s.n >= 0 ==> |s.chunk| == s.n)
    ensures s.fault <==> pending != [] && pending[0].Broken?
    ensures s.n < 0 ==> s.rest == pending || s.rest == []
    ensures max > 0 && s.n >= 0 ==> Size(s.rest) < Size(pending)
  {
    if pending == [] then Step(-1, [], false, [])
    else match pending[0]
      case EndOfStream => Step(-1, [], false, pending)
      case Broken => Step(-1, [], true, pending)
      case Bytes(d) =>
        if |d| <= max then Step(|d|, d, false, pending[1..])
        else
          var rest := [Bytes(d[max..])] + pending[1..];
          assert rest[1..] == pending[1..];
          Step(max, d[..max], false, rest)
  }

  /** What a copy loop that stops at the first read of length <= 0 receives, in order. */
  function Available(pending: seq<ReadResult>): seq<byte>
  {
    if pending == [] then []
    else match pending[0]
      case Bytes(d) => if d == [] then [] else d + Available(pending[1..])
      case _ => []
  }

  /** Everything up to the end of the stream, or None if the stream breaks first. */
  function AllBytes(pending: seq<ReadResult>): Option<seq<byte>>
  {
    if pending == [] then Some([])
    else match pending[0]
      case EndOfStream => Some([])
      case Broken => None
      case Bytes(d) =>
        match AllBytes(pending[1..])
        case None => None
        case Some(r) => Some(d + r)
  }

  /** One positive read takes its bytes off the front of Available. */
  lemma AvailableStep(pending: seq<ReadResult>, max: nat)
    requires ReadStep(pending, max).n > 0
    ensures Available(pending) == ReadStep(pending, max).chunk + Available(ReadStep(pending, max).rest)
  {
    var d := pending[0].data;
    if |d| > max {
      var rest := [Bytes(d[max..])] + pending[1..];
      assert rest[0] == Bytes(d[max..]) && rest[1..] == pending[1..];
      assert d[..max] + d[max..] == d;
    }
  }

  /** One read that does not fail takes its bytes off the front of AllBytes; -1 means nothing is left. */
  lemma AllBytesStep(pending: seq<ReadResult>, max: nat)
    requires !ReadStep(pending, max).fault
    ensures ReadStep(pending, max).n < 0 ==> AllBytes(pending) == Some([])
    ensures ReadStep(pending, max).n >= 0 ==>
              AllBytes(pending) == Prepend(ReadStep(pending, max).chunk, AllBytes(ReadStep(pending, max).rest))
  {
    if pending != [] && pending[0].Bytes? {
      var d := pending[0].data;
      if |d| > max {
        var rest := [Bytes(d[max..])] + pending[1..];
        assert rest[0] == Bytes(d[max..]) && rest[1..] == pending[1..];
        assert d[..max] + d[max..] == d;
        match AllBytes(pending[1..])
        case None =>
        case Some(r) => assert d[..max] + (d[max..] + r) == d + r;
      }
    }
  }

  lemma PrependPrepend(a: seq<byte>, b: seq<byte>, r: Option<seq<byte>>)
    ensures Prepend(a, Prepend(b, r)) == Prepend(a + b, r)
  {
    if r.Some? {
      assert a + (b + r.value) == (a + b) + r.value;
    }
  }

  function Prepend(prefix: seq<byte>, r: Option<seq<byte>>): Option<seq<byte>>
  {
    match r
    case None => None
    case Some(s) => Some(prefix + s)
  }

  class InputStream {
    var pending: seq<ReadResult>

    constructor (content: seq<ReadResult>)
      ensures pending == content
    {
      pending := content;
    }

    /** `read(byte[] buf)`. */
    method Read(buf: array<byte>) returns (n: int, err: Option<Exception>)
      modifies this, buf
      ensures var s := ReadStep(old(pending), buf.Length);
                pending == s.rest && err == (if s.fault then Some(IOFault) else None)
                && n == s.n && buf[..|s.chunk|] == s.chunk
    {
      var s := ReadStep(pending, buf.Length);
      forall k | 0 <= k < |s.chunk| {
        buf[k] := s.chunk[k];
      }
      pending := s.rest;
      n := s.n;
      err := if s.fault then Some(IOFault) else None;
    }
  }

  /**
   * `readAll`: reads 1024-byte buffers until a read returns -1 (a read of 0
   * does not stop it) and returns everything read; an IOException from the
   * stream propagates.
   */
  method ReadAll(input: InputStream) returns (data: seq<byte>, err: Option<Exception>)
    modifies input
    ensures AllBytes(old(input.pending)) == (if err.None? then Some(data) else None)
    ensures err.Some? ==> err == Some(IOFault)
  {
    var buf := new byte[1024];
    data := [];
    assert Prepend([], AllBytes(input.pending)) == AllBytes(input.pending) by {
      if AllBytes(input.pending).Some? {
        assert [] + AllBytes(input.pending).value == AllBytes(input.pending).value;
      }
    }
    while true
      invariant AllBytes(old(input.pending)) == Prepend(data, AllBytes(input.pending))
      decreases Size(input.pending)
    {
      ghost var before := input.pending;
      var read;
      read, err := input.Read(buf);
      if err.Some? {
        return;
      }
      AllBytesStep(before, 1024);
      if read == -1 {
        assert data + [] == data;
        return;
      }
      PrependPrepend(data, buf[..read], AllBytes(input.pending));
      data := data + buf[..read];
    }
  }
}
