/**
 * PluploadRequestHandler.streamToReceiver: moves one file part from the
 * request into the output stream a StreamVariable supplies, with 4096-byte
 * reads, and reports the upload's progress and end to that variable.
 *
 * The stream variable is not code this module owns: its answers (what
 * streamingStarted, getOutputStream, listenProgress, the k-th isInterrupted,
 * streamingFinished and streamingFailed do) are an input, and the calls the
 * handler makes on it are an output log. Calls on the variable do not touch
 * the input or output streams.
 */
module Streaming {
  import opened Common
  import opened Sinks
  import opened Input
  import opened StreamEvents

  /** MAX_UPLOAD_BUFFER_SIZE: the size of the copy buffer. */
  const MaxUploadBufferSize: nat := 4096

  /** A call on the stream variable; the error event's exception travels as `cause`. */
  datatype SvCall =
    | StreamingStarted(event: StreamEvent)
    | GetOutputStream
    | ListenProgress
    | OnProgress(event: StreamEvent)
    | IsInterrupted
    | StreamingFinished(event: StreamEvent)
    | StreamingFailed(event: StreamEvent, cause: Exception)

  /** What getOutputStream gives: null, the output stream, or an exception. */
  datatype OutputAnswer = NoStream | Stream | OutputThrows(e: Exception)

  /** How the stream variable behaves during one call of streamToReceiver. */
  datatype Answers = Answers(
    startedThrows: Option<Exception>,
    output: OutputAnswer,
    listen: bool,
    interrupted: nat -> bool,          // the answer of the k-th isInterrupted call, from 0
    finishedThrows: Option<Exception>,
    failedThrows: Option<Exception>)

  datatype CopyEnd = Drained | Interrupted | CopyFault(cause: Exception)

  /** The writes the copy loop makes, in order, how it ends, and what it leaves unread. */
  datatype CopyRun = CopyRun(writes: seq<seq<byte>>, end: CopyEnd, left: seq<ReadResult>)

  datatype Outcome = Returned | Threw(e: Exception)

  datatype StreamRun = StreamRun(calls: seq<SvCall>, writes: seq<seq<byte>>, flushed: bool, outcome: Outcome)

  /**
   * The progress and error events: the request's file name, type and length,
   * and totalBytes, the bytes so far as a Java int.
   */
  function ProgressOf(start: StreamEvent, count: int): (e: StreamEvent)
    ensures e.fileName == start.fileName && e.mimeType == start.mimeType
    ensures e.contentLength == start.contentLength && e.bytesReceived == Wrap32(count)
  {
    ProgressEvent(start.fileName, start.mimeType, start.contentLength, Wrap32(count))
  }

  /**
   * The calls after a write that brings the count to `count`: its progress
   * report (when listened to), then one interruption check.
   */
  function StepCalls(listen: bool, start: StreamEvent, count: nat): seq<SvCall>
  {
    (if listen then [OnProgress(ProgressOf(start, count))] else []) + [IsInterrupted]
  }


  /**
   * The copy loop from the k-th interruption check on: read, stop at a read
   * of length <= 0, write the bytes read, then ask whether to stop. A read
   * fault or a write refused by a closed output is an IOException.
   */
  function Copy(pending: seq<ReadResult>, outClosed: bool, interrupted: nat -> bool, k: nat): CopyRun
    decreases Size(pending)
  {
    var s := ReadStep(pending, MaxUploadBufferSize);
    if s.fault then CopyRun([], CopyFault(IOFault), s.rest)
    else if s.n <= 0 then CopyRun([], Drained, s.rest)
    else if outClosed then CopyRun([], CopyFault(IOFault), s.rest)
    else if interrupted(k) then CopyRun([s.chunk], Interrupted, s.rest)
    else Glue([s.chunk], Copy(s.rest, outClosed, interrupted, k + 1))
  }

  /** `rest` preceded by some writes. */
  function Glue(writes: seq<seq<byte>>, rest: CopyRun): CopyRun
  {
    CopyRun(writes + rest.writes, rest.end, rest.left)
  }

  /** The next read returns bytes and the output accepts them. */
  predicate Consumes(pending: seq<ReadResult>, outClosed: bool)
  {
    var s := ReadStep(pending, MaxUploadBufferSize);
    !s.fault && s.n > 0 && !outClosed
  }

  /** One step of the copy loop that writes. */
  lemma CopyStep(pending: seq<ReadResult>, outClosed: bool, interrupted: nat -> bool, k: nat)
    requires Consumes(pending, outClosed)
    ensures var s := ReadStep(pending, MaxUploadBufferSize);
              Copy(pending, outClosed, interrupted, k)
              == if interrupted(k) then CopyRun([s.chunk], Interrupted, s.rest)
                 else Glue([s.chunk], Copy(s.rest, outClosed, interrupted, k + 1))
  {
  }

  /** The copy loop ends at a read of length <= 0, a read fault or a refused write. */
  lemma CopyStops(pending: seq<ReadResult>, outClosed: bool, interrupted: nat -> bool, k: nat)
    requires !Consumes(pending, outClosed)
    ensures var s := ReadStep(pending, MaxUploadBufferSize);
              Copy(pending, outClosed, interrupted, k)
              == CopyRun([], if s.fault || s.n > 0 then CopyFault(IOFault) else Drained, s.rest)
  {
  }

  /** The input after `n` reads into the copy buffer. */
  function After(pending: seq<ReadResult>, n: nat): seq<ReadResult>
    decreases n
  {
    if n == 0 then pending else After(ReadStep(pending, MaxUploadBufferSize).rest, n - 1)
  }

  /**
   * The copy loop reads once per write and, unless an interruption ended it,
   * once more for the read that stopped it; it reads nothing else.
   */
  lemma {:induction false} CopyReads(pending: seq<ReadResult>, outClosed: bool, interrupted: nat -> bool, k: nat)
    ensures var c := Copy(pending, outClosed, interrupted, k);
              c.left == After(pending, |c.writes| + if c.end.Interrupted? then 0 else 1)
    decreases Size(pending)
  {
    if Consumes(pending, outClosed) {
      var s := ReadStep(pending, MaxUploadBufferSize);
      CopyStep(pending, outClosed, interrupted, k);
      if !interrupted(k) {
        CopyReads(s.rest, outClosed, interrupted, k + 1);
      }
    } else {
      CopyStops(pending, outClosed, interrupted, k);
    }
  }

  /** The calls the copy loop makes around a sequence of writes: after each, its StepCalls. */
  function Checks(writes: seq<seq<byte>>, listen: bool, start: StreamEvent): seq<SvCall>
  {
    if writes == [] then []
    else Checks(writes[..|writes| - 1], listen, start) + StepCalls(listen, start, |Concat(writes)|)
  }

  /** Each write brings its progress report (when listened to) and one check. */
  lemma {:induction false} ChecksLength(writes: seq<seq<byte>>, listen: bool, start: StreamEvent)
    ensures |Checks(writes, listen, start)| == if listen then 2 * |writes| else |writes|
  {
    if writes != [] {
      ChecksLength(writes[..|writes| - 1], listen, start);
    }
  }

  /**
   * The calls that follow write w: when progress is listened to, the report
   * of the bytes counted up to and including write w, then a check.
   */
  lemma {:induction false} ChecksAt(writes: seq<seq<byte>>, listen: bool, start: StreamEvent, w: nat)
    requires w < |writes|
    ensures var c := Checks(writes, listen, start);
              listen ==>
                |c| == 2 * |writes| && c[2 * w + 1] == IsInterrupted
                && c[2 * w] == OnProgress(ProgressOf(start, |Concat(writes[..w + 1])|))
    ensures var c := Checks(writes, listen, start);
              !listen ==> |c| == |writes| && c[w] == IsInterrupted
  {
    var n := |writes|;
    var prefix := writes[..n - 1];
    ChecksLength(writes, listen, start);
    ChecksLength(prefix, listen, start);
    var c := Checks(writes, listen, start);
    assert c == Checks(prefix, listen, start) + StepCalls(listen, start, |Concat(writes)|);
    if w == n - 1 {
      assert writes[..w + 1] == writes;
    } else {
      ChecksAt(prefix, listen, start, w);
      assert prefix[..w + 1] == writes[..w + 1];
    }
  }

  /** No call is streamingFinished or streamingFailed. */
  predicate Quiet(calls: seq<SvCall>)
  {
    forall i :: 0 <= i < |calls| ==> !calls[i].StreamingFinished? && !calls[i].StreamingFailed?
  }

  lemma QuietAppend(c1: seq<SvCall>, c2: seq<SvCall>)
    requires Quiet(c1) && Quiet(c2)
    ensures Quiet(c1 + c2)
  {
    var c := c1 + c2;
    forall i | 0 <= i < |c|
      ensures !c[i].StreamingFinished? && !c[i].StreamingFailed?
    {
      if i >= |c1| {
        assert c[i] == c2[i - |c1|];
      }
    }
  }

  /** The copy loop itself never calls streamingFinished or streamingFailed. */
  lemma {:induction false} ChecksQuiet(writes: seq<seq<byte>>, listen: bool, start: StreamEvent)
    ensures Quiet(Checks(writes, listen, start))
  {
    if writes != [] {
      var prefix := writes[..|writes| - 1];
      ChecksQuiet(prefix, listen, start);
      QuietAppend(Checks(prefix, listen, start), StepCalls(listen, start, |Concat(writes)|));
    }
  }

  /** Every write holds between 1 and 4096 bytes. */
  predicate Sized(writes: seq<seq<byte>>)
  {
    forall i :: 0 <= i < |writes| ==> 0 < |writes[i]| <= MaxUploadBufferSize
  }

  lemma {:induction false} CopySizes(pending: seq<ReadResult>, outClosed: bool, interrupted: nat -> bool, k: nat)
    ensures Sized(Copy(pending, outClosed, interrupted, k).writes)
    decreases Size(pending)
  {
    if Consumes(pending, outClosed) {
      var s := ReadStep(pending, MaxUploadBufferSize);
      CopyStep(pending, outClosed, interrupted, k);
      if !interrupted(k) {
        CopySizes(s.rest, outClosed, interrupted, k + 1);
        var r := Copy(s.rest, outClosed, interrupted, k + 1).writes;
        var w := [s.chunk] + r;
        forall i | 0 <= i < |w|
          ensures 0 < |w[i]| <= MaxUploadBufferSize
        {
          if i > 0 {
            assert w[i] == r[i - 1];
          }
        }
      }
    } else {
      CopyStops(pending, outClosed, interrupted, k);
    }
  }

  /**
   * The writes are, in order, a prefix of what the input offers, all of it
   * when the input ran dry; a fault is always an IOException.
   */
  lemma {:induction false} CopyData(pending: seq<ReadResult>, outClosed: bool, interrupted: nat -> bool, k: nat)
    ensures var c := Copy(pending, outClosed, interrupted, k);
              Concat(c.writes) <= Available(pending)
              && (c.end.Drained? ==> Concat(c.writes) == Available(pending))
              && (c.end.CopyFault? ==> c.end.cause == IOFault)
    decreases Size(pending)
  {
    if Consumes(pending, outClosed) {
      var s := ReadStep(pending, MaxUploadBufferSize);
      CopyStep(pending, outClosed, interrupted, k);
      AvailableStep(pending, MaxUploadBufferSize);
      var more := Available(s.rest);
      if interrupted(k) {
        ConcatCons(s.chunk, []);
        assert Concat([s.chunk]) == (s.chunk + more)[..|s.chunk|];
      } else {
        var r := Copy(s.rest, outClosed, interrupted, k + 1);
        CopyData(s.rest, outClosed, interrupted, k + 1);
        ConcatCons(s.chunk, r.writes);
        assert Concat(r.writes) == more[..|Concat(r.writes)|];
        assert Concat([s.chunk] + r.writes) == (s.chunk + more)[..|s.chunk| + |Concat(r.writes)|];
      }
    } else {
      CopyStops(pending, outClosed, interrupted, k);
    }
  }

  /**
   * The loop stops at the first check that answers true, right after the
   * write it follows; every earlier check answered false.
   */
  lemma {:induction false} CopyInterrupts(pending: seq<ReadResult>, outClosed: bool, interrupted: nat -> bool,
                                          k: nat)
    ensures var c := Copy(pending, outClosed, interrupted, k);
              (c.end.Interrupted? <==> |c.writes| > 0 && interrupted(k + |c.writes| - 1))
              && (forall j :: k <= j < k + |c.writes| - 1 ==> !interrupted(j))
    decreases Size(pending)
  {
    if Consumes(pending, outClosed) {
      var s := ReadStep(pending, MaxUploadBufferSize);
      CopyStep(pending, outClosed, interrupted, k);
      if !interrupted(k) {
        CopyInterrupts(s.rest, outClosed, interrupted, k + 1);
      }
    } else {
      CopyStops(pending, outClosed, interrupted, k);
    }
  }

  /** The exception a copy loop end leaves for the catch blocks, if any. */
  function EndFailure(end: CopyEnd): (f: Option<Exception>)
    ensures f.None? <==> end.Drained?
    ensures end.Interrupted? ==> f == Some(UploadInterrupted)
    ensures end.CopyFault? ==> f == Some(end.cause)
  {
    match end
    case Drained => None
    case Interrupted => Some(UploadInterrupted)
    case CopyFault(e) => Some(e)
  }

  /** The state the try block of streamToReceiver leaves: calls, writes, flush, count, pending exception. */
  datatype Attempted = Attempted(calls: seq<SvCall>, writes: seq<seq<byte>>, flushed: bool, total: nat,
                                 failure: Option<Exception>)

  /** The stream variable started and gave an output stream, and the part has an input stream. */
  predicate Copies(content: Option<seq<ReadResult>>, a: Answers)
  {
    a.startedThrows.None? && a.output.Stream? && content.Some?
  }

  /** The calls before the copy loop: streamingStarted, getOutputStream, listenProgress. */
  function Prelude(start: StreamEvent): seq<SvCall>
  {
    [StreamingStarted(start), GetOutputStream, ListenProgress]
  }

  /**
   * The try block of streamToReceiver, for a non-null stream variable; the
   * flush of a closed output fails with an IOException.
   */
  function Attempt(content: Option<seq<ReadResult>>, a: Answers, outClosed: bool, start: StreamEvent): Attempted
  {
    if a.startedThrows.Some? then Attempted([StreamingStarted(start)], [], false, 0, a.startedThrows)
    else if a.output.OutputThrows? then
      Attempted([StreamingStarted(start), GetOutputStream], [], false, 0, Some(a.output.e))
    else if a.output.NoStream? then Attempted(Prelude(start), [], false, 0, Some(NoOutputStream))
    else if content.None? then Attempted(Prelude(start), [], false, 0, Some(NoInputStream))
    else
      Finish(Copy(content.value, outClosed, a.interrupted, 0), a, outClosed, start)
  }

  /** The try block once the copy loop has run: the flush and streamingFinished after an input that ran dry. */
  function Finish(c: CopyRun, a: Answers, outClosed: bool, start: StreamEvent): Attempted
  {
    var calls := Prelude(start) + Checks(c.writes, a.listen, start);
    var total := |Concat(c.writes)|;
    if !c.end.Drained? then Attempted(calls, c.writes, false, total, EndFailure(c.end))
    else if outClosed then Attempted(calls, c.writes, false, total, Some(IOFault))
    else
      Attempted(calls + [StreamingFinished(EndEvent(start.fileName, start.mimeType, Wrap32(total)))],
                c.writes, true, total, a.finishedThrows)
  }

  /** The catch blocks: streamingFailed with the error event, then how the failure leaves the method. */
  function Settle(a: Answers, start: StreamEvent, t: Attempted): (r: StreamRun)
    ensures r.writes == t.writes && r.flushed == t.flushed
    ensures t.failure.None? ==> r.calls == t.calls && r.outcome == Returned
    ensures t.failure.Some? ==> r.calls == t.calls + [StreamingFailed(ProgressOf(start, t.total), t.failure.value)]
    ensures t.failure.Some? && a.failedThrows.Some? ==> r.outcome == Threw(a.failedThrows.value)
    ensures t.failure.Some? && a.failedThrows.None? ==> (r.outcome == Returned <==> t.failure == Some(UploadInterrupted))
    ensures t.failure.Some? && a.failedThrows.None? && t.failure != Some(UploadInterrupted) ==>
              r.outcome == Threw(UploadFailure(t.failure.value))
  {
    if t.failure.None? then StreamRun(t.calls, t.writes, t.flushed, Returned)
    else
      var e := t.failure.value;
      StreamRun(t.calls + [StreamingFailed(ProgressOf(start, t.total), e)], t.writes, t.flushed,
                if a.failedThrows.Some? then Threw(a.failedThrows.value)
                else if e == UploadInterrupted then Returned
                else Threw(UploadFailure(e)))
  }

  /**
   * streamToReceiver as a whole. `content` is the part's input stream (None
   * for null) and `sv` the stream variable (None for null); an interruption
   * is reported but not rethrown, every other failure is reported and then
   * rethrown wrapped in an UploadException, unless streamingFailed itself
   * throws.
   */
  function StreamSpec(content: Option<seq<ReadResult>>, sv: Option<Answers>, outClosed: bool, start: StreamEvent)
    : StreamRun
  {
    if sv.None? then StreamRun([], [], false, Threw(IllegalState))
    else Settle(sv.value, start, Attempt(content, sv.value, outClosed, start))
  }

  /** What the try block wrote and counted, and when it flushed. */
  lemma AttemptData(content: Option<seq<ReadResult>>, a: Answers, outClosed: bool, start: StreamEvent)
    ensures var t := Attempt(content, a, outClosed, start);
              t.total == |Concat(t.writes)|
              && Sized(t.writes)
              && (content.Some? ==> Concat(t.writes) <= Available(content.value))
              && (t.flushed <==> Copies(content, a) && !outClosed
                                 && Copy(content.value, outClosed, a.interrupted, 0).end.Drained?)
              && (t.flushed ==> Concat(t.writes) == Available(content.value) && t.failure == a.finishedThrows)
              && (!t.flushed ==> t.failure.Some?)
              && (!Copies(content, a) ==> t.writes == [])
  {
    if Copies(content, a) {
      CopySizes(content.value, outClosed, a.interrupted, 0);
      CopyData(content.value, outClosed, a.interrupted, 0);
    }
  }

  /**
   * The shape of the try block's calls: streamingStarted first; after a
   * flush, streamingFinished last and its outcome the pending exception;
   * streamingFinished and streamingFailed nowhere else.
   */
  predicate Framed(t: Attempted, start: StreamEvent, finishedThrows: Option<Exception>)
  {
    t.calls != [] && t.calls[0] == StreamingStarted(start)
    && (t.flushed ==>
          Last(t.calls).StreamingFinished? && Quiet(t.calls[..|t.calls| - 1]) && t.failure == finishedThrows)
    && (!t.flushed ==> Quiet(t.calls) && t.failure.Some?)
  }

  lemma AttemptFramed(content: Option<seq<ReadResult>>, a: Answers, outClosed: bool, start: StreamEvent)
    ensures Framed(Attempt(content, a, outClosed, start), start, a.finishedThrows)
  {
    var t := Attempt(content, a, outClosed, start);
    AttemptData(content, a, outClosed, start);
    if Copies(content, a) {
      var calls := Prelude(start) + Checks(t.writes, a.listen, start);
      ChecksQuiet(t.writes, a.listen, start);
      QuietAppend(Prelude(start), Checks(t.writes, a.listen, start));
      if t.flushed {
        assert t.calls[..|t.calls| - 1] == calls;
      } else {
        assert t.calls == calls;
      }
    }
  }

  /** The catch blocks add streamingFailed, last, exactly when something failed. */
  lemma SettleFrame(a: Answers, start: StreamEvent, t: Attempted)
    requires Framed(t, start, a.finishedThrows)
    ensures var r := Settle(a, start, t);
              r.calls[0] == StreamingStarted(start)
              && (Last(r.calls).StreamingFinished? || Last(r.calls).StreamingFailed?)
              && (forall i :: 0 <= i < |r.calls| - 1 ==> !r.calls[i].StreamingFailed?)
              && (forall i :: 0 <= i < |r.calls| && r.calls[i].StreamingFinished? ==>
                    i == |r.calls| - 1 || (i == |r.calls| - 2 && a.finishedThrows.Some?))
  {
    var r := Settle(a, start, t);
    var n := |t.calls|;
    forall i | 0 <= i < |r.calls| && (i < |r.calls| - 1 || r.calls[i].StreamingFinished?)
      ensures !r.calls[i].StreamingFailed?
      ensures r.calls[i].StreamingFinished? ==>
                i == |r.calls| - 1 || (i == |r.calls| - 2 && a.finishedThrows.Some?)
    {
      if i < n {
        assert r.calls[i] == t.calls[i];
        if i < n - 1 && t.flushed {
          assert t.calls[i] == t.calls[..n - 1][i];
        }
      }
    }
  }

  /** The stream variable was found, started, and gave an output stream, and the part has an input stream. */
  predicate Copied(content: Option<seq<ReadResult>>, sv: Option<Answers>)
  {
    sv.Some? && Copies(content, sv.value)
  }

  /** What is left of the part's input stream afterwards: only the copy loop reads from it. */
  function Unread(content: Option<seq<ReadResult>>, sv: Option<Answers>, outClosed: bool): seq<ReadResult>
    requires content.Some?
  {
    if Copied(content, sv) then Copy(content.value, outClosed, sv.value.interrupted, 0).left else content.value
  }

  /**
   * Without a stream variable nothing is called and IllegalStateException
   * escapes. Otherwise streamingStarted comes first and streamingFinished or
   * streamingFailed last; streamingFailed appears nowhere else, and
   * streamingFinished only last or, when it threw, just before
   * streamingFailed. Nothing is written unless the copy ran.
   */
  lemma SpecFrame(content: Option<seq<ReadResult>>, sv: Option<Answers>, outClosed: bool, start: StreamEvent)
    ensures var r := StreamSpec(content, sv, outClosed, start);
              (sv.None? <==> r.calls == [])
              && (sv.None? ==> r.outcome == Threw(IllegalState) && r.writes == [])
              && (sv.Some? ==>
                    r.calls[0] == StreamingStarted(start)
                    && (Last(r.calls).StreamingFinished? || Last(r.calls).StreamingFailed?)
                    && (forall i :: 0 <= i < |r.calls| - 1 ==> !r.calls[i].StreamingFailed?)
                    && (forall i :: 0 <= i < |r.calls| && r.calls[i].StreamingFinished? ==>
                          i == |r.calls| - 1 || (i == |r.calls| - 2 && sv.value.finishedThrows.Some?)))
              && (!Copied(content, sv) ==> r.writes == [] && !r.flushed)
  {
    if sv.Some? {
      var a := sv.value;
      AttemptFramed(content, a, outClosed, start);
      SettleFrame(a, start, Attempt(content, a, outClosed, start));
      AttemptData(content, a, outClosed, start);
    }
  }

  /**
   * When the copy ran, the calls are streamingStarted, getOutputStream,
   * listenProgress, the progress reports and checks of the writes (ChecksAt),
   * streamingFinished after a flush, and streamingFailed after a failure.
   */
  lemma SpecCalls(content: Option<seq<ReadResult>>, sv: Option<Answers>, outClosed: bool, start: StreamEvent)
    requires Copied(content, sv)
    ensures var r := StreamSpec(content, sv, outClosed, start);
              r.calls == Prelude(start) + Checks(r.writes, sv.value.listen, start)
                         + (if r.flushed then [StreamingFinished(EndEvent(start.fileName, start.mimeType,
                                                                          Wrap32(|Concat(r.writes)|)))]
                            else [])
                         + (if Last(r.calls).StreamingFailed? then [Last(r.calls)] else [])
  {
    var a := sv.value;
    var t := Attempt(content, a, outClosed, start);
    AttemptData(content, a, outClosed, start);
    if t.failure.None? {
      assert t.calls + [] == t.calls;
    }
  }

  /**
   * The upload ends with streamingFinished and a normal return exactly when
   * the copy ran, the input ran dry without being interrupted, the flush
   * worked and streamingFinished did not throw; then everything the input
   * offered was written, in order, flushed once, and the end event carries
   * its size as a Java int.
   */
  lemma SpecSucceeds(content: Option<seq<ReadResult>>, sv: Option<Answers>, outClosed: bool, start: StreamEvent)
    ensures var r := StreamSpec(content, sv, outClosed, start);
              (r.calls != [] && Last(r.calls).StreamingFinished? && r.outcome == Returned)
              <==> (Copied(content, sv) && !outClosed && sv.value.finishedThrows.None?
                    && Copy(content.value, outClosed, sv.value.interrupted, 0).end.Drained?)
    ensures var r := StreamSpec(content, sv, outClosed, start);
              r.calls != [] && Last(r.calls).StreamingFinished? ==>
                content.Some? && r.flushed && Concat(r.writes) == Available(content.value)
                && Last(r.calls) == StreamingFinished(EndEvent(start.fileName, start.mimeType,
                                                               Wrap32(|Available(content.value)|)))
  {
    if sv.Some? {
      var a := sv.value;
      var t := Attempt(content, a, outClosed, start);
      AttemptFramed(content, a, outClosed, start);
      AttemptData(content, a, outClosed, start);
      if !t.flushed && t.calls != [] {
        assert Last(t.calls) == t.calls[|t.calls| - 1];
      }
    }
  }

  /**
   * A failure is reported with the bytes actually written so far (as a Java
   * int) and the request's content length; an interruption returns normally
   * and every other cause is rethrown wrapped, unless streamingFailed throws.
   */
  lemma SpecFails(content: Option<seq<ReadResult>>, sv: Option<Answers>, outClosed: bool, start: StreamEvent)
    ensures var r := StreamSpec(content, sv, outClosed, start);
              r.calls != [] && Last(r.calls).StreamingFailed? ==>
                Last(r.calls).event == ProgressOf(start, |Concat(r.writes)|)
                && (sv.value.failedThrows.Some? ==> r.outcome == Threw(sv.value.failedThrows.value))
                && (sv.value.failedThrows.None? ==>
                      (r.outcome == Returned <==> Last(r.calls).cause == UploadInterrupted)
                      && (Last(r.calls).cause != UploadInterrupted ==>
                            r.outcome == Threw(UploadFailure(Last(r.calls).cause))))
  {
    if sv.Some? {
      var a := sv.value;
      AttemptFramed(content, a, outClosed, start);
      AttemptData(content, a, outClosed, start);
    }
  }

  /**
   * When the copy never starts, nothing is read, written or flushed, and the
   * failure is reported with no bytes counted; its cause is what
   * streamingStarted or getOutputStream threw, else NoOutputStreamException
   * for a null output stream, else NoInputStreamException for a part without
   * an input stream. It is rethrown wrapped in an UploadException unless
   * streamingFailed throws.
   */
  lemma SpecNoCopy(content: Option<seq<ReadResult>>, sv: Option<Answers>, outClosed: bool, start: StreamEvent)
    requires sv.Some? && !Copied(content, sv)
    ensures var r := StreamSpec(content, sv, outClosed, start);
              r.writes == [] && !r.flushed && (content.Some? ==> Unread(content, sv, outClosed) == content.value)
    ensures var a, r := sv.value, StreamSpec(content, sv, outClosed, start);
              a.startedThrows.Some? ==>
                r.calls == [StreamingStarted(start), StreamingFailed(ProgressOf(start, 0), a.startedThrows.value)]
    ensures var a, r := sv.value, StreamSpec(content, sv, outClosed, start);
              a.startedThrows.None? && a.output.OutputThrows? ==>
                r.calls == [StreamingStarted(start), GetOutputStream, StreamingFailed(ProgressOf(start, 0), a.output.e)]
    ensures var a, r := sv.value, StreamSpec(content, sv, outClosed, start);
              a.startedThrows.None? && a.output.NoStream? ==>
                r.calls == Prelude(start) + [StreamingFailed(ProgressOf(start, 0), NoOutputStream)]
    ensures var a, r := sv.value, StreamSpec(content, sv, outClosed, start);
              a.startedThrows.None? && a.output.Stream? && content.None? ==>
                r.calls == Prelude(start) + [StreamingFailed(ProgressOf(start, 0), NoInputStream)]
    ensures var a, r := sv.value, StreamSpec(content, sv, outClosed, start);
              (a.failedThrows.Some? ==> r.outcome == Threw(a.failedThrows.value))
              && (a.failedThrows.None? ==>
                    r.outcome == if Last(r.calls).cause == UploadInterrupted then Returned
                                 else Threw(UploadFailure(Last(r.calls).cause)))
  {
  }

  /**
   * The part's input is read only by the copy loop: once per write, plus the
   * read that ended the loop unless an interruption did.
   */
  lemma SpecReads(content: Option<seq<ReadResult>>, sv: Option<Answers>, outClosed: bool, start: StreamEvent)
    requires Copied(content, sv)
    ensures var r := StreamSpec(content, sv, outClosed, start);
              Unread(content, sv, outClosed)
              == After(content.value, |r.writes| + if r.writes != [] && sv.value.interrupted(|r.writes| - 1) then 0 else 1)
  {
    var a := sv.value;
    CopyReads(content.value, outClosed, a.interrupted, 0);
    CopyInterrupts(content.value, outClosed, a.interrupted, 0);
  }

  /** What the copy writes: 1 to 4096 bytes at a time, a prefix of what the input offers. */
  lemma SpecWrites(content: Option<seq<ReadResult>>, sv: Option<Answers>, outClosed: bool, start: StreamEvent)
    ensures var r := StreamSpec(content, sv, outClosed, start);
              Sized(r.writes) && (content.Some? ==> Concat(r.writes) <= Available(content.value))
  {
    if sv.Some? {
      AttemptData(content, sv.value, outClosed, start);
    }
  }

  /**
   * isInterrupted is asked once per write, answers are taken in order, and
   * the first true one ends the copy at once: the upload is reported failed
   * with UploadInterruptedException, nothing more is read or written, and
   * nothing is flushed.
   */
  lemma SpecInterrupt(content: Option<seq<ReadResult>>, sv: Option<Answers>, outClosed: bool, start: StreamEvent)
    requires Copied(content, sv)
    ensures var r := StreamSpec(content, sv, outClosed, start);
              (forall j :: 0 <= j < |r.writes| - 1 ==> !sv.value.interrupted(j))
              && (r.writes != [] && sv.value.interrupted(|r.writes| - 1) ==>
                    !r.flushed
                    && Last(r.calls) == StreamingFailed(ProgressOf(start, |Concat(r.writes)|), UploadInterrupted)
                    && r.calls[|r.calls| - 2] == IsInterrupted
                    && Unread(content, sv, outClosed) == After(content.value, |r.writes|))
  {
    var a := sv.value;
    var c := Copy(content.value, outClosed, a.interrupted, 0);
    CopyInterrupts(content.value, outClosed, a.interrupted, 0);
    CopyReads(content.value, outClosed, a.interrupted, 0);
    if c.writes != [] && a.interrupted(|c.writes| - 1) {
      ChecksAt(c.writes, a.listen, start, |c.writes| - 1);
    }
  }

  /**
   * One `in.read(buffer)` and, when it returned bytes, one
   * `out.write(buffer, 0, n)`; `fault` says whether the read failed.
   */
  method Transfer(input: InputStream, out: Sink, buffer: array<byte>)
    returns (n: int, chunk: seq<byte>, failure: Option<Exception>, ghost fault: bool)
    requires buffer.Length == MaxUploadBufferSize
    modifies input, out, buffer
    ensures ReadStep(old(input.pending), MaxUploadBufferSize) == Step(n, chunk, fault, input.pending)
    ensures failure == (if fault || (n > 0 && old(out.closed)) then Some(IOFault) else None)
    ensures failure.None? && n > 0 ==> out.writes == old(out.writes) + [chunk]
    ensures !(failure.None? && n > 0) ==> out.writes == old(out.writes)
    ensures out.flushes == old(out.flushes) && out.closed == old(out.closed)
  {
    ghost var s := ReadStep(input.pending, MaxUploadBufferSize);
    var e;
    n, e := input.Read(buffer);
    fault := s.fault;
    chunk := if n > 0 then buffer[..n] else [];
    if e.Some? || n <= 0 {
      return n, chunk, e, fault;
    }
    failure := out.WriteRange(buffer[..], 0, n);
    assert buffer[..][0..n] == chunk;
  }

  /**
   * One turn of the copy loop: read, write what was read, count it, report
   * progress when listened to, ask whether to stop. `rest` is what the copy
   * does after this turn: nothing, when the turn ends the loop (`stop`, with
   * `failure` saying why, None for an input that ran dry), or the copy from
   * the next check on.
   */
  method Turn(input: InputStream, out: Sink, buffer: array<byte>, a: Answers, start: StreamEvent,
              checks: nat, count: nat, ghost closed: bool)
    returns (step: seq<SvCall>, next: nat, stop: bool, failure: Option<Exception>,
             ghost w: seq<seq<byte>>, ghost rest: CopyRun)
    requires buffer.Length == MaxUploadBufferSize && out.closed == closed
    modifies input, out, buffer
    ensures Copy(old(input.pending), closed, a.interrupted, checks) == Glue(w, rest)
    ensures out.writes == old(out.writes) + w && out.flushes == old(out.flushes) && out.closed == closed
    ensures w == [] ==> step == [] && next == count && stop
    ensures w != [] ==> |w| == 1 && next == count + |w[0]| && step == StepCalls(a.listen, start, next)
    ensures stop ==> rest == CopyRun([], rest.end, input.pending) && failure == EndFailure(rest.end)
    ensures !stop ==> rest == Copy(input.pending, closed, a.interrupted, checks + 1)
                      && Size(input.pending) < Size(old(input.pending))
  {
    ghost var pending := input.pending;
    var n, chunk;
    ghost var fault;
    n, chunk, failure, fault := Transfer(input, out, buffer);
    if failure.Some? || n <= 0 {
      CopyStops(pending, closed, a.interrupted, checks);
      w := [];
      rest := CopyRun([], if fault || n > 0 then CopyFault(IOFault) else Drained, input.pending);
      assert out.writes == old(out.writes) + w;
      return [], count, true, failure, w, rest;
    }
    next := count + n;
    CopyStep(pending, closed, a.interrupted, checks);
    // the progress report when listened to, then the interruption check
    step := StepCalls(a.listen, start, next);
    w := [chunk];
    stop := a.interrupted(checks);
    if stop {
      failure := Some(UploadInterrupted);
      rest := CopyRun([], Interrupted, input.pending);
      assert w + [] == w;
    } else {
      rest := Copy(input.pending, closed, a.interrupted, checks + 1);
    }
  }

  /** The loop's record of calls and count, after the writes of one more turn. */
  lemma Extend(calls: seq<SvCall>, written: seq<seq<byte>>, count: nat, listen: bool, start: StreamEvent,
               step: seq<SvCall>, w: seq<seq<byte>>, next: nat)
    requires calls == Checks(written, listen, start) && count == |Concat(written)|
    requires w == [] ==> step == [] && next == count
    requires w != [] ==> |w| == 1 && next == count + |w[0]| && step == StepCalls(listen, start, next)
    ensures calls + step == Checks(written + w, listen, start) && next == |Concat(written + w)|
  {
    if w == [] {
      assert calls + step == calls && written + w == written;
      assert calls + step == Checks(written + w, listen, start);
    } else {
      assert w == [w[0]];
      ChecksSnoc(written, w[0], listen, start);
    }
  }

  /** One more write adds its own reports after those of the writes before it. */
  lemma ChecksSnoc(written: seq<seq<byte>>, c: seq<byte>, listen: bool, start: StreamEvent)
    ensures Checks(written + [c], listen, start)
              == Checks(written, listen, start) + StepCalls(listen, start, |Concat(written)| + |c|)
    ensures |Concat(written + [c])| == |Concat(written)| + |c|
  {
    var all := written + [c];
    assert all[..|all| - 1] == written && all[|all| - 1] == c;
    ConcatAppend(written, [c]);
    assert [c][..0] == [];
    assert Concat([c]) == c;
  }

  /**
   * The while loop of streamToReceiver. `count` is the exact number of bytes
   * copied; the loop's int totalBytes is Wrap32(count) (WrapAdd), which is
   * what the progress events carry.
   */
  method CopyStream(input: InputStream, out: Sink, a: Answers, start: StreamEvent)
    returns (calls: seq<SvCall>, count: nat, failure: Option<Exception>, ghost whole: CopyRun)
    modifies input, out
    ensures whole == Copy(old(input.pending), old(out.closed), a.interrupted, 0)
    ensures calls == Checks(whole.writes, a.listen, start) && count == |Concat(whole.writes)|
    ensures failure == EndFailure(whole.end)
    ensures out.writes == old(out.writes) + whole.writes
    ensures out.flushes == old(out.flushes) && out.closed == old(out.closed)
    ensures input.pending == whole.left
  {
    var buffer := new byte[MaxUploadBufferSize];
    ghost var closed := out.closed;
    whole := Copy(input.pending, closed, a.interrupted, 0);
    ghost var written: seq<seq<byte>> := [];
    var checks: nat := 0;
    calls, count := [], 0;
    while true
      invariant whole == Glue(written, Copy(input.pending, closed, a.interrupted, checks))
      invariant calls == Checks(written, a.listen, start) && count == |Concat(written)|
      invariant out.writes == old(out.writes) + written
      invariant out.flushes == old(out.flushes) && out.closed == closed
      decreases Size(input.pending)
    {
      var step, next, stop;
      ghost var w, rest;
      step, next, stop, failure, w, rest := Turn(input, out, buffer, a, start, checks, count, closed);
      Extend(calls, written, count, a.listen, start, step, w, next);
      AppendAssoc(written, w, rest.writes);
      AppendAssoc(old(out.writes), written, w);
      calls, count, written := calls + step, next, written + w;
      if stop {
        assert written + [] == written;
        return;
      }
      checks := checks + 1;
    }
  }

  /**
   * The try block of streamToReceiver for a non-null stream variable:
   * `total` is the loop's int totalBytes.
   */
  method Try(input: InputStream?, a: Answers, out: Sink, start: StreamEvent)
    returns (calls: seq<SvCall>, total: int, failure: Option<Exception>, ghost t: Attempted)
    modifies input, out
    ensures t == Attempt(if input == null then None else Some(old(input.pending)), a, old(out.closed), start)
    ensures calls == t.calls && failure == t.failure && total == Wrap32(t.total)
    ensures out.writes == old(out.writes) + t.writes
    ensures out.flushes == old(out.flushes) + (if t.flushed then 1 else 0) && out.closed == old(out.closed)
    ensures input != null ==> input.pending == Unread(Some(old(input.pending)), Some(a), old(out.closed))
  {
    calls := [StreamingStarted(start)];
    if a.startedThrows.Some? {
      failure := a.startedThrows;
      t := Attempted(calls, [], false, 0, failure);
    } else {
      calls := calls + [GetOutputStream];
      if a.output.OutputThrows? {
        failure := Some(a.output.e);
        t := Attempted(calls, [], false, 0, failure);
      } else {
        calls := calls + [ListenProgress];
        if a.output.NoStream? {
          failure := Some(NoOutputStream);
          t := Attempted(calls, [], false, 0, failure);
        } else if input == null {
          failure := Some(NoInputStream);
          t := Attempted(calls, [], false, 0, failure);
        } else {
          calls, total, failure, t := CopyAndFinish(input, out, a, start, calls);
          return;
        }
      }
    }
    assert out.writes == old(out.writes) + [];
    total := 0;
  }

  /**
   * The copy loop and what follows it in the try block: the flush and
   * streamingFinished once the input ran dry.
   */
  method CopyAndFinish(input: InputStream, out: Sink, a: Answers, start: StreamEvent, prelude: seq<SvCall>)
    returns (calls: seq<SvCall>, total: int, failure: Option<Exception>, ghost t: Attempted)
    requires prelude == Prelude(start)
    modifies input, out
    ensures t == Finish(Copy(old(input.pending), old(out.closed), a.interrupted, 0), a, old(out.closed), start)
    ensures calls == t.calls && failure == t.failure && total == Wrap32(t.total)
    ensures out.writes == old(out.writes) + t.writes
    ensures out.flushes == old(out.flushes) + (if t.flushed then 1 else 0) && out.closed == old(out.closed)
    ensures input.pending == Copy(old(input.pending), old(out.closed), a.interrupted, 0).left
  {
    var copied, count;
    ghost var c;
    copied, count, failure, c := CopyStream(input, out, a, start);
    t := Finish(c, a, out.closed, start);
    total := Wrap32(count);
    calls := prelude + copied;
    if failure.None? {
      failure := out.Flush();
      if failure.None? {
        calls := calls + [StreamingFinished(EndEvent(start.fileName, start.mimeType, total))];
        failure := a.finishedThrows;
      }
    }
  }

  /**
   * streamToReceiver itself: `input` is the part's stream, `out` the output
   * stream the variable hands out when `getOutputStream` answers Stream.
   */
  method StreamToReceiver(input: InputStream?, sv: Option<Answers>, out: Sink,
                          filename: Option<string>, mimeType: Option<string>, contentLength: int)
    returns (calls: seq<SvCall>, outcome: Outcome)
    modifies input, out
    ensures var r := StreamSpec(if input == null then None else Some(old(input.pending)), sv, old(out.closed),
                                StartEvent(filename, mimeType, contentLength));
              calls == r.calls && outcome == r.outcome
              && out.writes == old(out.writes) + r.writes
              && out.flushes == old(out.flushes) + (if r.flushed then 1 else 0)
              && out.closed == old(out.closed)
    ensures input != null ==> input.pending == Unread(Some(old(input.pending)), sv, old(out.closed))
  {
    if sv.None? {
      return [], Threw(IllegalState);
    }
    var a := sv.value;
    var start := StartEvent(filename, mimeType, contentLength);
    var total, failure;
    ghost var t;
    calls, total, failure, t := Try(input, a, out, start);
    // the catch blocks
    if failure.Some? {
      calls := calls + [StreamingFailed(ProgressEvent(filename, mimeType, contentLength, total), failure.value)];
      outcome :=
        if a.failedThrows.Some? then Threw(a.failedThrows.value)
        else if failure.value == UploadInterrupted then Returned
        else Threw(UploadFailure(failure.value));
    } else {
      outcome := Returned;
    }
  }
}
