/**
 * The Plupload component's upload session: the fields its RPC callbacks and
 * its stream variable update (uploading, interrupted, contentLength,
 * bytesRead, the lazily opened output stream), the progress listeners, and
 * the component events it fires. Vaadin's event plumbing is reduced to an
 * event log; progress listeners are opaque objects and what they are told is
 * logged as well.
 */
module Upload {
  import opened Common
  import opened Sinks
  import opened Uncloseable
  import opened StreamEvents
  import Listenable

  /** The component events (StartedEvent, SucceededEvent, FailedEvent and its two subclasses). */
  datatype UploadEvent =
    | Started(filename: Option<string>, mimeType: Option<string>, contentLength: int)
    | Succeeded(filename: Option<string>, mimeType: Option<string>, length: int)
    | Failed(filename: Option<string>, mimeType: Option<string>, length: int, reason: Option<Exception>)
    | NoInputStreamFailed(filename: Option<string>, mimeType: Option<string>, length: int)
    | NoOutputStreamFailed(filename: Option<string>, mimeType: Option<string>, length: int)

  /** The error report the client sends over RPC. */
  datatype PluploadError = PluploadError(code: int, message: string)

  /** One `updateProgress(totalBytes, contentLength)` call on a progress listener. */
  datatype ProgressNote = ProgressNote(listener: ProgressListener, totalBytes: int, contentLength: int)

  /** An application's `Upload.ProgressListener`, compared by identity. */
  class ProgressListener {
    constructor () {}
  }

  /**
   * An application's `Upload.Receiver`: it answers every request with the
   * stream it was given and remembers what it was asked for.
   */
  class Receiver {
    var answer: Sink?
    ghost var requests: seq<(Option<string>, Option<string>)>

    constructor (answer: Sink?)
      ensures this.answer == answer && requests == []
    {
      this.answer := answer;
      requests := [];
    }

    method ReceiveUpload(filename: Option<string>, mimeType: Option<string>) returns (s: Sink?)
      modifies this
      ensures s == answer && answer == old(answer)
      ensures requests == old(requests) + [(filename, mimeType)]
    {
      requests := requests + [(filename, mimeType)];
      s := answer;
    }
  }

  /**
   * The notes the progress filter produces: none unless the event's content
   * length equals the stored one; otherwise one per listener, in
   * registration order, each carrying the stored content length.
   */
  function ProgressNotes(stored: int, eventLength: int, listeners: seq<ProgressListener>, totalBytes: int)
    : (r: seq<ProgressNote>)
    ensures eventLength != stored ==> r == []
    ensures eventLength == stored ==> |r| == |listeners|
    ensures forall i :: 0 <= i < |r| ==> r[i] == ProgressNote(listeners[i], totalBytes, stored)
  {
    if stored == eventLength then seq(|listeners|, i requires 0 <= i < |listeners| => ProgressNote(listeners[i], totalBytes, stored))
    else []
  }

  /**
   * How `streamingFailed` classifies a failure: the two "no stream" causes
   * get their own event kinds, anything else is a FailedEvent carrying the
   * exception; every kind reports length 0.
   */
  function FailureEvent(event: StreamEvent, cause: Exception): (r: UploadEvent)
    ensures !r.Started? && !r.Succeeded? && r.length == 0 && r.filename == event.fileName && r.mimeType == event.mimeType
    ensures r.NoInputStreamFailed? <==> cause == NoInputStream
    ensures r.NoOutputStreamFailed? <==> cause == NoOutputStream
    ensures r.Failed? <==> cause != NoInputStream && cause != NoOutputStream
    ensures r.Failed? ==> r.reason == Some(cause)
  {
    if cause == NoInputStream then NoInputStreamFailed(event.fileName, event.mimeType, 0)
    else if cause == NoOutputStream then NoOutputStreamFailed(event.fileName, event.mimeType, 0)
    else Failed(event.fileName, event.mimeType, 0, Some(cause))
  }

  class Plupload {
    var uploading: bool
    var interrupted: bool
    var contentLength: int
    /** Never assigned by the component, so it stays null. */
    var mimeType: Option<string>
    var bytesRead: int
    var activeRuntime: Option<string>
    var progressListeners: seq<ProgressListener>
    var receiver: Receiver?
    /** The component events fired so far. */
    ghost var events: seq<UploadEvent>
    /** The progress-listener calls made so far. */
    ghost var progress: seq<ProgressNote>

    /** Java's field defaults: in particular contentLength starts at 0, not -1. */
    constructor ()
      ensures !uploading && !interrupted && contentLength == 0 && bytesRead == 0
      ensures mimeType == None && activeRuntime == None && receiver == null
      ensures progressListeners == [] && events == [] && progress == []
    {
      uploading, interrupted := false, false;
      contentLength, bytesRead := 0, 0;
      mimeType, activeRuntime := None, None;
      progressListeners := [];
      receiver := null;
      events, progress := [], [];
    }

    method SetReceiver(r: Receiver?)
      modifies this`receiver
      ensures receiver == r
      ensures uploading == old(uploading) && interrupted == old(interrupted)
      ensures contentLength == old(contentLength) && bytesRead == old(bytesRead)
      ensures mimeType == old(mimeType) && activeRuntime == old(activeRuntime)
      ensures progressListeners == old(progressListeners)
      ensures events == old(events) && progress == old(progress)
    {
      receiver := r;
    }

    /** Stand-in for Vaadin's `fireEvent`: the event is appended to the log. */
    method FireEvent(e: UploadEvent)
      modifies this`events
      ensures events == old(events) + [e]
    {
      events := events + [e];
    }

    /**
     * `fireUpdateProgress`: the listeners hear of the progress only when the
     * event's content length matches the stored one, and then each is told
     * `(totalBytes, stored contentLength)`, in registration order.
     */
    method FireUpdateProgress(totalBytes: int, eventLength: int)
      modifies this`progress
      ensures progress == old(progress) + ProgressNotes(contentLength, eventLength, progressListeners, totalBytes)
    {
      if contentLength == eventLength {
        var i := 0;
        while i < |progressListeners|
          invariant 0 <= i <= |progressListeners|
          invariant progress == old(progress) + ProgressNotes(contentLength, eventLength, progressListeners[..i], totalBytes)
        {
          progress := progress + [ProgressNote(progressListeners[i], totalBytes, contentLength)];
          i := i + 1;
        }
        assert progressListeners[..i] == progressListeners;
      }
    }

    method AddProgressListener(l: ProgressListener)
      modifies this`progressListeners
      ensures progressListeners == old(progressListeners) + [l]
    {
      progressListeners := progressListeners + [l];
    }

    method RemoveProgressListener(l: ProgressListener)
      modifies this`progressListeners
      ensures progressListeners == Listenable.RemoveFirst(old(progressListeners), l)
    {
      progressListeners := Listenable.RemoveFirst(progressListeners, l);
    }

    /** `interruptUpload`: takes effect only while an upload is in progress. */
    method InterruptUpload()
      modifies this`interrupted
      ensures interrupted == (old(interrupted) || uploading)
    {
      if uploading {
        interrupted := true;
      }
    }

    /** `startUpload`: refuses to start a second upload. */
    method StartUpload() returns (err: Option<Exception>)
      modifies this`uploading
      ensures err == (if old(uploading) then Some(IllegalState) else None)
      ensures uploading
    {
      if uploading {
        return Some(IllegalState);
      }
      uploading := true;
      err := None;
    }

    /** `endUpload`: back to the idle state. */
    method EndUpload()
      modifies this`uploading, this`contentLength, this`bytesRead, this`interrupted
      ensures !uploading && contentLength == -1 && bytesRead == 0 && !interrupted
    {
      uploading := false;
      contentLength := -1;
      bytesRead := 0;
      interrupted := false;
    }

    method IsUploading() returns (r: bool)
      ensures r == uploading
    {
      r := uploading;
    }

    method GetBytesRead() returns (r: int)
      ensures r == bytesRead
    {
      r := bytesRead;
    }

    /** RPC `onError`: one FailedEvent without a file name, then the session ends, active or not. */
    method OnError(error: PluploadError)
      modifies this
      ensures events == old(events) + [Failed(None, mimeType, old(contentLength), Some(Runtime(error.message)))]
      ensures !uploading && contentLength == -1 && bytesRead == 0 && !interrupted
      ensures mimeType == old(mimeType) && receiver == old(receiver) && activeRuntime == old(activeRuntime)
      ensures progressListeners == old(progressListeners) && progress == old(progress)
    {
      FireEvent(Failed(None, mimeType, contentLength, Some(Runtime(error.message))));
      EndUpload();
    }

    /**
     * RPC `onUploadFile`: records the announced length, then starts the
     * upload; if one is already running the IllegalStateException escapes,
     * the length stays overwritten and no StartedEvent is fired.
     */
    method OnUploadFile(filename: Option<string>, length: int) returns (err: Option<Exception>)
      modifies this
      ensures contentLength == length && uploading
      ensures err == (if old(uploading) then Some(IllegalState) else None)
      ensures events == old(events) + (if err.None? then [Started(filename, None, length)] else [])
      ensures interrupted == old(interrupted) && bytesRead == old(bytesRead)
      ensures mimeType == old(mimeType) && receiver == old(receiver) && activeRuntime == old(activeRuntime)
      ensures progressListeners == old(progressListeners) && progress == old(progress)
    {
      contentLength := length;
      err := StartUpload();
      if err.Some? {
        return;
      }
      FireEvent(Started(filename, None, contentLength));
    }

    /** RPC `onFileUploaded`: one SucceededEvent with the client's length, then the session ends. */
    method OnFileUploaded(filename: Option<string>, length: int)
      modifies this
      ensures events == old(events) + [Succeeded(filename, mimeType, length)]
      ensures !uploading && contentLength == -1 && bytesRead == 0 && !interrupted
      ensures mimeType == old(mimeType) && receiver == old(receiver) && activeRuntime == old(activeRuntime)
      ensures progressListeners == old(progressListeners) && progress == old(progress)
    {
      FireEvent(Succeeded(filename, mimeType, length));
      EndUpload();
    }

    /** RPC `onInit`: remembers the runtime the client chose, nothing else. */
    method OnInit(runtime: Option<string>)
      modifies this`activeRuntime
      ensures activeRuntime == runtime
    {
      activeRuntime := runtime;
    }
  }

  /**
   * The component's StreamVariable: the data channel's side of the session.
   * It shares the component's fields and adds the last start event and the
   * receiver's output stream, opened on first use and kept across chunks.
   */
  class PluploadStreamVariable {
    const owner: Plupload
    var lastStartedEvent: Option<StreamEvent>
    var outstream: Sink?

    constructor (owner: Plupload)
      ensures this.owner == owner && lastStartedEvent == None && outstream == null
    {
      this.owner := owner;
      lastStartedEvent := None;
      outstream := null;
    }

    /** `listenProgress`: true exactly when some progress listener is registered. */
    method ListenProgress() returns (r: bool)
      ensures r == (owner.progressListeners != [])
    {
      r := owner.progressListeners != [];
    }

    /** `onProgress`: the event's byte count and content length go through the progress filter. */
    method OnProgress(event: StreamEvent)
      modifies owner`progress
      ensures owner.progress == old(owner.progress)
                + ProgressNotes(owner.contentLength, event.contentLength, owner.progressListeners, event.bytesReceived)
    {
      owner.FireUpdateProgress(event.bytesReceived, event.contentLength);
    }

    method IsInterrupted() returns (r: bool)
      ensures r == owner.interrupted
    {
      r := owner.interrupted;
    }

    /**
     * `getOutputStream`: asks the receiver for a stream only while none is
     * open, and always hands out a fresh uncloseable wrapper around the open
     * stream (which is null if the receiver returned null). Dereferencing a
     * missing start event or a missing receiver raises a NullPointerException.
     */
    method GetOutputStream() returns (out: UncloseableOutputStream?, err: Option<Exception>)
      modifies this`outstream, owner.receiver
      ensures old(outstream) != null ==>
                err == None && outstream == old(outstream)
                && (owner.receiver != null ==> owner.receiver.requests == old(owner.receiver.requests))
      ensures old(outstream) == null && (owner.receiver == null || lastStartedEvent.None?) ==>
                err == Some(NullPointer) && out == null && outstream == null
                && (owner.receiver != null ==> owner.receiver.requests == old(owner.receiver.requests))
      ensures old(outstream) == null && owner.receiver != null && lastStartedEvent.Some? ==>
                err == None && outstream == old(owner.receiver.answer)
                && owner.receiver.requests == old(owner.receiver.requests)
                   + [(lastStartedEvent.value.fileName, lastStartedEvent.value.mimeType)]
      ensures err.None? ==> out != null && fresh(out) && out.delegate == outstream
      ensures owner.receiver != null ==> owner.receiver.answer == old(owner.receiver.answer)
    {
      if outstream == null {
        if lastStartedEvent.None? || owner.receiver == null {
          return null, Some(NullPointer);
        }
        outstream := owner.receiver.ReceiveUpload(lastStartedEvent.value.fileName, lastStartedEvent.value.mimeType);
      }
      out := new UncloseableOutputStream(outstream);
      err := None;
    }

    method StreamingStarted(event: StreamEvent)
      modifies this`lastStartedEvent
      ensures lastStartedEvent == Some(event)
    {
      lastStartedEvent := Some(event);
    }

    /**
     * `streamingFinished`: adds the chunk's byte count to bytesRead, reports
     * progress against the stored content length (so the filter always
     * passes), forgets the output stream (without closing it) once bytesRead
     * reaches the announced length, and forgets the start event.
     */
    method StreamingFinished(event: StreamEvent)
      modifies this, owner`bytesRead, owner`progress
      ensures owner.bytesRead == old(owner.bytesRead) + event.bytesReceived
      ensures owner.progress == old(owner.progress)
                + ProgressNotes(owner.contentLength, owner.contentLength, owner.progressListeners, owner.bytesRead)
      ensures outstream == (if owner.bytesRead == owner.contentLength then null else old(outstream))
      ensures lastStartedEvent == None
    {
      owner.bytesRead := owner.bytesRead + event.bytesReceived;
      owner.FireUpdateProgress(owner.bytesRead, owner.contentLength);
      if owner.bytesRead == owner.contentLength {
        outstream := null;
      }
      lastStartedEvent := None;
    }

    /**
     * `streamingFailed`: fires the event FailureEvent classifies, closes the
     * receiver's stream for real, forgets it and ends the upload. With no
     * stream open, `tryClose` dereferences null: the NullPointerException
     * escapes (it is not an IOException) and the upload is not ended.
     */
    method StreamingFailed(event: StreamEvent, cause: Exception) returns (err: Option<Exception>)
      modifies this`outstream, owner, outstream
      ensures owner.events == old(owner.events) + [FailureEvent(event, cause)]
      ensures err == (if old(outstream) == null then Some(NullPointer) else None)
      ensures outstream == null
      ensures old(outstream) != null ==>
                old(outstream).closed && old(outstream).writes == old(outstream.writes)
                && old(outstream).flushes == old(outstream.flushes)
                && !owner.uploading && owner.contentLength == -1 && owner.bytesRead == 0 && !owner.interrupted
      ensures old(outstream) == null ==>
                owner.uploading == old(owner.uploading) && owner.contentLength == old(owner.contentLength)
                && owner.bytesRead == old(owner.bytesRead) && owner.interrupted == old(owner.interrupted)
      ensures owner.receiver == old(owner.receiver) && owner.progressListeners == old(owner.progressListeners)
      ensures owner.progress == old(owner.progress) && owner.mimeType == old(owner.mimeType)
      ensures owner.activeRuntime == old(owner.activeRuntime) && lastStartedEvent == old(lastStartedEvent)
    {
      owner.FireEvent(FailureEvent(event, cause));
      if outstream == null {
        return Some(NullPointer);
      }
      outstream.Close();
      outstream := null;
      owner.EndUpload();
      err := None;
    }

    /**
     * `streamingFailed` with a `tryClose` that skips a null stream: the
     * upload ends whether or not a stream was open, as the close that
     * ignores all failures and setReceiver's promise that a missing receiver
     * only drops the data call for.
     */
    method StreamingFailedGuarded(event: StreamEvent, cause: Exception)
      modifies this`outstream, owner, outstream
      ensures owner.events == old(owner.events) + [FailureEvent(event, cause)]
      ensures outstream == null
      ensures old(outstream) != null ==>
                old(outstream).closed && old(outstream).writes == old(outstream.writes)
                && old(outstream).flushes == old(outstream.flushes)
      ensures !owner.uploading && owner.contentLength == -1 && owner.bytesRead == 0 && !owner.interrupted
      ensures owner.receiver == old(owner.receiver) && owner.progressListeners == old(owner.progressListeners)
      ensures owner.progress == old(owner.progress) && owner.mimeType == old(owner.mimeType)
      ensures owner.activeRuntime == old(owner.activeRuntime) && lastStartedEvent == old(lastStartedEvent)
    {
      owner.FireEvent(FailureEvent(event, cause));
      if outstream != null {
        outstream.Close();
      }
      outstream := null;
      owner.EndUpload();
    }
  }

  /**
   * As written: a failure reported while no stream is open (no receiver was
   * set, or it returned null) leaves the component uploading, so the
   * client's next file is refused with an IllegalStateException.
   */
  method FailureWithoutStream(sv: PluploadStreamVariable, event: StreamEvent, cause: Exception,
                              filename: Option<string>, length: int)
    returns (failed: Option<Exception>, next: Option<Exception>)
    requires sv.outstream == null && sv.owner.uploading
    modifies sv, sv.owner
    ensures failed == Some(NullPointer) && next == Some(IllegalState)
  {
    failed := sv.StreamingFailed(event, cause);
    next := sv.owner.OnUploadFile(filename, length);
  }

  /** With the guarded close the same failure ends the upload, and the next file starts. */
  method FailureWithoutStreamGuarded(sv: PluploadStreamVariable, event: StreamEvent, cause: Exception,
                                     filename: Option<string>, length: int)
    returns (next: Option<Exception>)
    requires sv.outstream == null && sv.owner.uploading
    modifies sv, sv.owner
    ensures next == None && sv.owner.uploading
    ensures |sv.owner.events| > 0 && sv.owner.events[|sv.owner.events| - 1] == Started(filename, None, length)
  {
    sv.StreamingFailedGuarded(event, cause);
    next := sv.owner.OnUploadFile(filename, length);
  }
}
