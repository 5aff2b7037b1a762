# vaadin-plupload upload core in Dafny

This project models the server side of vaadin-plupload, a Vaadin component that receives browser uploads sent as one or more multipart HTTP requests (chunks). It covers:

- **TransactionalOutputStream** (`transactional.dfy`): a fixed-capacity byte buffer in front of a delegate stream, which may be null. It has three `write` overloads, `rollback`, `getCapacity`, and a `commit` that hands the buffered bytes to the delegate in 1024-byte blocks.
- **UncloseableOutputStream** (`uncloseable.dfy`): forwards writes to its delegate and turns `close` into a flush. Plupload's nested copy of the class is the same code and is modelled once.
- **AbstractListenable** (`listenable.dfy`): an ordered listener list. It keeps duplicates, removes the first equal entry, and dispatches over a snapshot. A listener may add and remove listeners while it is notified. A listener that throws ends the dispatch, and its exception propagates.
- **Plupload** and its **PluploadStreamVariable** (`plupload.dfy`): the upload session fields, the RPC callbacks, the progress filter, and the stream-variable callbacks. Component events and progress-listener calls are recorded in ghost logs.
- **PluploadRequestHandler** (`handler.dfy`, `streaming.dfy`, `form_fields.dfy`, `input.dfy`, `stream_events.dfy`):
  - the path match of `handleRequest`;
  - the status, headers and body of `handleUploadRequest`;
  - the part loop of `handleMultipartUploadRequest`, with its form fields, defaults and 500 on any exception;
  - `streamToReceiver`: 4096-byte reads, the int `totalBytes`, progress, the interruption check after every write, and the two catch blocks;
  - `readAll`;
  - the streaming event values.

Shared pieces:

- `common.dfy`: bytes, Java exceptions, `Option`, 32-bit `int` wrap-around.
- `sink.dfy`: a destination `OutputStream`. It records each accepted write, the flushes and whether it is closed. A closed stream refuses writes and flushes with an IOException.

How the code is modelled:

- Every stateful class becomes a Dafny `class` with `modifies` clauses, and every loop becomes a `while` loop with invariants. Each method is proved against a function that specifies it: `Copy`, `Checks`, `Attempt`, `StreamSpec`, `Run`, `Multipart`, `Blocks`, `FormStep`, `AllBytes`.
- The stream variable that `streamToReceiver` talks to is not called. How it behaves is an input (`Answers`): whether `streamingStarted` throws, what `getOutputStream` gives, the `listenProgress` answer, the answer of the k-th `isInterrupted`, and whether `streamingFinished` or `streamingFailed` throws. The calls the handler makes on it are returned as a log (`SvCall`).
- An input stream is the sequence of results its reads produce (`ReadResult`). A multipart body is the list of parts the iterator yields, plus a flag saying whether the iterator then raises.

Behaviour of the code worth noting:

- Nothing in the upload path creates a `TransactionalOutputStream`: a chunk's bytes go straight to the receiver's stream, and a failed chunk is not rolled back.
- `onUploadFile` stores the announced content length before it starts the upload, so a second `onUploadFile` during an upload overwrites the length and then fails with IllegalStateException.
- The file name and MIME type are taken from each event as it comes; nothing is merged across chunks. The component's `mimeType` field is never assigned, so it stays null.
- `onFileUploaded` reports the length the client sent, not `bytesRead`. It fires a SucceededEvent even after an interruption.
- `onError` always fires a plain FailedEvent; no event kind marks an exceeded file size.
- An exception in the part loop reaches `handleMultipartUploadRequest`'s catch block, which answers 500.

## Model

| member | source | states |
|---|---|---|
| Common.ToByte | src/main/java/org/mpilone/vaadin/TransactionalOutputStream.java:37-40 | the `(byte) b` cast keeps `b` modulo 256 |
| Common.Wrap32 | src/main/java/org/mpilone/vaadin/PluploadRequestHandler.java:315-318 | the int result lies in the Java int range, is congruent to the exact value modulo 2^32, and equals it when it fits |
| Common.WrapAdd | src/main/java/org/mpilone/vaadin/PluploadRequestHandler.java:317 | accumulating `totalBytes += n` in int arithmetic gives the wrapped exact sum |
| Transactional.BlocksConcat | src/main/java/org/mpilone/vaadin/TransactionalOutputStream.java:72-79 | the 1024-byte blocks of commit, put back together, are exactly the buffered bytes in order |
| Transactional.BlocksSizes | src/main/java/org/mpilone/vaadin/TransactionalOutputStream.java:72-79 | every block is non-empty and at most 1024 bytes; all but the last are full |
| Transactional.BlocksCount | src/main/java/org/mpilone/vaadin/TransactionalOutputStream.java:72-79 | commit makes ceil(position / 1024) delegate writes |
| Transactional.TransactionalOutputStream.constructor | src/main/java/org/mpilone/vaadin/TransactionalOutputStream.java:27-30 | a fresh buffer of the given capacity, nothing buffered, the given delegate, which may be null |
| Transactional.TransactionalOutputStream.GetCapacity | src/main/java/org/mpilone/vaadin/TransactionalOutputStream.java:59-61 | the capacity is the buffer's length, which no operation changes |
| Transactional.TransactionalOutputStream.Put | src/main/java/org/mpilone/vaadin/TransactionalOutputStream.java:43-45 | IndexOutOfBounds for a bad range, then BufferOverflow when the bytes do not fit; either failure leaves the buffer as it was; success holds exactly when the bytes fit, and then appends them; the delegate is untouched |
| Transactional.TransactionalOutputStream.Write | src/main/java/org/mpilone/vaadin/TransactionalOutputStream.java:32-35 | appends all of `b` when it fits, else BufferOverflow with no change; the delegate is untouched |
| Transactional.TransactionalOutputStream.WriteByte | src/main/java/org/mpilone/vaadin/TransactionalOutputStream.java:37-40 | appends the low byte of `b` exactly when there is room, else BufferOverflow with no change |
| Transactional.TransactionalOutputStream.WriteRange | src/main/java/org/mpilone/vaadin/TransactionalOutputStream.java:42-45 | appends exactly `b[off..off+len)` when the range is valid and fits; the two error kinds otherwise, with no change |
| Transactional.TransactionalOutputStream.Rollback | src/main/java/org/mpilone/vaadin/TransactionalOutputStream.java:50-52 | discards everything buffered without touching the delegate |
| Transactional.TransactionalOutputStream.Commit | src/main/java/org/mpilone/vaadin/TransactionalOutputStream.java:68-82 | the delegate receives `Blocks` of the buffered bytes, one write per block, and the buffer is emptied. A non-empty commit fails exactly when the delegate is null (NullPointer) or closed (IOException); then nothing was written and the position has moved past the first block |
| Transactional.RetryAfterRollback | src/main/java/org/mpilone/vaadin/TransactionalOutputStream.java:50-82 | with an open delegate: write N bytes, roll back, write M bytes, commit; the delegate grows by exactly the M bytes, and a second commit adds nothing |
| Uncloseable.UncloseableOutputStream.constructor | src/main/java/org/mpilone/vaadin/UncloseableOutputStream.java:18-20 | keeps the given delegate, which may be null |
| Uncloseable.UncloseableOutputStream.Write | src/main/java/org/mpilone/vaadin/UncloseableOutputStream.java:22-25 | the delegate receives all of `b` as one write; NullPointer for a null delegate; the delegate's own IOException when it is closed |
| Uncloseable.UncloseableOutputStream.WriteByte | src/main/java/org/mpilone/vaadin/UncloseableOutputStream.java:27-30 | the delegate receives exactly one byte |
| Uncloseable.UncloseableOutputStream.WriteRange | src/main/java/org/mpilone/vaadin/UncloseableOutputStream.java:32-35 | the delegate receives exactly `b[off..off+len)`, or IndexOutOfBounds when the range is invalid |
| Uncloseable.UncloseableOutputStream.Flush | src/main/java/org/mpilone/vaadin/UncloseableOutputStream.java:10 | flush is inherited from OutputStream: it never fails and does nothing |
| Uncloseable.UncloseableOutputStream.Close | src/main/java/org/mpilone/vaadin/UncloseableOutputStream.java:37-40 | close only flushes the delegate: it stays open and its writes are unchanged |
| Uncloseable.WritableAfterCloses | src/main/java/org/mpilone/vaadin/UncloseableOutputStream.java:37-40 | after any number of closes an open delegate stays open, the next write reaches it, and it was flushed once per close |
| Uncloseable.WriteAllInOrder | src/main/java/org/mpilone/vaadin/UncloseableOutputStream.java:11-35 | after any sequence of writes the delegate has received them in order, and its contents grew by their concatenation |
| Listenable.RemoveFirstAbsent | src/main/java/org/mpilone/vaadin/AbstractListenable.java:25-27 | removing an absent listener leaves the list unchanged |
| Listenable.RemoveFirstAt | src/main/java/org/mpilone/vaadin/AbstractListenable.java:25-27 | only the first equal entry goes; the others keep their order |
| Listenable.RemoveFirstCount | src/main/java/org/mpilone/vaadin/AbstractListenable.java:25-27 | exactly one copy of the listener disappears from the multiset of entries |
| Listenable.ReactedIgnore | src/main/java/org/mpilone/vaadin/AbstractListenable.java:35-41 | listeners that make no change to the registry leave it unchanged |
| Listenable.FirstRaise | src/main/java/org/mpilone/vaadin/AbstractListenable.java:38-40 | the position of the first listener that throws, or the list's length when none does; every listener before it returns normally |
| Listenable.Deliveries | src/main/java/org/mpilone/vaadin/AbstractListenable.java:38-40 | one delivery per list entry, in list order |
| Listenable.Listenable.constructor | src/main/java/org/mpilone/vaadin/AbstractListenable.java:19 | the list starts empty |
| Listenable.Listenable.AddListener | src/main/java/org/mpilone/vaadin/AbstractListenable.java:21-23 | appends at the end, keeping duplicates |
| Listenable.Listenable.RemoveListener | src/main/java/org/mpilone/vaadin/AbstractListenable.java:25-27 | removes the first equal entry |
| Listenable.Listenable.FireEvent | src/main/java/org/mpilone/vaadin/AbstractListenable.java:35-41 | one dispatch per entry of the list as it was at call time, in order, whatever adds and removes the listeners make meanwhile; their changes still reach the registry. The first listener that throws is the last one notified, and its exception propagates |
| Listenable.Listenable.FireWithoutReactions | src/main/java/org/mpilone/vaadin/AbstractListenable.java:35-41 | firing to listeners that return normally and leave the registry alone reaches all of them and does not change the list |
| Upload.ProgressNotes | src/main/java/org/mpilone/vaadin/Plupload.java:217-234 | nothing when the event's length differs from the stored one; otherwise one note per listener, in order, carrying the bytes and the stored length |
| Upload.FailureEvent | src/main/java/org/mpilone/vaadin/Plupload.java:721-734 | a NoInputStream cause gives NoInputStreamEvent and a NoOutputStream cause NoOutputStreamEvent, each if and only if; any other cause gives a FailedEvent carrying it; every kind reports length 0 and the event's name and type |
| Upload.Plupload.constructor | src/main/java/org/mpilone/vaadin/Plupload.java:124-141 | Java field defaults: not uploading, not interrupted, content length and bytes read 0, no receiver, no listeners |
| Upload.Plupload.SetReceiver | src/main/java/org/mpilone/vaadin/Plupload.java:419-421 | replaces the receiver; every other field of the component stays as it was |
| Upload.Plupload.FireUpdateProgress | src/main/java/org/mpilone/vaadin/Plupload.java:217-234 | the listeners are told exactly `ProgressNotes`: filtered on the content length, in registration order |
| Upload.Plupload.AddProgressListener | src/main/java/org/mpilone/vaadin/Plupload.java:278-280 | appends the listener |
| Upload.Plupload.RemoveProgressListener | src/main/java/org/mpilone/vaadin/Plupload.java:323-325 | removes its first occurrence |
| Upload.Plupload.InterruptUpload | src/main/java/org/mpilone/vaadin/Plupload.java:461-465 | sets `interrupted` only while uploading, otherwise no change |
| Upload.Plupload.StartUpload | src/main/java/org/mpilone/vaadin/Plupload.java:476-482 | IllegalState when an upload is already running; afterwards uploading in either case |
| Upload.Plupload.EndUpload | src/main/java/org/mpilone/vaadin/Plupload.java:505-511 | not uploading, content length -1, bytes read 0, not interrupted |
| Upload.Plupload.IsUploading | src/main/java/org/mpilone/vaadin/Plupload.java:518-520 | returns the uploading flag |
| Upload.Plupload.GetBytesRead | src/main/java/org/mpilone/vaadin/Plupload.java:402-404 | returns bytes read |
| Upload.Plupload.OnError | src/main/java/org/mpilone/vaadin/Plupload.java:80-87 | exactly one FailedEvent without a file name, with the stored length and a RuntimeException carrying the client's message; then the upload ends, whether or not one was active |
| Upload.Plupload.OnUploadFile | src/main/java/org/mpilone/vaadin/Plupload.java:90-98 | stores the length, then starts the upload; during a running upload IllegalState escapes and no StartedEvent is fired |
| Upload.Plupload.OnFileUploaded | src/main/java/org/mpilone/vaadin/Plupload.java:101-108 | exactly one SucceededEvent with the client's length, then the upload ends |
| Upload.Plupload.OnInit | src/main/java/org/mpilone/vaadin/Plupload.java:111-115 | records the runtime |
| Upload.PluploadStreamVariable.constructor | src/main/java/org/mpilone/vaadin/Plupload.java:662-666 | no start event and no stream yet |
| Upload.PluploadStreamVariable.ListenProgress | src/main/java/org/mpilone/vaadin/Plupload.java:669-672 | true exactly when some progress listener is registered |
| Upload.PluploadStreamVariable.OnProgress | src/main/java/org/mpilone/vaadin/Plupload.java:675-678 | the event's bytes and length go through the progress filter |
| Upload.PluploadStreamVariable.IsInterrupted | src/main/java/org/mpilone/vaadin/Plupload.java:681-683 | returns the component's interrupted flag |
| Upload.PluploadStreamVariable.GetOutputStream | src/main/java/org/mpilone/vaadin/Plupload.java:686-697 | asks the receiver, with the start event's name and type, only while no stream is open; otherwise reuses the open stream; each success returns a fresh uncloseable wrapper around it; NullPointer without a receiver or start event |
| Upload.PluploadStreamVariable.StreamingStarted | src/main/java/org/mpilone/vaadin/Plupload.java:700-702 | remembers the start event |
| Upload.PluploadStreamVariable.StreamingFinished | src/main/java/org/mpilone/vaadin/Plupload.java:705-718 | adds the chunk's bytes to bytes read; reports progress against the stored length, so the filter always passes; forgets the stream exactly when bytes read reaches the length; forgets the start event |
| Upload.PluploadStreamVariable.StreamingFailed | src/main/java/org/mpilone/vaadin/Plupload.java:721-747 | fires the classified failure event. With a stream open it closes that stream, forgets it and ends the upload. With none open, a NullPointerException escapes and the upload is not ended |
| Upload.PluploadStreamVariable.StreamingFailedGuarded | src/main/java/org/mpilone/vaadin/Plupload.java:721-747 | the same with a null-safe close: the failure event is fired and the upload ends in every case |
| Upload.FailureWithoutStream | src/main/java/org/mpilone/vaadin/Plupload.java:735-742 | as written, a failure while no stream is open raises NullPointer and leaves the component uploading, so an `onUploadFile` that comes before anything else ends the upload is refused with IllegalState |
| Upload.FailureWithoutStreamGuarded | src/main/java/org/mpilone/vaadin/Plupload.java:735-742 | with the guarded close, the next file starts normally |
| StreamEvents.StartEvent | src/main/java/org/mpilone/vaadin/PluploadRequestHandler.java:562-569 | name, type and content length as given; nothing received |
| StreamEvents.EndEvent | src/main/java/org/mpilone/vaadin/PluploadRequestHandler.java:582-587 | content length and bytes received both equal `totalBytes` |
| StreamEvents.ProgressEvent | src/main/java/org/mpilone/vaadin/PluploadRequestHandler.java:591-609 | the request's content length and the bytes so far (the progress and error events) |
| Input.ReadStep | src/main/java/org/mpilone/vaadin/PluploadRequestHandler.java:315 | `read(buf)` returns -1 or at most the buffer's length, with that many bytes; it fails exactly on a broken stream; a positive read lowers the stream's size |
| Input.InputStream.Read | src/main/java/org/mpilone/vaadin/PluploadRequestHandler.java:315 | the buffer's prefix holds the bytes `ReadStep` takes, and the stream keeps the rest |
| Input.ReadAll | src/main/java/org/mpilone/vaadin/PluploadRequestHandler.java:493-502 | returns everything up to the end of the stream (a read of 0 does not stop it), or the stream's IOException exactly when it breaks first |
| FormFields.ParseInt | src/main/java/org/mpilone/vaadin/PluploadRequestHandler.java:215-217 | `Integer.valueOf`: only results in the int range, only for a non-empty text beginning with a sign or a digit |
| FormFields.ShowNat | src/main/java/org/mpilone/vaadin/PluploadRequestHandler.java:231 | the decimal text of a number is a non-empty run of digits |
| FormFields.ParseShow | src/main/java/org/mpilone/vaadin/PluploadRequestHandler.java:231-234 | `Integer.valueOf` reads back the decimal text of every int |
| FormFields.BaseNameSuffix | src/main/java/org/mpilone/vaadin/PluploadRequestHandler.java:238-240 | `FilenameUtils.getName` gives the longest suffix of the path without a `/` or `\` |
| FormFields.BaseNamePlain | src/main/java/org/mpilone/vaadin/PluploadRequestHandler.java:238-240 | a name without separators is kept as it is |
| FormFields.Text | src/main/java/org/mpilone/vaadin/PluploadRequestHandler.java:231-237 | the field text has one character per byte read, with the byte's value |
| FormFields.FormStep | src/main/java/org/mpilone/vaadin/PluploadRequestHandler.java:228-245 | a null field name raises NullPointer; unknown names leave the fields alone; a broken stream under a known name raises IOException; only the named field changes; the only errors are NullPointer, IOException and NumberFormat |
| FormFields.NumberField | src/main/java/org/mpilone/vaadin/PluploadRequestHandler.java:230-235 | a `chunk` or `chunks` field holding the decimal text of an int sets exactly that field to it |
| Streaming.ProgressOf | src/main/java/org/mpilone/vaadin/PluploadRequestHandler.java:323-325 | progress and error events carry the start event's name, type and content length, and the count as a Java int |
| Streaming.ChecksLength | src/main/java/org/mpilone/vaadin/PluploadRequestHandler.java:315-335 | each write is followed by one progress report when listening, and always by one interruption check |
| Streaming.ChecksAt | src/main/java/org/mpilone/vaadin/PluploadRequestHandler.java:315-335 | after write w come the report of the bytes counted through write w (when listening) and then `isInterrupted` |
| Streaming.ChecksQuiet | src/main/java/org/mpilone/vaadin/PluploadRequestHandler.java:315-335 | the copy loop itself never calls `streamingFinished` or `streamingFailed` |
| Streaming.CopySizes | src/main/java/org/mpilone/vaadin/PluploadRequestHandler.java:312-316 | every write holds 1 to 4096 bytes |
| Streaming.CopyData | src/main/java/org/mpilone/vaadin/PluploadRequestHandler.java:315-318 | the writes are, in order, a prefix of the bytes before the first read of length ≤ 0; all of them when the input ran dry; a fault is an IOException |
| Streaming.CopyReads | src/main/java/org/mpilone/vaadin/PluploadRequestHandler.java:315-334 | the loop reads once per write and, unless an interruption ended it, once more for the read that stopped it; nothing more is read |
| Streaming.CopyInterrupts | src/main/java/org/mpilone/vaadin/PluploadRequestHandler.java:332-334 | the loop ends interrupted if and only if the check after the last write answered true; every earlier check answered false |
| Streaming.EndFailure | src/main/java/org/mpilone/vaadin/PluploadRequestHandler.java:332-334 | only an input that ran dry leaves no exception; an interruption leaves UploadInterruptedException |
| Streaming.Settle | src/main/java/org/mpilone/vaadin/PluploadRequestHandler.java:349-379 | a pending exception adds `streamingFailed` with the error event. An interruption then returns normally; any other cause is rethrown as an UploadException; if `streamingFailed` throws, that exception escapes |
| Streaming.AttemptData | src/main/java/org/mpilone/vaadin/PluploadRequestHandler.java:286-347 | the count is the number of bytes written. The output is flushed exactly when the copy ran and the input ran dry on an open output; then everything the input offered was written. Nothing is written before the copy |
| Streaming.AttemptFramed | src/main/java/org/mpilone/vaadin/PluploadRequestHandler.java:286-347 | the try block calls `streamingStarted` first; `streamingFinished` comes last and only after a flush; `streamingFailed` is never called there |
| Streaming.SettleFrame | src/main/java/org/mpilone/vaadin/PluploadRequestHandler.java:349-379 | after the catch blocks, `streamingFinished` or `streamingFailed` is the last call; `streamingFailed` appears nowhere else |
| Streaming.SpecFrame | src/main/java/org/mpilone/vaadin/PluploadRequestHandler.java:273-381 | a null stream variable raises IllegalState with no call at all; otherwise `streamingStarted` comes first and `streamingFinished` or `streamingFailed` last; `streamingFailed` occurs at most once, and `streamingFinished` only last or just before a `streamingFailed` when it threw; nothing is written unless the variable gave an output stream and the part has an input stream |
| Streaming.SpecCalls | src/main/java/org/mpilone/vaadin/PluploadRequestHandler.java:286-347 | the full call sequence: start, getOutputStream, listenProgress, the reports and checks of the writes, then `streamingFinished` after a flush and `streamingFailed` after a failure |
| Streaming.SpecSucceeds | src/main/java/org/mpilone/vaadin/PluploadRequestHandler.java:337-347 | ends with `streamingFinished` and returns normally if and only if the input ran dry, uninterrupted, on an open output, and `streamingFinished` did not throw. Then all the input's bytes were written and flushed, and the end event carries their count as an int |
| Streaming.SpecFails | src/main/java/org/mpilone/vaadin/PluploadRequestHandler.java:349-379 | a failure is reported with the bytes written so far and the request's content length. If `streamingFailed` throws, that exception escapes. Otherwise the call returns normally if and only if the cause is an interruption, and any other cause is rethrown as an UploadException wrapping it |
| Streaming.SpecNoCopy | src/main/java/org/mpilone/vaadin/PluploadRequestHandler.java:286-306 | when the copy never starts, nothing is read, written or flushed, and `streamingFailed` follows the calls made so far with a count of 0. Its cause is what `streamingStarted` or `getOutputStream` threw, else NoOutputStreamException for a null output stream, else NoInputStreamException for a null input stream. It is rethrown wrapped unless `streamingFailed` throws |
| Streaming.SpecReads | src/main/java/org/mpilone/vaadin/PluploadRequestHandler.java:315-334 | the input is read once per write, plus once for the read that ended the loop unless an interruption did |
| Streaming.SpecWrites | src/main/java/org/mpilone/vaadin/PluploadRequestHandler.java:312-318 | writes of 1 to 4096 bytes forming a prefix of the input |
| Streaming.SpecInterrupt | src/main/java/org/mpilone/vaadin/PluploadRequestHandler.java:332-364 | every check before the last write answered false; a true answer after the last write means nothing is flushed, streamingFinished is not called, and the last calls are that check and `streamingFailed` with UploadInterruptedException; no read follows the interrupted write |
| Streaming.Transfer | src/main/java/org/mpilone/vaadin/PluploadRequestHandler.java:315-316 | one read, and when it returned bytes one write of exactly those bytes; IOException from a broken stream or a closed output |
| Streaming.Turn | src/main/java/org/mpilone/vaadin/PluploadRequestHandler.java:315-334 | one loop turn is the first step of `Copy`: its write, its calls, and the rest of the copy |
| Streaming.CopyStream | src/main/java/org/mpilone/vaadin/PluploadRequestHandler.java:312-335 | the loop writes exactly `Copy`'s writes, makes exactly `Checks`' calls, counts their bytes, leaves its ending's exception, and leaves the input with exactly what `Copy` did not read |
| Streaming.Try | src/main/java/org/mpilone/vaadin/PluploadRequestHandler.java:286-348 | the try block does what `Attempt` says: calls, writes, flush and pending exception, with `totalBytes` as a Java int |
| Streaming.CopyAndFinish | src/main/java/org/mpilone/vaadin/PluploadRequestHandler.java:312-347 | the copy loop, then the flush and `streamingFinished` once the input ran dry |
| Streaming.StreamToReceiver | src/main/java/org/mpilone/vaadin/PluploadRequestHandler.java:273-381 | the calls, outcome, writes and flush are those of `StreamSpec`, and the input is left as `Unread` says (their properties are the Spec lemmas); the output is never closed |
| Handler.FormsFirst | src/main/java/org/mpilone/vaadin/PluploadRequestHandler.java:223-246 | form fields only change the fields: after them the loop continues from the fields they set; if one of them fails, the loop ends with a 500 and no other effect |
| Handler.FoldKeepsName | src/main/java/org/mpilone/vaadin/PluploadRequestHandler.java:228-245 | form fields not named `name` leave the file name as it was, so with no `name` field the first file part's name stays null |
| Handler.FileSeesFields | src/main/java/org/mpilone/vaadin/PluploadRequestHandler.java:210-253 | the first file part starts its upload with the file name the preceding fields set (null when none did), its content type, and the header's length (-1 without the header) |
| Handler.RefusedRun | src/main/java/org/mpilone/vaadin/PluploadRequestHandler.java:247-253 | when every file part is refused at once, nothing is called or written, and a request with a file part fails |
| Handler.NoVariable | src/main/java/org/mpilone/vaadin/PluploadRequestHandler.java:278-280 | without a stream variable no call is made and nothing is written; a request with a file part ends with a 500 |
| Handler.ReadField | src/main/java/org/mpilone/vaadin/PluploadRequestHandler.java:228-245 | reading one form field does what `FormStep` says |
| Handler.VisitPart | src/main/java/org/mpilone/vaadin/PluploadRequestHandler.java:224-253 | one part: a form field updates the fields, a file part is streamed with the current fields; any exception stops the loop |
| Handler.RunParts | src/main/java/org/mpilone/vaadin/PluploadRequestHandler.java:223-254 | the while loop does what `Run` says from the default fields (chunk 0, chunks 1, no name); the output is never closed |
| Handler.HandleMultipartUploadRequest | src/main/java/org/mpilone/vaadin/PluploadRequestHandler.java:204-260 | a bad Content-Length gives a 500 before any part is read; otherwise the parts are handled as `Multipart` says |
| Handler.UploadStatus | src/main/java/org/mpilone/vaadin/PluploadRequestHandler.java:175-196 | 200 if and only if multipart and nothing failed; 400 if and only if not multipart; 500 if and only if multipart and failed |
| Handler.UploadHeaders | src/main/java/org/mpilone/vaadin/PluploadRequestHandler.java:178-200 | the no-cache headers and Content-Length 4 over the existing ones; the second Cache-Control replaces the first |
| Handler.HandleUploadRequest | src/main/java/org/mpilone/vaadin/PluploadRequestHandler.java:172-202 | the status `UploadStatus` gives; the part loop runs only for multipart requests; the body is "DONE" in every case |
| Handler.UploadPathOnly | src/main/java/org/mpilone/vaadin/PluploadRequestHandler.java:79-84 | when the url is the context and servlet path, exactly the requests whose path info is "/upload" match; a null path info never does |
| Handler.HandleRequest | src/main/java/org/mpilone/vaadin/PluploadRequestHandler.java:73-100 | handles, and answers true for, exactly the path `url + "/upload"`; any other request leaves the response and the output untouched |

## Left out

- Vaadin plumbing is not modelled:
  - `registerRpc`, resources, `attach`/`detach`;
  - the reflection-based listener registration for component events;
  - `markAsDirty` and the shared-state setters (runtimes, chunk size, button caption, retries, file size);
  - `getStreamVariable`, `getReceiver` and `getActiveRuntime`.
  Component events are appended to a log instead of being dispatched.
- `session.lock()`/`unlock()` are not modelled: the callbacks run as sequential steps and concurrency is out of scope.
- The JavaScript connector, the example panel, and the shared state classes are not modelled. Streams.java (`tryCommit`, `tryClose`) is not part of this model.
- The multipart parser is not modelled. `isMultipartContent` is a parameter. The body is the list of parts the iterator yields, plus whether it then raises.
- `item.getName()`, evaluated for a log message (PluploadRequestHandler.java:248-249), is not modelled, nor is the invalid-name exception it could raise.
- The clock is not modelled: the Last-Modified date is a parameter. The HTTP date format is not modelled.
- The IOException that `response.getOutputStream().write` may raise is not modelled. The response is a status, a header map and a body.
- The streaming input stream is never null here, because `openStream()` does not return null. The NoInputStream path is still modelled in `Streaming`.
- The handler is not wired to the component. Nothing in this source connects PluploadRequestHandler's stream variable to Plupload's. The stream variable is therefore abstract in `Streaming` and `Handler`, and PluploadStreamVariable is modelled on its own. In `Handler` the variable's behaviour during the n-th file part is `variable(n)`.
- The parsed `chunk` and `chunks` values are not used downstream. streamToReceiver ignores them, and so does the model.
- Logging is not modelled.
- Streaming.StreamToReceiver: does not return the boolean result (whether the stream variable disposed itself through the start event), because its only caller ignores it.
- Streaming.StreamToReceiver: `onProgress`, `listenProgress` and `isInterrupted` are taken never to throw, and the stream variable's callbacks do not read or write the two streams.
- Sinks.Sink: the destination stream refuses writes and flushes only when it is closed. Other I/O failures of a real file or socket stream are not modelled.
- FormFields.ParseInt: accepts only ASCII digits, while Integer.valueOf also takes other Unicode decimal digits.
- FormFields.Text: one character per byte. The platform charset decoding of `Streams.asString` is not modelled.
- FormFields.BaseName: the rejection of names containing a NUL character in newer commons-io versions is not modelled.
- Upload.PluploadStreamVariable.StreamingFinished: `bytesRead` and `contentLength` are unbounded integers. Java `long` overflow is not modelled.
- Transactional.TransactionalOutputStream.constructor: the capacity is a `nat`, so the IllegalArgumentException that ByteBuffer.allocate raises for a negative capacity is excluded rather than modelled.
- Upload.ProgressListener: listeners are opaque. What each is told is logged. A listener cannot change the component from inside `updateProgress`, and it never throws. In Java, a throwing `updateProgress` would end the loop over the listeners and propagate. Inside `streamingFinished` it would also skip `outstream = null` and `lastStartedEvent = null`.
- Upload.Plupload.FireUpdateProgress: Java iterates the live `progressListeners` list, not a copy. The model walks the list as it is when the call starts, which is the same list because listeners cannot change it.
- Transactional.TransactionalOutputStream.Write: the byte array is a `seq<byte>`, which cannot be null, so the NullPointerException of `ByteBuffer.put(null)` is not modelled.
- Transactional.TransactionalOutputStream.WriteRange: the byte array cannot be null, so the NullPointerException for a null array is not modelled.
- Uncloseable.UncloseableOutputStream.Write: the byte array cannot be null, so the NullPointerException that `delegate.write(null)` raises is not modelled.
- Uncloseable.UncloseableOutputStream.WriteRange: the byte array cannot be null, so the NullPointerException for a null array is not modelled.

## Findings

| source | as written | input that shows it | evidently intended | confidence | as-written member | corrected member |
|---|---|---|---|---|---|---|
| src/main/java/org/mpilone/vaadin/Plupload.java:735-747 | `tryClose(outstream)` dereferences `outstream` even when it is null. It catches only IOException, so the NullPointerException escapes and `outstream = null; endUpload()` are skipped | No receiver is set (setReceiver's javadoc says the data is then ignored). `onUploadFile` starts the upload, and the data request's `getOutputStream` fails. `streamingFailed` runs with no stream open, and the component stays uploading. Within the component, an `onUploadFile` for the next file gets IllegalStateException. How long this lasts depends on the client, which is not part of this model: the connector forwards a failed request's Error to `onError` and a finished file to `onFileUploaded`, and both end the upload, so the stuck state most likely lasts only until one of them arrives | a failure always ends the upload: the close is skipped, or its failure ignored, when no stream is open | medium, not executed | Upload.FailureWithoutStream | Upload.FailureWithoutStreamGuarded |
