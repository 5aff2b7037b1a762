/**
 * The streaming event values the request handler hands to a stream variable
 * (PluploadRequestHandler's StreamEventImpl and its four subclasses): a file
 * name, a MIME type, a content length and a byte count. The error event's
 * exception travels beside the event, and the start event's "disposed" flag
 * is not part of the value.
 */
module StreamEvents {
  import opened Common

  datatype StreamEvent = StreamEvent(
    fileName: Option<string>,
    mimeType: Option<string>,
    contentLength: int,
    bytesReceived: int)

  /** StreamingStartEventImpl: nothing received yet. */
  function StartEvent(fileName: Option<string>, mimeType: Option<string>, contentLength: int): (e: StreamEvent)
    ensures e.fileName == fileName && e.mimeType == mimeType
    ensures e.contentLength == contentLength && e.bytesReceived == 0
  {
    StreamEvent(fileName, mimeType, contentLength, 0)
  }

  /** StreamingEndEventImpl: the byte count stands for the content length too. */
  function EndEvent(fileName: Option<string>, mimeType: Option<string>, totalBytes: int): (e: StreamEvent)
    ensures e.fileName == fileName && e.mimeType == mimeType
    ensures e.contentLength == totalBytes && e.bytesReceived == totalBytes
  {
    StreamEvent(fileName, mimeType, totalBytes, totalBytes)
  }

  /** StreamingProgressEventImpl and StreamingErrorEventImpl: the request's length and the bytes so far. */
  function ProgressEvent(fileName: Option<string>, mimeType: Option<string>, contentLength: int, totalBytes: int)
    : (e: StreamEvent)
    ensures e.fileName == fileName && e.mimeType == mimeType
    ensures e.contentLength == contentLength && e.bytesReceived == totalBytes
  {
    StreamEvent(fileName, mimeType, contentLength, totalBytes)
  }
}
