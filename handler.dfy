/**
 * PluploadRequestHandler's request side: the path match in handleRequest,
 * the response handleUploadRequest writes, and the loop of
 * handleMultipartUploadRequest over the parts of a multipart body, which
 * reads the form fields and streams every file part through
 * streamToReceiver.
 *
 * The multipart parser is not modelled: a request body is the list of parts
 * it yields, and a flag saying whether the part iterator then raises (a
 * malformed body). The stream variable's behaviour during the n-th file part
 * is `variable.value(n)`; `variable` is None when the handler holds no
 * stream variable.
 */
module Handler {
  import opened Common
  import opened Sinks
  import opened Input
  import opened StreamEvents
  import opened Streaming
  import opened FormFields

  /** One item of the multipart body. */
  datatype Part = Part(fieldName: Option<string>, isFormField: bool, contentType: Option<string>,
                       body: seq<ReadResult>)

  /** The parts the iterator yields and, after them, whether it raises instead of ending. */
  datatype Request = Request(contentLength: Option<string>, parts: seq<Part>, breaks: bool)

  /** What a request made happen: stream-variable calls, writes and flushes of the output, and a 500. */
  datatype Handled = Handled(calls: seq<SvCall>, writes: seq<seq<byte>>, flushes: nat, failed: bool)

  /** `a` followed by `b`. */
  function Then(a: Handled, b: Handled): Handled
  {
    Handled(a.calls + b.calls, a.writes + b.writes, a.flushes + b.flushes, b.failed)
  }

  /** The stream variable's answers for the k-th file part, or None for a null stream variable. */
  function VariableAt(variable: Option<nat -> Answers>, k: nat): Option<Answers>
  {
    if variable.None? then None else Some(variable.value(k))
  }

  /** The Content-Length header as an int: -1 when absent, None when Integer.valueOf rejects it. */
  function HeaderLength(header: Option<string>): Option<int>
  {
    if header.None? then Some(-1) else ParseInt(header.value)
  }

  /** What streaming a file part produces, given the fields before it and the number of file parts before it. */
  type Streamer = (Part, Fields, nat) -> StreamRun

  /**
   * streamToReceiver for the file parts of one request: the part's stream,
   * the handler's stream variable, the current file name, the part's
   * content type and the request's content length.
   */
  function Streamed(contentLength: int, variable: Option<nat -> Answers>, outClosed: bool): Streamer
  {
    (p: Part, f: Fields, k: nat) =>
      StreamSpec(Some(p.body), VariableAt(variable, k), outClosed, StartEvent(f.fileName, p.contentType, contentLength))
  }

  /** The effect of one part, whether the loop stops after it, and the state the next part sees. */
  datatype Visited = Visited(done: Handled, stop: bool, fields: Fields, files: nat)

  /**
   * One part: a form field updates the fields or fails; a file part is
   * streamed. Any exception ends the loop with a 500.
   */
  function Visit(p: Part, f: Fields, stream: Streamer, k: nat): Visited
  {
    if p.isFormField then
      match FormStep(f, p.fieldName, p.body)
      case Err(_) => Visited(Handled([], [], 0, true), true, f, k)
      case Ok(g) => Visited(Handled([], [], 0, false), false, g, k)
    else
      var r := stream(p, f, k);
      var threw := r.outcome.Threw?;
      Visited(Handled(r.calls, r.writes, if r.flushed then 1 else 0, threw), threw, f, k + 1)
  }

  /** The part loop from some part on, given the fields and the number of file parts seen. */
  function Run(parts: seq<Part>, breaks: bool, f: Fields, stream: Streamer, k: nat): Handled
    decreases |parts|
  {
    if parts == [] then Handled([], [], 0, breaks)
    else
      var v := Visit(parts[0], f, stream, k);
      if v.stop then v.done
      else Then(v.done, Run(parts[1..], breaks, v.fields, stream, v.files))
  }

  /** handleMultipartUploadRequest: the header first, then the parts from the default fields. */
  function Multipart(req: Request, variable: Option<nat -> Answers>, outClosed: bool): Handled
  {
    match HeaderLength(req.contentLength)
    case None => Handled([], [], 0, true)
    case Some(n) => Run(req.parts, req.breaks, Defaults, Streamed(n, variable, outClosed), 0)
  }

  predicate AllFormFields(parts: seq<Part>)
  {
    forall i :: 0 <= i < |parts| ==> parts[i].isFormField
  }

  /** The fields after the form fields `forms`, from `f`, in order; the first failure stops it. */
  function Fold(f: Fields, forms: seq<Part>): Parsed
    decreases |forms|
  {
    if forms == [] then Ok(f)
    else match FormStep(f, forms[0].fieldName, forms[0].body)
      case Err(e) => Err(e)
      case Ok(g) => Fold(g, forms[1..])
  }

  /**
   * Form fields only change the fields: a run of them followed by anything
   * behaves as what follows, started from the fields they set, or fails
   * with a 500 and no other effect when one of them fails.
   */
  lemma {:induction false} FormsFirst(forms: seq<Part>, rest: seq<Part>, breaks: bool, f: Fields, stream: Streamer,
                                      k: nat)
    requires AllFormFields(forms)
    ensures Fold(f, forms).Ok? ==>
              Run(forms + rest, breaks, f, stream, k) == Run(rest, breaks, Fold(f, forms).fields, stream, k)
    ensures Fold(f, forms).Err? ==> Run(forms + rest, breaks, f, stream, k) == Handled([], [], 0, true)
  {
    if forms != [] {
      var all := forms + rest;
      assert all[0] == forms[0] && all[1..] == forms[1..] + rest;
      match FormStep(f, forms[0].fieldName, forms[0].body)
      case Err(_) =>
      case Ok(g) =>
        FormsFirst(forms[1..], rest, breaks, g, stream, k);
        var tail := Run(all[1..], breaks, g, stream, k);
        assert Then(Handled([], [], 0, false), tail) == tail;
    } else {
      assert forms + rest == rest;
    }
  }

  /**
   * The first file part is streamed with the fields seen before it: after a
   * run of form fields it starts its upload with the file name they set
   * (None when none did, FoldKeepsName), its own content type and the
   * request's content length (-1 without the header).
   */
  lemma FileSeesFields(req: Request, forms: seq<Part>, file: Part, rest: seq<Part>,
                       variable: Option<nat -> Answers>, outClosed: bool)
    requires req.parts == forms + [file] + rest && AllFormFields(forms) && !file.isFormField
    requires variable.Some? && HeaderLength(req.contentLength).Some? && Fold(Defaults, forms).Ok?
    ensures var h := Multipart(req, variable, outClosed);
              h.calls != []
              && h.calls[0] == StreamingStarted(StartEvent(Fold(Defaults, forms).fields.fileName, file.contentType,
                                                           HeaderLength(req.contentLength).value))
  {
    var n := HeaderLength(req.contentLength).value;
    var g := Fold(Defaults, forms).fields;
    var stream := Streamed(n, variable, outClosed);
    assert req.parts == forms + ([file] + rest);
    FormsFirst(forms, [file] + rest, req.breaks, Defaults, stream, 0);
    var start := StartEvent(g.fileName, file.contentType, n);
    SpecFrame(Some(file.body), VariableAt(variable, 0), outClosed, start);
    assert stream(file, g, 0) == StreamSpec(Some(file.body), VariableAt(variable, 0), outClosed, start);
    assert ([file] + rest)[0] == file;
  }

  /** Form fields not named `name` leave the file name as it was. */
  lemma {:induction false} FoldKeepsName(f: Fields, forms: seq<Part>)
    requires forall i :: 0 <= i < |forms| ==> forms[i].fieldName != Some("name")
    ensures Fold(f, forms).Ok? ==> Fold(f, forms).fields.fileName == f.fileName
    decreases |forms|
  {
    if forms != [] {
      match FormStep(f, forms[0].fieldName, forms[0].body)
      case Err(_) =>
      case Ok(g) => FoldKeepsName(g, forms[1..]);
    }
  }

  /** A null stream variable: streamToReceiver raises IllegalStateException at once. */
  ghost predicate Refuses(stream: Streamer)
  {
    forall p: Part, f: Fields, k: nat :: stream(p, f, k) == StreamRun([], [], false, Threw(IllegalState))
  }

  lemma NoVariableRefuses(n: int, outClosed: bool)
    ensures Refuses(Streamed(n, None, outClosed))
  {
  }

  /**
   * Without a stream variable no call is made and nothing is written: the
   * first file part ends the request with a 500.
   */
  lemma {:induction false} RefusedRun(parts: seq<Part>, breaks: bool, f: Fields, stream: Streamer, k: nat)
    requires Refuses(stream)
    ensures var h := Run(parts, breaks, f, stream, k);
              h.calls == [] && h.writes == [] && h.flushes == 0 && (!AllFormFields(parts) ==> h.failed)
    decreases |parts|
  {
    if parts != [] {
      var v := Visit(parts[0], f, stream, k);
      if !v.stop {
        RefusedRun(parts[1..], breaks, v.fields, stream, v.files);
        if !AllFormFields(parts) {
          var i :| 0 <= i < |parts| && !parts[i].isFormField;
          assert i > 0 && !parts[1..][i - 1].isFormField;
        }
      }
    }
  }

  lemma NoVariable(req: Request, outClosed: bool)
    ensures var h := Multipart(req, None, outClosed);
              h.calls == [] && h.writes == [] && h.flushes == 0 && (!AllFormFields(req.parts) ==> h.failed)
  {
    match HeaderLength(req.contentLength)
    case None =>
    case Some(n) =>
      NoVariableRefuses(n, outClosed);
      RefusedRun(req.parts, req.breaks, Defaults, Streamed(n, None, outClosed), 0);
  }

  /** One form field, read as the loop reads it: the switch first, then the whole stream as text. */
  method ReadField(f: Fields, name: Option<string>, body: seq<ReadResult>) returns (r: Parsed)
    ensures r == FormStep(f, name, body)
  {
    if name.None? {
      return Err(NullPointer);
    }
    if name.value !in {"chunk", "chunks", "name"} {
      return Ok(f);
    }
    var input := new InputStream(body);
    var data, err := ReadAll(input);
    if err.Some? {
      return Err(IOFault);
    }
    var value := Text(data);
    if name.value == "name" {
      return Ok(f.(fileName := Some(BaseName(value))));
    }
    var n := ParseInt(value);
    if n.None? {
      return Err(NumberFormat);
    }
    r := if name.value == "chunk" then Ok(f.(chunk := n.value)) else Ok(f.(chunks := n.value));
  }

  /** One turn of the part loop; `out` is the output stream the stream variable hands out. */
  method VisitPart(p: Part, f: Fields, contentLength: int, variable: Option<nat -> Answers>, out: Sink, k: nat)
    returns (calls: seq<SvCall>, stop: bool, next: Fields, files: nat, ghost v: Visited)
    modifies out
    ensures v == Visit(p, f, Streamed(contentLength, variable, old(out.closed)), k)
    ensures calls == v.done.calls && stop == v.stop && next == v.fields && files == v.files
    ensures out.writes == old(out.writes) + v.done.writes && out.flushes == old(out.flushes) + v.done.flushes
    ensures out.closed == old(out.closed)
  {
    ghost var stream := Streamed(contentLength, variable, out.closed);
    v := Visit(p, f, stream, k);
    if p.isFormField {
      var r := ReadField(f, p.fieldName, p.body);
      assert out.writes == old(out.writes) + [];
      match r
      case Err(_) => return [], true, f, k, v;
      case Ok(g) => return [], false, g, k, v;
    }
    ghost var run := stream(p, f, k);
    var input := new InputStream(p.body);
    var outcome;
    calls, outcome := StreamToReceiver(input, VariableAt(variable, k), out, f.fileName, p.contentType, contentLength);
    assert calls == run.calls && outcome == run.outcome;
    stop, next, files := outcome.Threw?, f, k + 1;
  }

  /**
   * handleMultipartUploadRequest: reads the Content-Length header, then
   * walks the parts with the default fields; `failed` is the 500 its catch
   * block sets.
   */
  method HandleMultipartUploadRequest(req: Request, variable: Option<nat -> Answers>, out: Sink)
    returns (calls: seq<SvCall>, failed: bool)
    modifies out
    ensures var h := Multipart(req, variable, old(out.closed));
              calls == h.calls && failed == h.failed
              && out.writes == old(out.writes) + h.writes && out.flushes == old(out.flushes) + h.flushes
    ensures out.closed == old(out.closed)
  {
    var contentLength := -1;
    if req.contentLength.Some? {
      var n := ParseInt(req.contentLength.value);
      if n.None? {
        assert out.writes == old(out.writes) + [];
        return [], true;
      }
      contentLength := n.value;
    }
    calls, failed := RunParts(req, contentLength, variable, out);
  }

  /**
   * One turn of the part loop on the first of the parts still to come:
   * `done` is what the parts before it did, `calls` its calls so far, and
   * `base` the output's writes before the loop. The turn either stops the
   * loop with what the whole request did, or leaves what the next part sees.
   */
  method Step(rest: seq<Part>, breaks: bool, f: Fields, contentLength: int,
              variable: Option<nat -> Answers>, out: Sink, k: nat, calls: seq<SvCall>,
              ghost done: Handled, ghost base: seq<seq<byte>>, ghost baseFlushes: nat)
    returns (calls': seq<SvCall>, stop: bool, next: Fields, files: nat, ghost done': Handled)
    requires rest != [] && Tracks(out, base, baseFlushes, out.closed, done, calls)
    modifies out
    ensures var stream := Streamed(contentLength, variable, old(out.closed));
              var whole := Then(done, Run(rest, breaks, f, stream, k));
              if stop then whole == done' && done'.failed
              else whole == Then(done', Run(rest[1..], breaks, next, stream, files))
    ensures Tracks(out, base, baseFlushes, old(out.closed), done', calls')
  {
    ghost var v;
    var step;
    step, stop, next, files, v := VisitPart(rest[0], f, contentLength, variable, out, k);
    ghost var stream := Streamed(contentLength, variable, old(out.closed));
    ThenAssoc(done, v.done, Run(rest[1..], breaks, next, stream, files));
    AppendAssoc(base, done.writes, v.done.writes);
    done' := Then(done, v.done);
    calls' := calls + step;
  }

  /** The output and the call log show what the parts so far did. */
  ghost predicate Tracks(out: Sink, base: seq<seq<byte>>, baseFlushes: nat, closed: bool, done: Handled,
                         calls: seq<SvCall>)
    reads out
  {
    out.writes == base + done.writes && out.flushes == baseFlushes + done.flushes && out.closed == closed
    && calls == done.calls
  }

  /** The while loop over the parts, with the request's content length. */
  method RunParts(req: Request, contentLength: int, variable: Option<nat -> Answers>, out: Sink)
    returns (calls: seq<SvCall>, failed: bool)
    modifies out
    ensures var h := Run(req.parts, req.breaks, Defaults, Streamed(contentLength, variable, old(out.closed)), 0);
              Tracks(out, old(out.writes), old(out.flushes), old(out.closed), h, calls) && failed == h.failed
  {
    ghost var stream := Streamed(contentLength, variable, out.closed);
    ghost var whole := Run(req.parts, req.breaks, Defaults, stream, 0);
    ghost var done := Handled([], [], 0, false);
    var fields := Defaults;
    var files: nat := 0;
    var rest := req.parts;
    calls := [];
    assert old(out.writes) + [] == old(out.writes);
    while rest != []
      invariant whole == Then(done, Run(rest, req.breaks, fields, stream, files))
      invariant Tracks(out, old(out.writes), old(out.flushes), old(out.closed), done, calls)
      decreases |rest|
    {
      var stop;
      calls, stop, fields, files, done :=
        Step(rest, req.breaks, fields, contentLength, variable, out, files, calls, done, old(out.writes),
             old(out.flushes));
      if stop {
        return calls, true;
      }
      rest := rest[1..];
    }
    assert calls + [] == calls && done.writes + [] == done.writes;
    failed := req.breaks;
  }

  lemma ThenAssoc(a: Handled, b: Handled, c: Handled)
    ensures Then(a, Then(b, c)) == Then(Then(a, b), c)
  {
    AppendAssoc(a.calls, b.calls, c.calls);
    AppendAssoc(a.writes, b.writes, c.writes);
  }

  /** The servlet response: its status, its headers (setHeader replaces a value) and the body written. */
  class Response {
    var status: int
    var headers: map<string, string>
    var body: seq<byte>

    constructor ()
      ensures status == 200 && headers == map[] && body == []
    {
      status, headers, body := 200, map[], [];
    }

    method SetStatus(code: int)
      modifies this
      ensures status == code && headers == old(headers) && body == old(body)
    {
      status := code;
    }

    method SetHeader(name: string, value: string)
      modifies this
      ensures headers == old(headers)[name := value] && status == old(status) && body == old(body)
    {
      headers := headers[name := value];
    }

    method Write(b: seq<byte>)
      modifies this
      ensures body == old(body) + b && status == old(status) && headers == old(headers)
    {
      body := body + b;
    }
  }

  /** "DONE" in ASCII. */
  const Done: seq<byte> := [68, 79, 78, 69]

  /** The status handleUploadRequest leaves: 400 for a body that is not multipart, 500 after a failure, else 200. */
  function UploadStatus(multipart: bool, failed: bool): (code: int)
    ensures code == 200 <==> multipart && !failed
    ensures code == 400 <==> !multipart
    ensures code == 500 <==> multipart && failed
  {
    if !multipart then 400 else if failed then 500 else 200
  }

  /** The headers handleUploadRequest sets, over those already there; the second Cache-Control replaces the first. */
  function UploadHeaders(h: map<string, string>, date: string): (r: map<string, string>)
    ensures r.Keys == h.Keys + {"Expires", "Last-Modified", "Cache-Control", "Pragma", "Content-Length"}
    ensures r["Expires"] == "Mon, 26 Jul 1997 05:00:00 GMT" && r["Last-Modified"] == date
    ensures r["Cache-Control"] == "post-check=0, pre-check=0" && r["Pragma"] == "no-cache"
    ensures r["Content-Length"] == "4"
    ensures forall k :: k in h && k !in {"Expires", "Last-Modified", "Cache-Control", "Pragma", "Content-Length"} ==>
              r[k] == h[k]
  {
    h["Expires" := "Mon, 26 Jul 1997 05:00:00 GMT"]["Last-Modified" := date]
     ["Cache-Control" := "no-store, no-cache, must-revalidate"]["Cache-Control" := "post-check=0, pre-check=0"]
     ["Pragma" := "no-cache"]["Content-Length" := "4"]
  }

  /**
   * handleUploadRequest: status 200, the no-cache headers (`date` is the
   * formatted current time), the multipart handling when the body is
   * multipart, then Content-Length 4 and the body "DONE" in every case.
   */
  method HandleUploadRequest(response: Response, multipart: bool, req: Request,
                             variable: Option<nat -> Answers>, out: Sink, date: string)
    returns (calls: seq<SvCall>)
    modifies response, out
    ensures var h := Multipart(req, variable, old(out.closed));
              response.status == UploadStatus(multipart, h.failed)
              && calls == (if multipart then h.calls else [])
              && out.writes == old(out.writes) + (if multipart then h.writes else [])
              && out.flushes == old(out.flushes) + (if multipart then h.flushes else 0)
    ensures out.closed == old(out.closed)
    ensures response.headers == UploadHeaders(old(response.headers), date)
    ensures response.body == old(response.body) + Done
  {
    response.SetStatus(200);
    response.SetHeader("Expires", "Mon, 26 Jul 1997 05:00:00 GMT");
    response.SetHeader("Last-Modified", date);
    response.SetHeader("Cache-Control", "no-store, no-cache, must-revalidate");
    response.SetHeader("Cache-Control", "post-check=0, pre-check=0");
    response.SetHeader("Pragma", "no-cache");
    calls := [];
    if multipart {
      var failed;
      calls, failed := HandleMultipartUploadRequest(req, variable, out);
      if failed {
        response.SetStatus(500);
      }
    } else {
      response.SetStatus(400);
      assert out.writes == old(out.writes) + [];
    }
    response.SetHeader("Content-Length", "4");
    response.Write(Done);
  }

  /** The request path: context path, servlet path and path info, a null path info written "null". */
  function RequestPath(contextPath: string, servletPath: string, pathInfo: Option<string>): string
  {
    contextPath + servletPath + (if pathInfo.None? then "null" else pathInfo.value)
  }

  /**
   * When the handler's url is the context and servlet path, it handles
   * exactly the requests whose path info is "/upload".
   */
  lemma UploadPathOnly(url: string, contextPath: string, servletPath: string, pathInfo: Option<string>)
    requires url == contextPath + servletPath
    ensures RequestPath(contextPath, servletPath, pathInfo) == url + "/upload" <==> pathInfo == Some("/upload")
  {
    var info := if pathInfo.None? then "null" else pathInfo.value;
    var path := RequestPath(contextPath, servletPath, pathInfo);
    if path == url + "/upload" {
      assert path[|url|..] == info;
      assert (url + "/upload")[|url|..] == "/upload";
      assert info != "null";
    }
  }

  /**
   * handleRequest: handles, and answers true for, exactly the requests
   * whose path is the handler's url followed by "/upload"; any other
   * request is left alone.
   */
  method HandleRequest(url: string, contextPath: string, servletPath: string, pathInfo: Option<string>,
                       response: Response, multipart: bool, req: Request, variable: Option<nat -> Answers>,
                       out: Sink, date: string)
    returns (handled: bool, calls: seq<SvCall>)
    modifies response, out
    ensures handled <==> RequestPath(contextPath, servletPath, pathInfo) == url + "/upload"
    ensures !handled ==> calls == [] && unchanged(response) && unchanged(out)
    ensures handled ==>
              var h := Multipart(req, variable, old(out.closed));
              response.status == UploadStatus(multipart, h.failed)
              && calls == (if multipart then h.calls else [])
              && response.headers == UploadHeaders(old(response.headers), date)
              && response.body == old(response.body) + Done
              && out.writes == old(out.writes) + (if multipart then h.writes else [])
              && out.flushes == old(out.flushes) + (if multipart then h.flushes else 0)
              && out.closed == old(out.closed)
  {
    if RequestPath(contextPath, servletPath, pathInfo) == url + "/upload" {
      calls := HandleUploadRequest(response, multipart, req, variable, out, date);
      return true, calls;
    }
    return false, [];
  }
}
