/**
 * The Ollama HTTP client (apps/ai-service/src/clients/ollamaClient.ts).
 * `fetch` and its timeout are outside the model: each call's outcome is an
 * input, already reduced to what the code looks at.
 */
module OllamaClient {
  import opened Wrappers
  import opened Js
  import opened Errors

  /** An embedding vector; its numbers are never inspected. */
  type Vector = seq<real>

  /**
   * What `fetch` did: it threw (an `AbortError` when the timeout fired), or it
   * answered with `ok`, `status`, `statusText` and the outcome of
   * `response.json()` (which can throw too).
   */
  datatype FetchOutcome<T> =
    | Threw(error: Error)
    | Responded(ok: bool, status: int, statusText: string, json: Result<T, Error>)

  /** The JSON body of `/api/embeddings`; `embedding` is absent or `null` as `None`. */
  datatype EmbeddingJson = EmbeddingJson(embedding: Option<Vector>)

  /** The JSON body of a non-streaming `/api/generate`. */
  datatype CompletionJson = CompletionJson(response: string, promptEvalCount: Option<real>, evalCount: Option<real>)

  /** The body `generateEmbedding` posts to `/api/embeddings`: `{model, prompt}`. */
  datatype EmbeddingBody = EmbeddingBody(model: JsValue, prompt: string)

  /** The `CompletionRequest` a caller hands to the client. */
  datatype CompletionRequest = CompletionRequest(model: string, prompt: string, temperature: real, maxTokens: real, stream: bool)

  /** The body posted to `/api/generate`: `{model, prompt, options: {temperature, num_predict}, stream}`. */
  datatype GenerateBody = GenerateBody(model: string, prompt: string, temperature: real, numPredict: real, stream: bool)

  /**
   * The body both completion calls post: `generateCompletion` passes
   * `stream` = false and `generateStreamingCompletion` passes `stream` =
   * true, whatever the request's own `stream` field says.
   */
  function GenerateBodyFor(request: CompletionRequest, stream: bool): (b: GenerateBody)
    ensures b.stream == stream
    ensures b.model == request.model && b.prompt == request.prompt
    ensures b.temperature == request.temperature && b.numPredict == request.maxTokens
  {
    GenerateBody(request.model, request.prompt, request.temperature, request.maxTokens, stream)
  }

  /** The request's `stream` field never reaches the wire: only the method called decides it. */
  lemma StreamFieldIgnored(request: CompletionRequest, stream: bool)
    ensures GenerateBodyFor(request.(stream := true), stream) == GenerateBodyFor(request.(stream := false), stream)
    ensures GenerateBodyFor(request, false).stream != GenerateBodyFor(request, true).stream
  {
  }

  /** The error `makeRequest` raises for a response that is not ok. */
  function RequestFailed(statusText: string, status: int): Error {
    NewAppError("Ollama request failed: " + statusText, status)
  }

  /** The error `makeRequest` raises in place of an abort. */
  function RequestTimeout(): Error {
    NewAppError("Ollama request timeout", 408)
  }

  /**
   * `makeRequest`: a non-ok response raises an `AppError` carrying the
   * response's own status; whatever is raised inside the `try` (that error
   * included) is caught, an `AbortError` is replaced by a 408 timeout and
   * any other error is rethrown unchanged. So no `AbortError` ever leaves it.
   */
  function MakeRequest<T>(o: FetchOutcome<T>): (r: Result<T, Error>)
    ensures r.Success? <==> o.Responded? && o.ok && o.json.Success?
    ensures r.Success? ==> r.value == o.json.value
    ensures o.Responded? && !o.ok ==> r == Failure(RequestFailed(o.statusText, o.status))
    ensures o.Threw? ==>
              r == Failure(if o.error.name == "AbortError" then RequestTimeout() else o.error)
    ensures o.Responded? && o.ok && o.json.Failure? ==>
              r == Failure(if o.json.error.name == "AbortError" then RequestTimeout() else o.json.error)
    ensures r.Failure? ==> r.error.name != "AbortError"
  {
    var raised: Result<T, Error> :=
      match o
      case Threw(e) => Failure(e)
      case Responded(ok, status, statusText, json) =>
        if !ok then Failure(RequestFailed(statusText, status)) else json;
    match raised
    case Success(v) => Success(v)
    case Failure(e) => if e.name == "AbortError" then Failure(RequestTimeout()) else Failure(e)
  }

  /**
   * `generateEmbedding`: the vector of a successful request, or an
   * `AppError` 500 when the body has no `embedding` (an empty array is
   * truthy and is returned); request errors pass through from `MakeRequest`.
   */
  function GenerateEmbedding(o: FetchOutcome<EmbeddingJson>): (r: Result<Vector, Error>)
    ensures r.Success? <==> MakeRequest(o).Success? && MakeRequest(o).value.embedding.Some?
    ensures r.Success? ==> r.value == o.json.value.embedding.value
    ensures MakeRequest(o).Success? && MakeRequest(o).value.embedding.None? ==>
              r == Failure(NewAppError("Invalid embedding response from Ollama", 500))
    ensures MakeRequest(o).Failure? ==> r == Failure(MakeRequest(o).error)
  {
    match MakeRequest(o)
    case Failure(e) => Failure(e)
    case Success(json) =>
      if json.embedding.None? then Failure(NewAppError("Invalid embedding response from Ollama", 500))
      else Success(json.embedding.value)
  }

  /**
   * `generateCompletion`: the parsed body of a successful request, returned
   * as it is (no field is checked); errors as `MakeRequest` raises them.
   */
  function GenerateCompletion(o: FetchOutcome<CompletionJson>): (r: Result<CompletionJson, Error>)
    ensures r.Success? <==> o.Responded? && o.ok && o.json.Success?
    ensures r.Success? ==> r.value == o.json.value
    ensures r.Failure? ==> r.error.name != "AbortError" && r == MakeRequest(o)
  {
    MakeRequest(o)
  }

  /** What the health probe's `fetch` did. */
  datatype Probe = ProbeThrew | ProbeResponded(ok: bool)

  /** `healthCheck`: `response.ok`, and `false` whenever the probe throws. */
  function HealthCheck(p: Probe): (healthy: bool)
    ensures healthy <==> p == ProbeResponded(true)
  {
    match p
    case ProbeThrew => false
    case ProbeResponded(ok) => ok
  }

  /*------------------------------ streaming ------------------------------*/

  /** One server-sent event written to the client: `data: <json>\n\n`. */
  datatype Frame =
    | ContentFrame(content: JsValue)  // {content: data.response}
    | DoneFrame                       // {done: true}
    | ErrorFrame(error: string)       // {error: ...}

  /** The frame's JSON payload. */
  function FramePayload(f: Frame): JsValue {
    match f
    case ContentFrame(c) => Obj(map["content" := c])
    case DoneFrame => Obj(map["done" := Bool(true)])
    case ErrorFrame(e) => Obj(map["error" := Str(e)])
  }

  /** The bytes of a frame on the wire, given `JSON.stringify` as `stringify`. */
  function FrameText(f: Frame, stringify: JsValue -> string): (t: string)
    ensures |t| >= 8 && t[..6] == "data: " && t[|t| - 2..] == "\n\n"
    ensures t[6..|t| - 2] == stringify(FramePayload(f))
  {
    "data: " + stringify(FramePayload(f)) + "\n\n"
  }

  /**
   * The Express response an SSE stream is written to. `frames` records the
   * frames written so far, in order; on the wire each one is its
   * `FrameText`, and the body sent is their concatenation.
   */
  class SseResponse {
    var frames: seq<Frame>
    var ended: bool

    constructor ()
      ensures frames == [] && !ended
    {
      frames := [];
      ended := false;
    }

    /** `res.write(frame)`. */
    method Write(f: Frame)
      modifies this
      ensures frames == old(frames) + [f] && ended == old(ended)
    {
      frames := frames + [f];
    }

    /** `res.end()`. */
    method End()
      modifies this
      ensures frames == old(frames) && ended
    {
      ended := true;
    }
  }

  /** A line of the stream as `JSON.parse` reads it; `None` when parsing throws or gives `null`. */
  datatype StreamLine = StreamLine(response: JsValue, done: JsValue)

  /** How the reader's sequence of reads ended when no `done` line stopped it. */
  datatype ReadEnd = Finished | ReadFailed(error: Error)

  /** What the streaming `fetch` did, and what its body's reader then delivered. */
  datatype StreamReply =
    | StreamThrew(error: Error)
    | StreamResponded(ok: bool, status: int, statusText: string, hasBody: bool, chunks: seq<string>, ending: ReadEnd)

  /**
   * `chunk.split('\n').filter(line => line.trim())`: exactly the non-blank
   * pieces between line breaks, in their order.
   */
  function NonBlankLines(chunk: string): (lines: seq<string>)
    ensures forall i :: 0 <= i < |lines| ==> '\n' !in lines[i] && !AllWhitespace(lines[i])
    ensures forall l :: l in lines <==> l in Split(chunk, '\n') && !AllWhitespace(l)
  {
    Filter(Split(chunk, '\n'))
  }

  /** The filter's test `line => line.trim()`: the trimmed line is a non-empty, so truthy, string. */
  function NonBlank(line: string): (b: bool)
    ensures b <==> !AllWhitespace(line)
  {
    TrimEmptyIff(line);
    |Trim(line)| > 0
  }

  /**
   * `parts.filter(line => line.trim())`: the pieces kept are exactly the
   * non-blank ones, in their order, so a list without blank pieces is kept
   * whole.
   */
  function Filter(parts: seq<string>): (kept: seq<string>)
    requires forall i :: 0 <= i < |parts| ==> '\n' !in parts[i]
    ensures forall i :: 0 <= i < |kept| ==> '\n' !in kept[i] && !AllWhitespace(kept[i])
    ensures forall l :: l in kept <==> l in parts && !AllWhitespace(l)
    ensures |kept| <= |parts|
    ensures (forall i :: 0 <= i < |parts| ==> !AllWhitespace(parts[i])) ==> kept == parts
  {
    if parts == [] then []
    else
      var rest := Filter(parts[1..]);
      if NonBlank(parts[0]) then [parts[0]] + rest else rest
  }

  /** A single piece is dropped exactly when it is blank. */
  lemma FilterOne(p: string)
    requires '\n' !in p
    ensures Filter([p]) == if AllWhitespace(p) then [] else [p]
  {
    assert [p][1..] == [];
  }

  /**
   * Filtering keeps the order of the pieces: the pieces kept from `a + b`
   * are those kept from `a` followed by those kept from `b`.
   */
  lemma {:induction false} FilterAppend(a: seq<string>, b: seq<string>)
    requires forall i :: 0 <= i < |a| ==> '\n' !in a[i]
    requires forall i :: 0 <= i < |b| ==> '\n' !in b[i]
    ensures Filter(a + b) == Filter(a) + Filter(b)
    decreases |a|
  {
    if a == [] {
      assert a + b == b;
    } else {
      assert (a + b)[1..] == a[1..] + b;
      FilterAppend(a[1..], b);
    }
  }

  /**
   * The partner of `NonBlankLines`: non-blank lines without line breaks,
   * joined by `\n`, come back from it unchanged and in order.
   */
  lemma NonBlankLinesOfJoin(lines: seq<string>)
    requires forall i :: 0 <= i < |lines| ==> '\n' !in lines[i] && !AllWhitespace(lines[i])
    ensures NonBlankLines(Join(lines, "\n")) == lines
  {
    if lines == [] {
      assert Split("", '\n') == [""];
      assert AllWhitespace("");
    } else {
      SplitJoin(lines, '\n');
    }
  }

  /** The frames one parsed line produces, and whether it was the `done` line. */
  function LineFrames(line: string, parse: string -> Option<StreamLine>): (seq<Frame>, bool) {
    match parse(line)
    case None => ([], false)
    case Some(data) =>
      ((if Truthy(data.response) then [ContentFrame(data.response)] else [])
        + (if Truthy(data.done) then [DoneFrame] else []),
       Truthy(data.done))
  }

  /** The inner `for` loop: frames of the lines up to and including the first `done` line. */
  function LinesFrames(lines: seq<string>, parse: string -> Option<StreamLine>): (seq<Frame>, bool) {
    if lines == [] then ([], false)
    else
      var (f, done) := LineFrames(lines[0], parse);
      if done then (f, true)
      else
        var (rest, doneLater) := LinesFrames(lines[1..], parse);
        (f + rest, doneLater)
  }

  /**
   * The inner loop composes line by line: when no line of `a` is a `done`
   * line, the lines `a + b` produce the frames of `a` followed by those of
   * `b`, and end the response exactly when `b` does.
   */
  lemma {:induction false} LinesFramesAppend(a: seq<string>, b: seq<string>, parse: string -> Option<StreamLine>)
    requires !LinesFrames(a, parse).1
    ensures LinesFrames(a + b, parse) == (LinesFrames(a, parse).0 + LinesFrames(b, parse).0, LinesFrames(b, parse).1)
    decreases |a|
  {
    if a == [] {
      assert a + b == b;
      assert LinesFrames(a, parse).0 + LinesFrames(b, parse).0 == LinesFrames(b, parse).0;
    } else {
      assert (a + b)[0] == a[0] && (a + b)[1..] == a[1..] + b;
      var (f, done) := LineFrames(a[0], parse);
      LinesFramesAppend(a[1..], b, parse);
      var (fa, _) := LinesFrames(a[1..], parse);
      assert f + (fa + LinesFrames(b, parse).0) == (f + fa) + LinesFrames(b, parse).0;
    }
  }

  /** The outer `while (true)` loop: frames of the chunks up to and including the first `done` line. */
  function ReadsFrames(chunks: seq<string>, parse: string -> Option<StreamLine>): (seq<Frame>, bool) {
    if chunks == [] then ([], false)
    else
      var (f, done) := LinesFrames(NonBlankLines(chunks[0]), parse);
      if done then (f, true)
      else
        var (rest, doneLater) := ReadsFrames(chunks[1..], parse);
        (f + rest, doneLater)
  }

  /** A frame sequence that stops at its first `done`: content frames, then at most one `DoneFrame`, last. */
  predicate DoneOnlyLast(frames: seq<Frame>, done: bool) {
    && (forall i :: 0 <= i < |frames| && frames[i] != DoneFrame ==> frames[i].ContentFrame?)
    && (done <==> DoneFrame in frames)
    && (done ==> frames[|frames| - 1] == DoneFrame && DoneFrame !in frames[..|frames| - 1])
  }

  /** Frames without a `done` frame followed by a well-shaped sequence are well shaped. */
  lemma DoneOnlyLastAppend(f: seq<Frame>, rest: seq<Frame>, done: bool)
    requires DoneOnlyLast(f, false) && DoneOnlyLast(rest, done)
    ensures DoneOnlyLast(f + rest, done)
  {
    if done {
      assert (f + rest)[..|f + rest| - 1] == f + rest[..|rest| - 1];
    }
  }

  lemma {:induction false} LinesFramesShape(lines: seq<string>, parse: string -> Option<StreamLine>)
    ensures DoneOnlyLast(LinesFrames(lines, parse).0, LinesFrames(lines, parse).1)
    decreases |lines|
  {
    if lines != [] {
      var (f, done) := LineFrames(lines[0], parse);
      if !done {
        LinesFramesShape(lines[1..], parse);
        var (rest, doneLater) := LinesFrames(lines[1..], parse);
        assert DoneFrame !in f;
        DoneOnlyLastAppend(f, rest, doneLater);
      }
    }
  }

  /**
   * Whatever the lines say, the frames written are content frames followed
   * by at most one `done` frame, which is then the last one; a `done` frame
   * is written exactly when a `done` line was met.
   */
  lemma {:induction false} ReadsFramesShape(chunks: seq<string>, parse: string -> Option<StreamLine>)
    ensures DoneOnlyLast(ReadsFrames(chunks, parse).0, ReadsFrames(chunks, parse).1)
    decreases |chunks|
  {
    if chunks != [] {
      var lines := NonBlankLines(chunks[0]);
      LinesFramesShape(lines, parse);
      var (f, done) := LinesFrames(lines, parse);
      if !done {
        ReadsFramesShape(chunks[1..], parse);
        var (rest, doneLater) := ReadsFrames(chunks[1..], parse);
        DoneOnlyLastAppend(f, rest, doneLater);
      }
    }
  }

  /** A line that does not parse is skipped: processing goes on with the next line. */
  lemma UnparseableLineSkipped(line: string, rest: seq<string>, parse: string -> Option<StreamLine>)
    requires parse(line).None?
    ensures LinesFrames([line] + rest, parse) == LinesFrames(rest, parse)
  {
    assert ([line] + rest)[1..] == rest;
    assert LineFrames(line, parse) == ([], false);
    assert [] + LinesFrames(rest, parse).0 == LinesFrames(rest, parse).0;
  }

  /** What `generateStreamingCompletion` leaves behind: frames written, whether the response was ended, and what it threw. */
  function StreamOutcome(reply: StreamReply, parse: string -> Option<StreamLine>): (seq<Frame>, bool, Option<Error>) {
    match reply
    case StreamThrew(e) => ([], false, Some(e))
    case StreamResponded(ok, status, statusText, hasBody, chunks, ending) =>
      if !ok then ([], false, Some(RequestFailed(statusText, status)))
      else if !hasBody then ([], false, Some(NewAppError("No response body from Ollama", 500)))
      else
        var (frames, done) := ReadsFrames(chunks, parse);
        (frames, done, if done then None else match ending case Finished => None case ReadFailed(e) => Some(e))
  }

  /**
   * A stream ends the response exactly when it wrote a `done` frame, and then
   * it has not thrown; it throws only when no `done` line was seen, so a
   * response it leaves open is never ended by it.
   */
  lemma StreamOutcomeShape(reply: StreamReply, parse: string -> Option<StreamLine>)
    ensures var (frames, ended, thrown) := StreamOutcome(reply, parse);
            && DoneOnlyLast(frames, ended)
            && (thrown.Some? ==> !ended)
            && (reply.StreamThrew? ==> frames == [] && thrown == Some(reply.error))
  {
    if reply.StreamResponded? {
      ReadsFramesShape(reply.chunks, parse);
    }
  }

  /**
   * The inner `for` loop over one read's lines: writes the frames
   * `LinesFrames` describes and, at a `done` line, ends the response and
   * reports it.
   */
  method WriteLines(lines: seq<string>, parse: string -> Option<StreamLine>, res: SseResponse)
    returns (done: bool)
    modifies res
    ensures res.frames == old(res.frames) + LinesFrames(lines, parse).0
    ensures done == LinesFrames(lines, parse).1
    ensures res.ended == (old(res.ended) || done)
  {
    var j := 0;
    while j < |lines|
      invariant 0 <= j <= |lines|
      invariant res.frames + LinesFrames(lines[j..], parse).0 == old(res.frames) + LinesFrames(lines, parse).0
      invariant LinesFrames(lines[j..], parse).1 == LinesFrames(lines, parse).1
      invariant res.ended == old(res.ended)
    {
      assert lines[j..][1..] == lines[j + 1..];
      var parsed := parse(lines[j]);
      if parsed.Some? {
        var data := parsed.value;
        if Truthy(data.response) {
          res.Write(ContentFrame(data.response));
        }
        if Truthy(data.done) {
          res.Write(DoneFrame);
          res.End();
          return true;
        }
      }
      j := j + 1;
    }
    assert lines[j..] == [];
    return false;
  }

  /** One turn of the read loop, as `ReadsFrames` sees it. */
  lemma ReadsFramesStep(chunks: seq<string>, k: nat, parse: string -> Option<StreamLine>)
    requires k < |chunks|
    ensures var lines := LinesFrames(NonBlankLines(chunks[k]), parse);
            && (lines.1 ==> ReadsFrames(chunks[k..], parse) == (lines.0, true))
            && (!lines.1 ==> ReadsFrames(chunks[k..], parse).0 == lines.0 + ReadsFrames(chunks[k + 1..], parse).0)
            && (!lines.1 ==> ReadsFrames(chunks[k..], parse).1 == ReadsFrames(chunks[k + 1..], parse).1)
  {
    assert chunks[k..][0] == chunks[k];
    assert chunks[k..][1..] == chunks[k + 1..];
  }

  lemma AppendAssoc(a: seq<Frame>, b: seq<Frame>, c: seq<Frame>)
    ensures (a + b) + c == a + (b + c)
  {
  }

  /** The `while (true)` loop over the reads, up to the first `done` line. */
  method WriteChunks(chunks: seq<string>, parse: string -> Option<StreamLine>, res: SseResponse)
    returns (done: bool)
    modifies res
    ensures res.frames == old(res.frames) + ReadsFrames(chunks, parse).0
    ensures done == ReadsFrames(chunks, parse).1
    ensures res.ended == (old(res.ended) || done)
  {
    var k := 0;
    assert chunks[k..] == chunks;
    while k < |chunks|
      invariant 0 <= k <= |chunks|
      invariant res.frames + ReadsFrames(chunks[k..], parse).0 == old(res.frames) + ReadsFrames(chunks, parse).0
      invariant ReadsFrames(chunks[k..], parse).1 == ReadsFrames(chunks, parse).1
      invariant res.ended == old(res.ended)
    {
      ghost var before := res.frames;
      ReadsFramesStep(chunks, k, parse);
      var lines := NonBlankLines(chunks[k]);
      done := WriteLines(lines, parse, res);
      if done {
        return;
      }
      ghost var written := LinesFrames(lines, parse).0;
      ghost var rest := ReadsFrames(chunks[k + 1..], parse).0;
      assert res.frames == before + written;
      AppendAssoc(before, written, rest);
      k := k + 1;
    }
    assert chunks[k..] == [];
    return false;
  }

  /**
   * `generateStreamingCompletion`: writes the frames `StreamOutcome`
   * describes to `res`, ends `res` when a `done` line arrives, and returns
   * the error it throws (None when it returns normally). An abort is not
   * mapped to 408 here: it surfaces as the `AbortError` it is.
   */
  method GenerateStreamingCompletion(reply: StreamReply, parse: string -> Option<StreamLine>, res: SseResponse)
    returns (thrown: Option<Error>)
    modifies res
    ensures res.frames == old(res.frames) + StreamOutcome(reply, parse).0
    ensures res.ended == (old(res.ended) || StreamOutcome(reply, parse).1)
    ensures thrown == StreamOutcome(reply, parse).2
  {
    match reply
    case StreamThrew(e) =>
      return Some(e);
    case StreamResponded(ok, status, statusText, hasBody, chunks, ending) =>
      if !ok {
        return Some(RequestFailed(statusText, status));
      }
      if !hasBody {
        return Some(NewAppError("No response body from Ollama", 500));
      }
      var done := WriteChunks(chunks, parse, res);
      if done {
        return None;
      }
      match ending
      case Finished => return None;
      case ReadFailed(e) => return Some(e);
  }
}
