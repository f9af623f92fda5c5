/**
 * The chat service of the AI service
 * (apps/ai-service/src/services/chatService.ts): it turns a conversation
 * into one prompt and asks Ollama to complete it, either in one answer or as
 * a stream of server-sent events.
 *
 * The optional request fields are only ever read through `||`, so an absent
 * field and its falsy value (`""` or `0`) behave the same; the model writes
 * an absent field as that falsy value.
 */
module ChatService {
  import opened Wrappers
  import opened Js
  import opened Errors
  import opened OllamaClient

  datatype ChatMessage = ChatMessage(role: string, content: string)

  /** `ChatCompletionRequest`; `""` and `0.0` stand for an absent field. */
  datatype ChatRequest = ChatRequest(messages: seq<ChatMessage>, context: string, model: string,
                                     temperature: real, maxTokens: real)

  /** `ChatCompletionResponse`. */
  datatype ChatCompletion = ChatCompletion(content: string, promptTokens: Option<real>, completionTokens: Option<real>)

  const DefaultModel := "llama2"
  const DefaultTemperature := 0.7
  const DefaultMaxTokens := 2000.0

  /** One message as a prompt line: `role: content`. */
  function Line(m: ChatMessage): string {
    m.role + ": " + m.content
  }

  /** The messages as prompt lines, in order. */
  function Rendered(messages: seq<ChatMessage>): (lines: seq<string>)
    ensures |lines| == |messages|
    ensures forall i :: 0 <= i < |messages| ==> lines[i] == Line(messages[i])
  {
    if messages == [] then [] else [Line(messages[0])] + Rendered(messages[1..])
  }

  /** `buildPrompt`: an optional context paragraph, then one line per message. */
  function BuildPrompt(messages: seq<ChatMessage>, context: string): string {
    (if context != "" then "Context: " + context + "\n\n" else "") + Join(Rendered(messages), "\n")
  }

  /** A message whose role and content hold no line break. */
  predicate SingleLine(m: ChatMessage) {
    '\n' !in m.role && '\n' !in m.content
  }

  lemma LineHasNoBreak(m: ChatMessage)
    requires SingleLine(m)
    ensures '\n' !in Line(m)
  {
    assert forall c :: c in Line(m) ==> c in m.role || c in ": " || c in m.content;
  }

  /**
   * The prompt can be read back: when no message spans lines, splitting the
   * prompt at line breaks gives the context line, a blank line, and then
   * exactly one `role: content` line per message, in order.
   */
  lemma {:induction false} PromptLines(messages: seq<ChatMessage>, context: string)
    requires messages != []
    requires forall i :: 0 <= i < |messages| ==> SingleLine(messages[i])
    requires '\n' !in context
    ensures context == "" ==> Split(BuildPrompt(messages, context), '\n') == Rendered(messages)
    ensures context != "" ==>
              Split(BuildPrompt(messages, context), '\n') == ["Context: " + context, ""] + Rendered(messages)
  {
    var lines := Rendered(messages);
    forall i | 0 <= i < |lines| ensures '\n' !in lines[i] {
      LineHasNoBreak(messages[i]);
    }
    if context == "" {
      assert BuildPrompt(messages, context) == [] + Join(lines, "\n");
      assert [] + Join(lines, "\n") == Join(lines, ['\n']);
      SplitJoin(lines, '\n');
    } else {
      var head := "Context: " + context;
      assert '\n' !in head by {
        assert forall c :: c in head ==> c in "Context: " || c in context;
      }
      var all := [head, ""] + lines;
      assert all[1..] == [""] + lines;
      assert ([""] + lines)[1..] == lines;
      JoinCons(head, [""] + lines, "\n");
      JoinCons("", lines, "\n");
      assert BuildPrompt(messages, context) == Join(all, "\n");
      forall i | 0 <= i < |all| ensures '\n' !in all[i] {
        if i >= 2 { assert all[i] == lines[i - 2]; }
      }
      SplitJoin(all, '\n');
    }
  }

  /** The `CompletionRequest` the service builds: falsy settings fall back to llama2, 0.7 and 2000. */
  function CompletionRequestFor(request: ChatRequest, stream: bool): (c: CompletionRequest)
    ensures c.prompt == BuildPrompt(request.messages, request.context) && c.stream == stream
    ensures c.model == (if request.model != "" then request.model else DefaultModel)
    ensures c.temperature == (if request.temperature != 0.0 then request.temperature else DefaultTemperature)
    ensures c.maxTokens == (if request.maxTokens != 0.0 then request.maxTokens else DefaultMaxTokens)
  {
    CompletionRequest(
      if request.model != "" then request.model else DefaultModel,
      BuildPrompt(request.messages, request.context),
      if request.temperature != 0.0 then request.temperature else DefaultTemperature,
      if request.maxTokens != 0.0 then request.maxTokens else DefaultMaxTokens,
      stream)
  }

  /** No setting reaches Ollama falsy: an explicit `temperature: 0` is sent as 0.7. */
  lemma SettingsNeverFalsy(request: ChatRequest, stream: bool)
    ensures var c := CompletionRequestFor(request, stream);
            c.model != "" && c.temperature != 0.0 && c.maxTokens != 0.0
    ensures CompletionRequestFor(request.(temperature := 0.0), stream).temperature == DefaultTemperature
  {
  }

  /** What `generateCompletion` sent to Ollama, if anything, and what it returned or threw. */
  datatype ChatCall = ChatCall(sent: Option<CompletionRequest>, result: Result<ChatCompletion, Error>)

  /**
   * `generateCompletion`, with `fetch` telling what the call to Ollama does
   * for the body it is given. An empty conversation is refused with a 400
   * before anything is sent; otherwise exactly one request goes out, and
   * every failure of it (a timeout, an upstream status, a bad body) is
   * reported as the same 500.
   */
  function GenerateCompletion(request: ChatRequest, fetch: GenerateBody -> FetchOutcome<CompletionJson>): (c: ChatCall)
    ensures c.sent.None? <==> request.messages == []
    ensures c.sent.None? ==> c.result == Failure(NewAppError("Messages array cannot be empty", 400))
    ensures c.sent.Some? ==> c.sent.value == CompletionRequestFor(request, false)
    ensures c.sent.Some? ==>
              var o := fetch(GenerateBodyFor(c.sent.value, false));
              && (c.result.Success? <==> o.Responded? && o.ok && o.json.Success?)
              && (c.result.Success? ==>
                    c.result.value == ChatCompletion(o.json.value.response, o.json.value.promptEvalCount, o.json.value.evalCount))
              && (c.result.Failure? ==> c.result.error == NewAppError("Failed to generate chat completion", 500))
  {
    if request.messages == [] then
      ChatCall(None, Failure(NewAppError("Messages array cannot be empty", 400)))
    else
      var sent := CompletionRequestFor(request, false);
      match OllamaClient.GenerateCompletion(fetch(GenerateBodyFor(sent, false)))
      case Success(json) =>
        ChatCall(Some(sent), Success(ChatCompletion(json.response, json.promptEvalCount, json.evalCount)))
      case Failure(_) =>
        ChatCall(Some(sent), Failure(NewAppError("Failed to generate chat completion", 500)))
  }

  /** Whatever Ollama does, the caller sees only a 400 for an empty conversation or a 500. */
  lemma CompletionErrorsAreHidden(request: ChatRequest, fetch: GenerateBody -> FetchOutcome<CompletionJson>)
    ensures var c := GenerateCompletion(request, fetch);
            c.result.Failure? ==> c.result.error.AppError? && c.result.error.statusCode in {400, 500}
    ensures request.messages != [] && (forall b :: fetch(b).Threw?) ==>
              GenerateCompletion(request, fetch).result == Failure(NewAppError("Failed to generate chat completion", 500))
  {
  }

  /**
   * The frames a chat stream writes and whether it ends the response: the
   * client's frames, then one `{error: 'Stream failed'}` frame and `end()`
   * when the client threw.
   */
  function ChatStreamOutcome(reply: StreamReply, parse: string -> Option<StreamLine>): (seq<Frame>, bool) {
    var (frames, done, thrown) := StreamOutcome(reply, parse);
    if thrown.Some? then (frames + [ErrorFrame("Stream failed")], true) else (frames, done)
  }

  /** The frame that closes a stream: `done` or an error. */
  predicate Closing(f: Frame) {
    f.DoneFrame? || f.ErrorFrame?
  }

  /** Appending a closing frame for a failure to a stream that stopped at its first `done`. */
  lemma ClosedByLastFrame(frames: seq<Frame>, done: bool, failed: bool)
    requires DoneOnlyLast(frames, done) && (failed ==> !done)
    ensures var out := if failed then frames + [ErrorFrame("Stream failed")] else frames;
            && (forall i :: 0 <= i < |out| - 1 ==> out[i].ContentFrame?)
            && (failed || done <==> |out| > 0 && Closing(out[|out| - 1]))
  {
    if !done {
      assert forall i :: 0 <= i < |frames| ==> frames[i] != DoneFrame;
    } else {
      forall i | 0 <= i < |frames| - 1 ensures frames[i].ContentFrame? {
        assert frames[i] == frames[..|frames| - 1][i];
      }
    }
  }

  /**
   * A chat stream writes content frames followed by at most one closing
   * frame, and it ends the response exactly when it wrote that closing
   * frame.
   */
  lemma ChatStreamShape(reply: StreamReply, parse: string -> Option<StreamLine>)
    ensures var (frames, ended) := ChatStreamOutcome(reply, parse);
            && (forall i :: 0 <= i < |frames| - 1 ==> frames[i].ContentFrame?)
            && (ended <==> |frames| > 0 && Closing(frames[|frames| - 1]))
  {
    StreamOutcomeShape(reply, parse);
    var t := StreamOutcome(reply, parse);
    ClosedByLastFrame(t.0, t.1, t.2.Some?);
  }

  /**
   * When Ollama's stream runs out without a `done` line and without a read
   * error, nothing ends the response: the client's loop returns normally
   * and so does the service.
   */
  lemma StreamWithoutDoneStaysOpen(reply: StreamReply, parse: string -> Option<StreamLine>)
    requires reply.StreamResponded? && reply.ok && reply.hasBody && reply.ending == Finished
    requires !ReadsFrames(reply.chunks, parse).1
    ensures !ChatStreamOutcome(reply, parse).1
    ensures ChatStreamOutcome(reply, parse).0 == ReadsFrames(reply.chunks, parse).0
  {
  }

  /**
   * `generateStreamingCompletion`: builds the streaming request (without the
   * empty-conversation check of the non-streaming call), lets the client
   * write to `res`, and turns any failure into a final error frame and
   * `end()`. It never throws.
   */
  method GenerateStreamingCompletion(request: ChatRequest, reply: StreamReply, parse: string -> Option<StreamLine>,
                                     res: SseResponse)
    returns (sent: CompletionRequest)
    modifies res
    ensures sent == CompletionRequestFor(request, true)
    ensures res.frames == old(res.frames) + ChatStreamOutcome(reply, parse).0
    ensures res.ended == (old(res.ended) || ChatStreamOutcome(reply, parse).1)
  {
    sent := CompletionRequestFor(request, true);
    var thrown := OllamaClient.GenerateStreamingCompletion(reply, parse, res);
    if thrown.Some? {
      res.Write(ErrorFrame("Stream failed"));
      res.End();
    }
  }
}
