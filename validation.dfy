/**
 * Request validators of the AI service
 * (apps/ai-service/src/middleware/validation.ts). Each is a chain of checks
 * over the parsed body; the first failing check decides, and the middleware
 * ends in exactly one call to `next`, with or without an error. The body is
 * only read, never changed.
 */
module Validation {
  import opened Wrappers
  import opened Js
  import opened Errors

  /** Longest text, in characters, the embedding endpoints accept. */
  const MaxTextLength := 8000

  /** The one call to `next` a validator makes. */
  datatype Verdict = Next | NextWithError(error: Error)

  function Reject(message: string): Verdict {
    NextWithError(NewAppError(message, 400))
  }

  /*------------------------------ embeddings ------------------------------*/

  /** What an accepted embedding request looks like, stated without `trim`. */
  predicate EmbeddingRequestOk(body: Body) {
    var text := Field(body, "text");
    var model := Field(body, "model");
    && text.Str?
    && !AllWhitespace(text.s)
    && |text.s| <= MaxTextLength
    && (!Truthy(model) || model.Str?)
  }

  /**
   * `validateEmbeddingRequest`: every rejection is an `AppError` with status
   * 400; the request passes exactly when `EmbeddingRequestOk` holds; and the
   * checks run in the source's order (missing or non-string text, then blank
   * text, then the untrimmed length, then the model's type).
   */
  function ValidateEmbeddingRequest(body: Body): (v: Verdict)
    ensures v.NextWithError? ==> v.error.AppError? && v.error.statusCode == 400
    ensures v.Next? <==> EmbeddingRequestOk(body)
    ensures var text := Field(body, "text");
            && (!text.Str? || text.s == "" ==> v == Reject("text is required and must be a string"))
            && (text.Str? && text.s != "" && AllWhitespace(text.s) ==> v == Reject("text cannot be empty"))
            && (text.Str? && !AllWhitespace(text.s) && |text.s| > MaxTextLength ==>
                  v == Reject("text too long (max 8000 characters)"))
  {
    var text := Field(body, "text");
    var model := Field(body, "model");
    if !Truthy(text) || !text.Str? then
      Reject("text is required and must be a string")
    else
      assert text.Str? && text.s != "";
      TrimEmptyIff(text.s);
      if |Trim(text.s)| == 0 then
        Reject("text cannot be empty")
      else if |text.s| > MaxTextLength then
        Reject("text too long (max 8000 characters)")
      else if Truthy(model) && !model.Str? then
        Reject("model must be a string")
      else
        Next
  }

  /** The limit counts untrimmed characters: 8000 of them pass, 8001 do not, even with padding. */
  lemma EmbeddingLengthBoundary(body: Body, s: string)
    requires !Truthy(Field(body, "model"))
    requires |s| >= 1 && !IsWhitespace(s[0])
    ensures |s| == MaxTextLength ==> ValidateEmbeddingRequest(body["text" := Str(s)]) == Next
    ensures |s| == MaxTextLength + 1 ==>
              ValidateEmbeddingRequest(body["text" := Str(s)]) == Reject("text too long (max 8000 characters)")
  {
    var b := body["text" := Str(s)];
    assert Field(b, "text") == Str(s);
    assert Field(b, "model") == Field(body, "model");
    assert !AllWhitespace(s) by { assert !IsWhitespace(s[0]); }
  }

  /*--------------------------------- chat ---------------------------------*/

  predicate IsRole(v: JsValue) {
    v == Str("user") || v == Str("assistant") || v == Str("system")
  }

  /** A message the scan lets through: an object with a known role and truthy content. */
  predicate MessageOk(m: JsValue) {
    m.Obj? && IsRole(Field(m.fields, "role")) && Truthy(Field(m.fields, "content"))
  }

  /** The loop body for one message: `None` lets the scan go on. */
  function CheckMessage(m: JsValue): (r: Option<Error>)
    ensures r.None? <==> MessageOk(m)
  {
    match Prop(m, "role")
    case None => Some(NullPropertyError("role"))
    case Some(role) =>
      var content := Prop(m, "content").value;
      if !Truthy(role) || !Truthy(content) then
        Some(NewAppError("each message must have role and content", 400))
      else if !IsRole(role) then
        Some(NewAppError("message role must be user, assistant, or system", 400))
      else
        None
  }

  /**
   * The `for` loop over `messages`: it passes exactly when every message is
   * acceptable, and otherwise stops at the first bad message and reports
   * that message's error.
   */
  function ScanMessages(ms: seq<JsValue>): (v: Verdict)
    ensures v.Next? <==> forall i :: 0 <= i < |ms| ==> MessageOk(ms[i])
    ensures v.NextWithError? ==>
              exists i :: 0 <= i < |ms| && (forall j :: 0 <= j < i ==> MessageOk(ms[j]))
                          && CheckMessage(ms[i]) == Some(v.error)
  {
    if ms == [] then Next
    else
      match CheckMessage(ms[0])
      case Some(e) => NextWithError(e)
      case None =>
        var v := ScanMessages(ms[1..]);
        assert forall i :: 1 <= i < |ms| ==> ms[i] == ms[1..][i - 1];
        if v.NextWithError? then
          ghost var i :| 0 <= i < |ms[1..]| && (forall j :: 0 <= j < i ==> MessageOk(ms[1..][j]))
                         && CheckMessage(ms[1..][i]) == Some(v.error);
          assert CheckMessage(ms[i + 1]) == Some(v.error);
          v
        else
          v
  }

  /** A field that is checked only when truthy: falsy values (0 included) always pass. */
  predicate NumberInRangeOrFalsy(v: JsValue, lo: real, hi: real) {
    !Truthy(v) || (v.Num? && lo <= v.n <= hi)
  }

  predicate StringOrFalsy(v: JsValue) {
    !Truthy(v) || v.Str?
  }

  /** What an accepted chat request looks like. */
  predicate ChatRequestOk(body: Body) {
    var messages := Field(body, "messages");
    && messages.Arr? && |messages.items| > 0
    && (forall i :: 0 <= i < |messages.items| ==> MessageOk(messages.items[i]))
    && StringOrFalsy(Field(body, "context"))
    && StringOrFalsy(Field(body, "model"))
    && NumberInRangeOrFalsy(Field(body, "temperature"), 0.0, 2.0)
    && NumberInRangeOrFalsy(Field(body, "maxTokens"), 1.0, 4000.0)
  }

  /**
   * `validateChatRequest`: passes exactly when `ChatRequestOk` holds. A
   * missing, non-array or empty `messages` is rejected before any message is
   * looked at. Every rejection is an `AppError` with status 400, except the
   * `TypeError` thrown when a message is `null`, which Express hands to
   * `next` as it is.
   */
  function ValidateChatRequest(body: Body): (v: Verdict)
    ensures v.Next? <==> ChatRequestOk(body)
    ensures var messages := Field(body, "messages");
            && (!messages.Arr? ==> v == Reject("messages must be an array"))
            && (messages == Arr([]) ==> v == Reject("messages cannot be empty"))
    ensures v.NextWithError? ==>
              || (v.error.AppError? && v.error.statusCode == 400)
              || (v.error == NullPropertyError("role") &&
                    exists i :: 0 <= i < |Field(body, "messages").items| && Field(body, "messages").items[i] in {Null, Undefined})
  {
    var messages := Field(body, "messages");
    var context := Field(body, "context");
    var model := Field(body, "model");
    var temperature := Field(body, "temperature");
    var maxTokens := Field(body, "maxTokens");
    if !Truthy(messages) || !messages.Arr? then
      Reject("messages must be an array")
    else if |messages.items| == 0 then
      Reject("messages cannot be empty")
    else if ScanMessages(messages.items).NextWithError? then
      ScanMessages(messages.items)
    else if Truthy(context) && !context.Str? then
      Reject("context must be a string")
    else if Truthy(model) && !model.Str? then
      Reject("model must be a string")
    else if Truthy(temperature) && (!temperature.Num? || temperature.n < 0.0 || temperature.n > 2.0) then
      Reject("temperature must be a number between 0 and 2")
    else if Truthy(maxTokens) && (!maxTokens.Num? || maxTokens.n < 1.0 || maxTokens.n > 4000.0) then
      Reject("maxTokens must be a number between 1 and 4000")
    else
      Next
  }

  /** `maxTokens: 0` is falsy and so skips its range check, although 0 is below the minimum of 1. */
  lemma ZeroMaxTokensPasses(body: Body)
    requires ChatRequestOk(body)
    ensures ValidateChatRequest(body["maxTokens" := Num(0.0)]) == Next
  {
    var b := body["maxTokens" := Num(0.0)];
    assert forall k :: k != "maxTokens" ==> Field(b, k) == Field(body, k);
  }
}
