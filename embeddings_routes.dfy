/**
 * The two embedding endpoints of the AI service
 * (apps/ai-service/src/routes/embeddings.ts): `POST /embeddings` behind the
 * embedding validator, and `POST /embeddings/batch`, which has its own two
 * checks and no validator.
 */
module EmbeddingsRoutes {
  import opened Wrappers
  import opened Js
  import opened Errors
  import opened OllamaClient
  import opened Validation
  import EmbeddingService
  import ErrorHandler

  /** How an embedding request is answered. */
  datatype EmbeddingReply =
    /** `res.json({embedding, model, dimensions})`. */
    | EmbeddingOk(embedding: Vector, model: JsValue, dimensions: nat)
    /** `res.json({embeddings, model, count})`. */
    | BatchOk(embeddings: seq<Vector>, model: JsValue, count: nat)
    /** `res.status(400).json({error})`, answered by the route itself. */
    | BadRequest(message: string)
    /** `next(error)`: the error handler answers. */
    | Forwarded(error: Error)

  const MaxBatch := 100

  /**
   * A request the validator accepts always gets past the service's own
   * guards: the validator demands the same non-blank string under the same
   * 8000-character limit, so the text is always sent to Ollama.
   */
  lemma ValidatedTextIsSent(body: Body, fetch: EmbeddingBody -> FetchOutcome<EmbeddingJson>)
    requires ValidateEmbeddingRequest(body) == Next
    ensures EmbeddingService.GenerateEmbedding(Field(body, "text"), Field(body, "model"), fetch).sent.Some?
  {
  }

  /**
   * `POST /embeddings`: a validation error goes to the error handler
   * untouched; otherwise the service's vector is returned with its
   * dimension count, and the only error left is the service's 500.
   */
  function PostEmbedding(body: Body, fetch: EmbeddingBody -> FetchOutcome<EmbeddingJson>): (reply: EmbeddingReply)
    ensures ValidateEmbeddingRequest(body).NextWithError? ==> reply == Forwarded(ValidateEmbeddingRequest(body).error)
    ensures reply.EmbeddingOk? <==>
              EmbeddingRequestOk(body) && EmbeddingService.GenerateEmbedding(Field(body, "text"), Field(body, "model"), fetch).result.Success?
    ensures reply.EmbeddingOk? ==>
              && reply.embedding == EmbeddingService.GenerateEmbedding(Field(body, "text"), Field(body, "model"), fetch).result.value
              && reply.dimensions == |reply.embedding|
              && reply.model == Or(Field(body, "model"), Str(EmbeddingService.DefaultEmbeddingModel))
    ensures EmbeddingRequestOk(body) && reply.Forwarded? ==>
              reply.error == NewAppError("Failed to generate embedding", 500)
  {
    match ValidateEmbeddingRequest(body)
    case NextWithError(e) => Forwarded(e)
    case Next =>
      ValidatedTextIsSent(body, fetch);
      var model := Field(body, "model");
      match EmbeddingService.GenerateEmbedding(Field(body, "text"), model, fetch).result
      case Success(v) => EmbeddingOk(v, Or(model, Str(EmbeddingService.DefaultEmbeddingModel)), |v|)
      case Failure(e) => Forwarded(e)
  }

  /**
   * `POST /embeddings/batch`: the route refuses a missing, non-array or empty
   * `texts` and more than 100 texts itself (running no round); otherwise it
   * returns one vector per text, in order, with `count` equal to the number
   * of texts, or forwards the batch's error. It never runs more than 20
   * rounds.
   */
  method PostBatch(body: Body, fetch: EmbeddingBody -> FetchOutcome<EmbeddingJson>)
    returns (reply: EmbeddingReply, rounds: nat)
    ensures var texts := Field(body, "texts");
            && (!texts.Arr? || texts.items == [] ==> reply == BadRequest("texts must be a non-empty array") && rounds == 0)
            && (texts.Arr? && |texts.items| > MaxBatch ==> reply == BadRequest("Maximum 100 texts per batch") && rounds == 0)
            && (reply.BatchOk? <==>
                  texts.Arr? && 0 < |texts.items| <= MaxBatch
                  && forall i :: 0 <= i < |texts.items| ==>
                       EmbeddingService.GenerateEmbedding(texts.items[i], Field(body, "model"), fetch).result.Success?)
            && (reply.BatchOk? ==>
                  && reply.count == |reply.embeddings| == |texts.items|
                  && reply.model == Or(Field(body, "model"), Str(EmbeddingService.DefaultEmbeddingModel))
                  && forall i :: 0 <= i < |texts.items| ==>
                       reply.embeddings[i] == EmbeddingService.GenerateEmbedding(texts.items[i], Field(body, "model"), fetch).result.value)
    ensures var texts := Field(body, "texts");
            texts.Arr? && 0 < |texts.items| <= MaxBatch && !reply.BatchOk? ==>
              && reply.Forwarded?
              && exists i :: 0 <= i < |texts.items|
                               && EmbeddingService.GenerateEmbedding(texts.items[i], Field(body, "model"), fetch).result
                                  == Failure(reply.error)
    ensures var texts := Field(body, "texts");
            texts.Arr? && 0 < |texts.items| <= MaxBatch
            && (forall i :: 0 <= i < |texts.items| ==> Truthy(texts.items[i]) && !texts.items[i].Str?) ==>
              reply == Forwarded(EmbeddingService.TrimNotAFunction())
    ensures rounds <= MaxBatch / EmbeddingService.Concurrency
  {
    var texts := Field(body, "texts");
    var model := Field(body, "model");
    if !texts.Arr? || |texts.items| == 0 {
      return BadRequest("texts must be a non-empty array"), 0;
    }
    if |texts.items| > MaxBatch {
      return BadRequest("Maximum 100 texts per batch"), 0;
    }
    if forall i :: 0 <= i < |texts.items| ==> Truthy(texts.items[i]) && !texts.items[i].Str? {
      assert EmbeddingService.GenerateEmbedding(texts.items[0], model, fetch).result.Failure?;
    }
    var r;
    r, rounds := EmbeddingService.GenerateBatchEmbeddings(texts.items, model, fetch);
    match r
    case Success(embeddings) =>
      reply := BatchOk(embeddings, Or(model, Str(EmbeddingService.DefaultEmbeddingModel)), |embeddings|);
    case Failure(e) =>
      reply := Forwarded(e);
      if forall i :: 0 <= i < |texts.items| ==> Truthy(texts.items[i]) && !texts.items[i].Str? {
        ghost var i :| 0 <= i < |texts.items|
                       && EmbeddingService.GenerateEmbedding(texts.items[i], model, fetch).result == Failure(e);
        assert EmbeddingService.GenerateEmbedding(texts.items[i], model, fetch).result
               == Failure(EmbeddingService.TrimNotAFunction());
      }
  }

  /**
   * The batch route has no validator: a text that is a number (or any other
   * truthy non-string) makes the service throw a `TypeError`, which the
   * error handler turns into a 500, where the single endpoint would have
   * answered 400.
   */
  lemma NonStringBatchTextIsServerError(text: JsValue, model: JsValue, fetch: EmbeddingBody -> FetchOutcome<EmbeddingJson>,
                                        nodeEnv: Option<string>)
    requires Truthy(text) && !text.Str?
    ensures EmbeddingService.GenerateEmbedding(text, model, fetch).result == Failure(EmbeddingService.TrimNotAFunction())
    ensures ErrorHandler.HandleError(EmbeddingService.TrimNotAFunction(), nodeEnv).status == 500
    ensures ValidateEmbeddingRequest(map["text" := text, "model" := model]) == Reject("text is required and must be a string")
  {
    assert Field(map["text" := text, "model" := model], "text") == text;
  }
}
