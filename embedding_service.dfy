/**
 * The embedding service of the AI service
 * (apps/ai-service/src/services/embeddingService.ts): guards a text, asks
 * Ollama for its vector, and embeds lists of texts five at a time.
 */
module EmbeddingService {
  import opened Wrappers
  import opened Js
  import opened Errors
  import opened Arith
  import opened OllamaClient

  const DefaultEmbeddingModel := "nomic-embed-text"
  const MaxTextLength := 8000

  /** How many embeddings one round of the batch loop runs together. */
  const Concurrency := 5

  /** What `generateEmbedding` sent to Ollama, if it got that far, and what it returned or threw. */
  datatype EmbedCall = EmbedCall(sent: Option<EmbeddingBody>, result: Result<Vector, Error>)

  /** The `TypeError` that calling `trim` on a non-string value throws. */
  function TrimNotAFunction(): Error {
    JsError("TypeError", "text.trim is not a function")
  }

  /**
   * `generateEmbedding(text, model)`, with `fetch` telling what the call to
   * Ollama does for the body it is given. A falsy or blank text is a 400, a
   * truthy non-string throws a `TypeError`, and a text over 8000 characters
   * (counted before trimming) is a 400; none of these sends anything.
   * Otherwise the trimmed text is sent once, and every failure of that call
   * becomes the same 500.
   */
  function GenerateEmbedding(text: JsValue, model: JsValue, fetch: EmbeddingBody -> FetchOutcome<EmbeddingJson>): (c: EmbedCall)
    ensures c.sent.Some? <==> text.Str? && !AllWhitespace(text.s) && |text.s| <= MaxTextLength
    ensures c.sent.Some? ==> c.sent.value == EmbeddingBody(Or(model, Str(DefaultEmbeddingModel)), Trim(text.s))
    ensures c.sent.Some? ==>
              var o := fetch(c.sent.value);
              && (c.result.Success? <==> OllamaClient.GenerateEmbedding(o).Success?)
              && (c.result.Success? ==> c.result.value == OllamaClient.GenerateEmbedding(o).value)
              && (c.result.Failure? ==> c.result.error == NewAppError("Failed to generate embedding", 500))
    ensures !Truthy(text) || (text.Str? && AllWhitespace(text.s)) ==>
              c == EmbedCall(None, Failure(NewAppError("Text cannot be empty", 400)))
    ensures Truthy(text) && !text.Str? ==> c == EmbedCall(None, Failure(TrimNotAFunction()))
    ensures text.Str? && !AllWhitespace(text.s) && |text.s| > MaxTextLength ==>
              c == EmbedCall(None, Failure(NewAppError("Text too long (max 8000 characters)", 400)))
  {
    if !Truthy(text) then
      EmbedCall(None, Failure(NewAppError("Text cannot be empty", 400)))
    else if !text.Str? then
      EmbedCall(None, Failure(TrimNotAFunction()))
    else
      TrimEmptyIff(text.s);
      if |Trim(text.s)| == 0 then
        EmbedCall(None, Failure(NewAppError("Text cannot be empty", 400)))
      else if |text.s| > MaxTextLength then
        EmbedCall(None, Failure(NewAppError("Text too long (max 8000 characters)", 400)))
      else
        var body := EmbeddingBody(Or(model, Str(DefaultEmbeddingModel)), Trim(text.s));
        match OllamaClient.GenerateEmbedding(fetch(body))
        case Success(v) => EmbedCall(Some(body), Success(v))
        case Failure(_) => EmbedCall(Some(body), Failure(NewAppError("Failed to generate embedding", 500)))
  }

  /**
   * What reaches Ollama is never blank and never padded: the prompt is a
   * non-empty string that starts and ends with a non-space character and is
   * at most 8000 characters long. It is the caller's text with only white
   * space cut from its two ends.
   */
  lemma SentPromptIsTrimmed(text: JsValue, model: JsValue, fetch: EmbeddingBody -> FetchOutcome<EmbeddingJson>)
    ensures var c := GenerateEmbedding(text, model, fetch);
            c.sent.Some? ==>
              var p := c.sent.value.prompt;
              && p != [] && |p| <= MaxTextLength
              && !IsWhitespace(p[0]) && !IsWhitespace(p[|p| - 1])
              && exists i :: 0 <= i <= |text.s| - |p| && p == text.s[i..i + |p|]
                             && AllWhitespace(text.s[..i]) && AllWhitespace(text.s[i + |p|..])
  {
    var c := GenerateEmbedding(text, model, fetch);
    if c.sent.Some? {
      var p := c.sent.value.prompt;
      assert p == Trim(text.s);
      TrimEmptyIff(text.s);
      var i := TrimIsInfix(text.s);
      assert p == text.s[i..i + |p|] && AllWhitespace(text.s[..i]) && AllWhitespace(text.s[i + |p|..]);
    }
  }

  function Min(a: int, b: int): int {
    if a <= b then a else b
  }

  /**
   * The loop of `generateBatchEmbeddings` over any per-text call `embed`:
   * the texts go in rounds of five, each round's calls all started before
   * its `Promise.all` is awaited. On success there is one vector per text,
   * in the order of the texts, after `ceil(n / 5)` rounds. On failure the
   * error is one raised by a text of the last round run, every text of the
   * earlier rounds succeeded, and no later round was started.
   */
  method RunRounds(texts: seq<JsValue>, embed: JsValue -> Result<Vector, Error>)
    returns (r: Result<seq<Vector>, Error>, rounds: nat)
    ensures r.Success? <==> forall i :: 0 <= i < |texts| ==> embed(texts[i]).Success?
    ensures r.Success? ==>
              && |r.value| == |texts|
              && (forall i :: 0 <= i < |texts| ==> r.value[i] == embed(texts[i]).value)
              && rounds == CeilDiv(|texts|, Concurrency)
    ensures r.Failure? ==>
              && 0 < rounds && (rounds - 1) * Concurrency < |texts|
              && (forall i :: 0 <= i < (rounds - 1) * Concurrency ==> embed(texts[i]).Success?)
              && (exists i :: (rounds - 1) * Concurrency <= i < Min(rounds * Concurrency, |texts|)
                              && embed(texts[i]) == Failure(r.error))
  {
    var embeddings: seq<Vector> := [];
    var i := 0;
    rounds := 0;
    while i < |texts|
      invariant i == rounds * Concurrency
      invariant rounds == 0 || (rounds - 1) * Concurrency < |texts|
      invariant |embeddings| == Min(i, |texts|)
      invariant forall j :: 0 <= j < |embeddings| ==> embed(texts[j]).Success? && embeddings[j] == embed(texts[j]).value
    {
      var batch := texts[i..Min(i + Concurrency, |texts|)];
      // batch.map(text => this.generateEmbedding(text, model))
      var calls: seq<Result<Vector, Error>> := [];
      for j := 0 to |batch|
        invariant |calls| == j
        invariant forall k :: 0 <= k < j ==> calls[k] == embed(batch[k])
      {
        calls := calls + [embed(batch[j])];
      }
      rounds := rounds + 1;
      // await Promise.all(batchPromises)
      var values: seq<Vector> := [];
      for j := 0 to |calls|
        invariant |values| == j
        invariant forall k :: 0 <= k < j ==> calls[k].Success? && values[k] == calls[k].value
      {
        if calls[j].Failure? {
          assert batch[j] == texts[i + j];
          return Failure(calls[j].error), rounds;
        }
        values := values + [calls[j].value];
      }
      ghost var earlier := embeddings;
      embeddings := embeddings + values;
      forall j | 0 <= j < |embeddings|
        ensures embed(texts[j]).Success? && embeddings[j] == embed(texts[j]).value
      {
        if j < |earlier| {
          assert embeddings[j] == earlier[j];
        } else {
          assert embeddings[j] == values[j - i] && batch[j - i] == texts[j];
        }
      }
      i := i + Concurrency;
    }
    CeilDivUnique(|texts|, Concurrency, rounds);
    return Success(embeddings), rounds;
  }

  /**
   * `generateBatchEmbeddings(texts, model)`: `RunRounds` with each text
   * embedded by `GenerateEmbedding` under the same model; see `RunRounds`
   * for rounds, order and failure.
   */
  method GenerateBatchEmbeddings(texts: seq<JsValue>, model: JsValue, fetch: EmbeddingBody -> FetchOutcome<EmbeddingJson>)
    returns (r: Result<seq<Vector>, Error>, rounds: nat)
    ensures r.Success? <==> forall i :: 0 <= i < |texts| ==> GenerateEmbedding(texts[i], model, fetch).result.Success?
    ensures r.Success? ==>
              && |r.value| == |texts|
              && (forall i :: 0 <= i < |texts| ==> r.value[i] == GenerateEmbedding(texts[i], model, fetch).result.value)
              && rounds == CeilDiv(|texts|, Concurrency)
    ensures r.Failure? ==>
              && 0 < rounds && (rounds - 1) * Concurrency < |texts|
              && (forall i :: 0 <= i < (rounds - 1) * Concurrency ==> GenerateEmbedding(texts[i], model, fetch).result.Success?)
              && (exists i :: (rounds - 1) * Concurrency <= i < Min(rounds * Concurrency, |texts|)
                              && GenerateEmbedding(texts[i], model, fetch).result == Failure(r.error))
  {
    r, rounds := RunRounds(texts, t => GenerateEmbedding(t, model, fetch).result);
  }
}
