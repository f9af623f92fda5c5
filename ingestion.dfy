/**
 * The ingestion service's message handler
 * (apps/ingestion-service/src/index.ts): for each `document.uploaded`
 * message it marks the document `processing`, then tries up to three times
 * to download the file from S3, read the download stream into one buffer
 * and parse it as a PDF, marking the document `ready` on success; after
 * three failed attempts it publishes the payload on `document.uploaded.dlq`
 * and marks the document `failed`.
 *
 * Postgres, S3, Kafka and pdf-parse are inputs: whether each UPDATE and
 * the DLQ publish succeeded, what S3 answered on each attempt, and whether
 * pdf-parse accepts a buffer. Sleeping is recorded as the list of delays.
 */
module Ingestion {
  import opened Wrappers
  import opened Js
  import Documents

  /*--------------------------- streamToBuffer ----------------------------*/

  /** What the S3 body stream emits, in order. */
  datatype StreamEvent =
    | Data(bytes: seq<bv8>)   // "data"
    | StreamError             // "error"
    | End                     // "end"

  /** How the promise of `streamToBuffer` settles; `Pending` when it never does. */
  datatype Settlement = Pending | Resolved(buffer: seq<bv8>) | Rejected

  /** `Buffer.concat(chunks)`. */
  function Concat(chunks: seq<seq<bv8>>): seq<bv8> {
    if chunks == [] then [] else Concat(chunks[..|chunks| - 1]) + chunks[|chunks| - 1]
  }

  function Payload(e: StreamEvent): seq<bv8> {
    if e.Data? then e.bytes else []
  }

  /** The bytes the `data` events of `events` carry, in order. */
  function DataBytes(events: seq<StreamEvent>): seq<bv8> {
    if events == [] then [] else DataBytes(events[..|events| - 1]) + Payload(events[|events| - 1])
  }

  /** The position of the first `error` or `end` event, or the length when there is none. */
  function FirstStop(events: seq<StreamEvent>): (k: nat)
    ensures k <= |events|
    ensures forall j :: 0 <= j < k ==> events[j].Data?
    ensures k < |events| ==> !events[k].Data?
  {
    if events == [] || !events[0].Data? then 0 else 1 + FirstStop(events[1..])
  }

  /**
   * The promise settles on the first `error` or `end` event (later events
   * change nothing): rejected on an error, resolved on an end with the
   * bytes of every `data` event before it; with neither it stays pending.
   */
  function Settle(events: seq<StreamEvent>): Settlement {
    var k := FirstStop(events);
    if k == |events| then Pending
    else if events[k].End? then Resolved(DataBytes(events[..k]))
    else Rejected
  }

  /** `streamToBuffer(stream)`: the listeners run as the events arrive. */
  method StreamToBuffer(events: seq<StreamEvent>) returns (s: Settlement)
    ensures s == Settle(events)
  {
    var chunks: seq<seq<bv8>> := [];
    var k := 0;
    while k < |events|
      invariant k <= |events|
      invariant forall j :: 0 <= j < k ==> events[j].Data?
      invariant Concat(chunks) == DataBytes(events[..k])
    {
      match events[k]
      case Data(b) =>
        assert events[..k + 1][..k] == events[..k];
        assert (chunks + [b])[..|chunks|] == chunks;
        chunks := chunks + [b];
        k := k + 1;
      case StreamError =>
        return Rejected;
      case End =>
        return Resolved(Concat(chunks));
    }
    return Pending;
  }

  /** A stream of `data` events carrying `chunks`, in order. */
  function DataEvents(chunks: seq<seq<bv8>>): (events: seq<StreamEvent>)
    ensures |events| == |chunks|
    ensures forall i :: 0 <= i < |chunks| ==> events[i] == Data(chunks[i])
  {
    seq(|chunks|, i requires 0 <= i < |chunks| => Data(chunks[i]))
  }

  /** The bytes of a run of `data` events are their chunks concatenated. */
  lemma {:induction false} DataBytesOfChunks(chunks: seq<seq<bv8>>)
    ensures DataBytes(DataEvents(chunks)) == Concat(chunks)
    decreases |chunks|
  {
    if chunks != [] {
      var n := |chunks|;
      assert DataEvents(chunks)[..n - 1] == DataEvents(chunks[..n - 1]);
      DataBytesOfChunks(chunks[..n - 1]);
    }
  }

  /**
   * A stream that sends `chunks` and then ends resolves with their
   * concatenation, whatever it emits afterwards; one that errors after
   * them rejects; one that does neither never settles.
   */
  lemma StreamSettlements(chunks: seq<seq<bv8>>, rest: seq<StreamEvent>)
    ensures Settle(DataEvents(chunks) + [End] + rest) == Resolved(Concat(chunks))
    ensures Settle(DataEvents(chunks) + [StreamError] + rest) == Rejected
    ensures Settle(DataEvents(chunks)) == Pending
  {
    var n := |chunks|;
    var ended := DataEvents(chunks) + [End] + rest;
    var failed := DataEvents(chunks) + [StreamError] + rest;
    assert FirstStop(ended) == n by {
      assert ended[n] == End;
      assert forall j :: 0 <= j < n ==> ended[j].Data?;
    }
    assert FirstStop(failed) == n by {
      assert failed[n] == StreamError;
      assert forall j :: 0 <= j < n ==> failed[j].Data?;
    }
    assert ended[..n] == DataEvents(chunks);
    DataBytesOfChunks(chunks);
  }

  /*----------------------------- one attempt -----------------------------*/

  /** What `s3.send(GetObjectCommand)` did: threw, or answered with a `Body` (`None` when falsy). */
  datatype S3Reply = S3Threw | S3Responded(body: Option<seq<StreamEvent>>)

  /** What the world does on one attempt: the S3 answer, and whether the `ready` UPDATE succeeds. */
  datatype AttemptInput = AttemptInput(s3: S3Reply, readyUpdateOk: bool)

  /** How one pass of the `try` block ends: `return` after `ready`, into `catch`, or stuck awaiting the stream. */
  datatype AttemptResult = Succeeded | Failed | Stalled

  /**
   * One attempt, with `pdfParse` telling whether pdf-parse accepts a
   * buffer. It succeeds exactly when S3 answers with a body whose stream
   * ends cleanly, pdf-parse accepts the bytes, and the `ready` UPDATE goes
   * through; it is stuck exactly when the body's stream never settles; any
   * other outcome (S3 throwing, an empty body, a stream error, a PDF that
   * does not parse, the UPDATE throwing) is a failure.
   */
  function Attempt(input: AttemptInput, pdfParse: seq<bv8> -> bool): (r: AttemptResult)
    ensures r.Succeeded? <==>
              && input.s3.S3Responded? && input.s3.body.Some? && Settle(input.s3.body.value).Resolved?
              && pdfParse(Settle(input.s3.body.value).buffer) && input.readyUpdateOk
    ensures r.Stalled? <==> input.s3.S3Responded? && input.s3.body.Some? && Settle(input.s3.body.value).Pending?
  {
    match input.s3
    case S3Threw => Failed
    case S3Responded(body) =>
      if body.None? then Failed   // throw new Error("S3 returned empty body")
      else
        match Settle(body.value)
        case Pending => Stalled
        case Rejected => Failed
        case Resolved(buffer) => if pdfParse(buffer) && input.readyUpdateOk then Succeeded else Failed
  }

  /** The attempt as the handler runs it, proved to follow `Attempt`. */
  method RunAttempt(input: AttemptInput, pdfParse: seq<bv8> -> bool) returns (r: AttemptResult)
    ensures r == Attempt(input, pdfParse)
  {
    if input.s3.S3Threw? || input.s3.body.None? {
      return Failed;
    }
    var settled := StreamToBuffer(input.s3.body.value);
    if settled.Pending? {
      return Stalled;
    }
    if settled.Rejected? || !pdfParse(settled.buffer) || !input.readyUpdateOk {
      return Failed;
    }
    return Succeeded;
  }

  /*---------------------------- the handler -----------------------------*/

  /** `message.value`: absent, not JSON (`JSON.parse` throws), or a parsed payload. */
  datatype Message = NoValue | Unparseable | Parsed(payload: JsValue)

  /** Everything the handler's collaborators do while handling one message. */
  datatype MessageEnv = MessageEnv(
    message: Message,
    processingUpdateOk: bool,          // UPDATE ... 'processing'
    attempt: nat -> AttemptInput,      // S3 and the 'ready' UPDATE on attempt i (from 0)
    pdfParse: seq<bv8> -> bool,        // pdf-parse accepts the buffer
    dlqSendOk: bool,                   // producer.send to document.uploaded.dlq
    failedUpdateOk: bool)              // UPDATE ... 'failed'

  /** How the handler ends: returns, throws (to kafkajs), or never finishes. */
  datatype Ending = Returned | Threw | Hung

  /** The `documents` statuses and the DLQ topic afterwards, how the handler ended, how many attempts it started, and the delays it slept. */
  datatype HandleOutcome = HandleOutcome(statuses: map<JsValue, Documents.DocumentStatus>, dlq: seq<JsValue>,
                                         ending: Ending, attempts: nat, sleeps: seq<nat>)

  const MaxRetries := 3

  function Pow2(n: nat): nat {
    if n == 0 then 1 else 2 * Pow2(n - 1)
  }

  /** `Math.pow(2, attempt) * 1000`, the delay after the `attempt`-th failure. */
  function Backoff(attempt: nat): nat {
    Pow2(attempt) * 1000
  }

  /** The delays slept after the first `n` failures. */
  function Backoffs(n: nat): seq<nat> {
    if n == 0 then [] else Backoffs(n - 1) + [Backoff(n)]
  }

  /** `UPDATE documents SET status = s WHERE id = id`: changes the matching row, if there is one. */
  function SetStatus(statuses: map<JsValue, Documents.DocumentStatus>, id: JsValue, s: Documents.DocumentStatus)
    : (r: map<JsValue, Documents.DocumentStatus>)
    ensures r.Keys == statuses.Keys
    ensures id in statuses ==> r[id] == s
    ensures forall k :: k in statuses && k != id ==> r[k] == statuses[k]
  {
    if id in statuses then statuses[id := s] else statuses
  }

  function AttemptOf(env: MessageEnv, i: nat): AttemptResult {
    Attempt(env.attempt(i), env.pdfParse)
  }

  /** The first attempt from `from` on that does not fail, or `MaxRetries` when all of them fail. */
  function FirstUnfailed(env: MessageEnv, from: nat): (k: nat)
    requires from <= MaxRetries
    ensures from <= k <= MaxRetries
    ensures forall j :: from <= j < k ==> AttemptOf(env, j).Failed?
    ensures k < MaxRetries ==> !AttemptOf(env, k).Failed?
    decreases MaxRetries - from
  {
    if from == MaxRetries || !AttemptOf(env, from).Failed? then from else FirstUnfailed(env, from + 1)
  }

  /** The document id the handler destructures from the payload, if it gets that far. */
  function DocumentIdOf(env: MessageEnv): Option<JsValue> {
    if env.message.Parsed? then Prop(env.message.payload, "documentId") else None
  }

  /**
   * `eachMessage`, as a function of the statuses and DLQ before it:
   * - no value: nothing happens;
   * - JSON that does not parse, or a `null` payload (destructuring
   *   throws): the handler throws and nothing changes;
   * - the `processing` UPDATE throws: it returns, nothing changes;
   * - otherwise the document is marked `processing` (whatever its status
   *   was) and attempts run until one does not fail, at most three; after
   *   the `k`-th failure it sleeps `2^k` seconds unless that was the last;
   * - a succeeding attempt leaves the document `ready`; a stuck one leaves
   *   the handler hanging with the document `processing`;
   * - after three failures the payload is published to the DLQ and then the
   *   document marked `failed`; if the publish throws, neither happens.
   */
  function Handle(statuses: map<JsValue, Documents.DocumentStatus>, dlq: seq<JsValue>, env: MessageEnv): HandleOutcome {
    match env.message
    case NoValue => HandleOutcome(statuses, dlq, Returned, 0, [])
    case Unparseable => HandleOutcome(statuses, dlq, Threw, 0, [])
    case Parsed(payload) =>
      match Prop(payload, "documentId")
      case None => HandleOutcome(statuses, dlq, Threw, 0, [])
      case Some(id) =>
        if !env.processingUpdateOk then HandleOutcome(statuses, dlq, Returned, 0, [])
        else
          var processing := SetStatus(statuses, id, Documents.Processing);
          var k := FirstUnfailed(env, 0);
          if k < MaxRetries then
            if AttemptOf(env, k).Succeeded? then
              HandleOutcome(SetStatus(processing, id, Documents.Ready), dlq, Returned, k + 1, Backoffs(k))
            else
              HandleOutcome(processing, dlq, Hung, k + 1, Backoffs(k))
          else if !env.dlqSendOk then
            HandleOutcome(processing, dlq, Returned, MaxRetries, Backoffs(MaxRetries - 1))
          else
            HandleOutcome(if env.failedUpdateOk then SetStatus(processing, id, Documents.Failed) else processing,
                          dlq + [payload], Returned, MaxRetries, Backoffs(MaxRetries - 1))
  }

  /** The `documents` table's statuses and the `document.uploaded.dlq` topic, as the handler changes them. */
  class Worker {
    var statuses: map<JsValue, Documents.DocumentStatus>
    var dlq: seq<JsValue>

    constructor (statuses: map<JsValue, Documents.DocumentStatus>)
      ensures this.statuses == statuses && dlq == []
    {
      this.statuses := statuses;
      dlq := [];
    }

    /** `eachMessage({message})`: the table and topic end as `Handle` says. */
    method EachMessage(env: MessageEnv) returns (ending: Ending, attempts: nat, sleeps: seq<nat>)
      modifies this
      ensures var o := Handle(old(statuses), old(dlq), env);
              && statuses == o.statuses && dlq == o.dlq
              && ending == o.ending && attempts == o.attempts && sleeps == o.sleeps
    {
      if env.message.NoValue? {
        return Returned, 0, [];
      }
      if env.message.Unparseable? {
        return Threw, 0, [];
      }
      var payload := env.message.payload;
      var documentId := Prop(payload, "documentId");
      if documentId.None? {
        return Threw, 0, [];
      }
      var id := documentId.value;
      var attempt := 0;
      sleeps := [];
      if !env.processingUpdateOk {
        return Returned, 0, [];
      }
      statuses := SetStatus(statuses, id, Documents.Processing);
      while attempt < MaxRetries
        invariant attempt <= MaxRetries
        invariant forall j :: 0 <= j < attempt ==> AttemptOf(env, j).Failed?
        invariant sleeps == Backoffs(if attempt < MaxRetries then attempt else MaxRetries - 1)
        invariant statuses == SetStatus(old(statuses), id, Documents.Processing)
        invariant dlq == old(dlq)
      {
        var r := RunAttempt(env.attempt(attempt), env.pdfParse);
        if r.Succeeded? {
          statuses := SetStatus(statuses, id, Documents.Ready);
          return Returned, attempt + 1, sleeps;
        }
        if r.Stalled? {
          return Hung, attempt + 1, sleeps;
        }
        attempt := attempt + 1;
        if attempt < MaxRetries {
          sleeps := sleeps + [Backoff(attempt)];
        }
      }
      if env.dlqSendOk {
        dlq := dlq + [payload];
        if env.failedUpdateOk {
          statuses := SetStatus(statuses, id, Documents.Failed);
        }
      }
      return Returned, attempt, sleeps;
    }
  }

  /*------------------------------ properties ------------------------------*/

  /**
   * The early exits: without a document id (no value, unparseable JSON, a
   * `null` payload) nothing changes and the handler throws unless there
   * was no value; when the `processing` UPDATE throws nothing changes
   * either. No attempt is made and nothing is slept in these cases.
   */
  lemma EarlyExits(statuses: map<JsValue, Documents.DocumentStatus>, dlq: seq<JsValue>, env: MessageEnv)
    ensures var o := Handle(statuses, dlq, env);
            DocumentIdOf(env).None? ==>
              && o.statuses == statuses && o.dlq == dlq && o.attempts == 0 && o.sleeps == []
              && (o.ending == Threw <==> !env.message.NoValue?)
    ensures var o := Handle(statuses, dlq, env);
            DocumentIdOf(env).Some? && !env.processingUpdateOk ==>
              o == HandleOutcome(statuses, dlq, Returned, 0, [])
  {
  }

  /** The first `n` delays, for `n` up to two: 2000 ms, then 4000 ms. */
  lemma BackoffsPrefix(n: nat)
    requires n < MaxRetries
    ensures Backoffs(n) == [2000, 4000][..n]
  {
    assert Backoffs(1) == [2000];
    assert Backoffs(2) == [2000, 4000];
  }

  /**
   * At most three attempts, and the delays slept are a prefix of
   * 2000 ms, 4000 ms: one fewer than the attempts made, none after the
   * last attempt.
   */
  lemma AttemptsAndBackoffs(statuses: map<JsValue, Documents.DocumentStatus>, dlq: seq<JsValue>, env: MessageEnv)
    ensures var o := Handle(statuses, dlq, env);
            && o.attempts <= MaxRetries
            && |o.sleeps| == (if o.attempts == 0 then 0 else o.attempts - 1)
            && o.sleeps == [2000, 4000][..|o.sleeps|]
  {
    if DocumentIdOf(env).Some? && env.processingUpdateOk {
      var k := FirstUnfailed(env, 0);
      var n := if k < MaxRetries then k else MaxRetries - 1;
      BackoffsPrefix(n);
      assert Handle(statuses, dlq, env).sleeps == Backoffs(n);
    }
  }

  /**
   * When all three attempts fail: three attempts, sleeps of 2000 and
   * 4000 ms, then exactly one DLQ record, the payload itself, if the
   * publish succeeds. The document ends `failed` only when both the publish
   * and the UPDATE succeed; otherwise it stays `processing`.
   */
  lemma ExhaustedRetries(statuses: map<JsValue, Documents.DocumentStatus>, dlq: seq<JsValue>, env: MessageEnv)
    requires DocumentIdOf(env).Some? && env.processingUpdateOk
    requires forall j :: 0 <= j < MaxRetries ==> AttemptOf(env, j).Failed?
    ensures var o := Handle(statuses, dlq, env);
            && o.ending == Returned && o.attempts == MaxRetries && o.sleeps == [2000, 4000]
            && o.dlq == (if env.dlqSendOk then dlq + [env.message.payload] else dlq)
    ensures var o := Handle(statuses, dlq, env);
            var id := DocumentIdOf(env).value;
            id in statuses ==>
              o.statuses[id] == (if env.dlqSendOk && env.failedUpdateOk then Documents.Failed else Documents.Processing)
  {
    assert FirstUnfailed(env, 0) == MaxRetries;
    assert Backoffs(2) == [2000, 4000];
  }

  /** The DLQ only ever gains the one payload, and only after three failed attempts. */
  lemma DeadLetterOnlyWhenExhausted(statuses: map<JsValue, Documents.DocumentStatus>, dlq: seq<JsValue>, env: MessageEnv)
    ensures var o := Handle(statuses, dlq, env);
            || o.dlq == dlq
            || (&& env.message.Parsed? && o.dlq == dlq + [env.message.payload]
                && forall j :: 0 <= j < MaxRetries ==> AttemptOf(env, j).Failed?)
  {
  }

  /** Only the message's own document can change status, and no row is added or removed. */
  lemma OnlyTheDocumentChanges(statuses: map<JsValue, Documents.DocumentStatus>, dlq: seq<JsValue>, env: MessageEnv)
    ensures var o := Handle(statuses, dlq, env);
            && o.statuses.Keys == statuses.Keys
            && forall k :: k in statuses && DocumentIdOf(env) != Some(k) ==> o.statuses[k] == statuses[k]
  {
  }

  /**
   * The claim is unconditional: once the `processing` UPDATE succeeds, the
   * document's earlier status makes no difference, so a redelivered event
   * for a `ready` document processes it again (and can leave it `failed`).
   */
  lemma ClaimIsUnconditional(statuses: map<JsValue, Documents.DocumentStatus>, dlq: seq<JsValue>, env: MessageEnv,
                             before: Documents.DocumentStatus, other: Documents.DocumentStatus)
    requires DocumentIdOf(env).Some? && env.processingUpdateOk
    ensures var id := DocumentIdOf(env).value;
            Handle(statuses[id := before], dlq, env) == Handle(statuses[id := other], dlq, env)
  {
    var id := DocumentIdOf(env).value;
    assert SetStatus(statuses[id := before], id, Documents.Processing)
        == SetStatus(statuses[id := other], id, Documents.Processing);
  }

  /**
   * The document ends `ready` exactly when some attempt succeeds after the
   * ones before it all failed.
   */
  lemma ReadyIffAnAttemptSucceeded(statuses: map<JsValue, Documents.DocumentStatus>, dlq: seq<JsValue>, env: MessageEnv)
    requires DocumentIdOf(env).Some? && DocumentIdOf(env).value in statuses && env.processingUpdateOk
    ensures Handle(statuses, dlq, env).statuses[DocumentIdOf(env).value] == Documents.Ready <==>
              exists j :: 0 <= j < MaxRetries && AttemptOf(env, j).Succeeded?
                          && forall i :: 0 <= i < j ==> AttemptOf(env, i).Failed?
  {
    var k := FirstUnfailed(env, 0);
    if k < MaxRetries && AttemptOf(env, k).Succeeded? {
      assert forall i :: 0 <= i < k ==> AttemptOf(env, i).Failed?;
    }
  }

  /**
   * Errors are not classified: two runs whose attempts fail, succeed or
   * stall at the same positions, for whatever reasons, end the same way.
   */
  lemma FailureReasonsAreNotDistinguished(statuses: map<JsValue, Documents.DocumentStatus>, dlq: seq<JsValue>,
                                          env: MessageEnv, env': MessageEnv)
    requires env.message == env'.message && env.processingUpdateOk == env'.processingUpdateOk
    requires env.dlqSendOk == env'.dlqSendOk && env.failedUpdateOk == env'.failedUpdateOk
    requires forall j :: 0 <= j < MaxRetries ==> AttemptOf(env, j) == AttemptOf(env', j)
    ensures Handle(statuses, dlq, env) == Handle(statuses, dlq, env')
  {
    var k, k' := FirstUnfailed(env, 0), FirstUnfailed(env', 0);
    assert k == k';
  }
}
