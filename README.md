# AI FAQ platform: a Dafny model of its request handlers and ingestion worker

This project models the core of a multi-tenant document Q&A platform built
from small Node.js services. Each file below is one Dafny module standing for
one source file:

- `ingestion.dfy`: the ingestion service's Kafka handler for
  `document.uploaded`. It claims the document (`processing`), then makes up to
  three attempts. Each attempt downloads the file from S3, reads the body
  stream into a buffer (`streamToBuffer`), parses it as a PDF and marks the
  document `ready`. Failed attempts are followed by exponential backoff.
  After the third failure the payload is dead-lettered and the document
  marked `failed`.
- `chunker.dfy`: the ingestion service's `chunkText`, which cuts text into
  overlapping windows.
- `validation.dfy`, `errors.dfy`, `error_handler.dfy`: the AI service's
  request validators, its error classes and its terminal error middleware.
- `ollama_client.dfy`: the AI service's Ollama client. It covers
  `makeRequest` and its timeout mapping, the embedding and completion calls,
  the health probe, and the server-sent-event relay of a streaming
  completion.
- `embedding_service.dfy`, `embeddings_routes.dfy`: single and batch
  embeddings (rounds of five), and the two HTTP routes over them.
- `chat_service.dfy`: prompt building, completion defaults, and the
  streaming wrapper that turns failures into an error frame.
- `require_role.dfy`: the API gateway's role guard.
- `documents.dfy`: the document service's create and search endpoints.
- `auth.dfy`: the auth service's sign-up and log-in.

Shared helpers:

- `js.dfy` holds the JavaScript semantics the handlers rely on: JSON values,
  truthiness, `||`, `trim`, `split`/`join` and `slice`.
- `wrappers.dfy` holds `Option`/`Result`.
- `arith.dfy` holds ceiling division.

Everything outside the code is an input to the model. This covers Postgres,
Kafka, S3, pdf-parse, bcrypt, `fetch`, `JSON.parse`, UUIDs and environment
variables. A function-typed parameter stands for a collaborator whose answer
depends on what it is sent, such as `fetch` for a body. A plain value stands
for a collaborator whose answer is simply given, such as whether an UPDATE
threw.

State the code changes in place is held in classes:

- the `documents` table and upload topic: `Documents.DocumentStore`;
- the auth tables: `Auth.AuthStore`;
- the `documents` statuses and the dead-letter topic: `Ingestion.Worker`;
- an Express response being streamed to: `OllamaClient.SseResponse`.

Each of their methods is proved to leave the state that a pure specification
function computes from the old state. The properties are then proved about
those functions.

The ingestion handler is modelled as the code has it, which means:

- The handler claims a document unconditionally: it does not check that the
  document is still `uploaded`. See `Ingestion.ClaimIsUnconditional`.
- It does not classify errors as retryable or fatal. See
  `Ingestion.FailureReasonsAreNotDistinguished`.
- Its backoff has no jitter.
- It neither chunks, embeds nor writes chunk rows. Chunking is left as a
  TODO at `apps/ingestion-service/src/index.ts:101`, so `chunkText` is never
  called.
- When the dead-letter publish throws, the document stays `processing`.
- The chunker yields four chunks for 2500 characters with the default sizes,
  not three. See "Findings".

## Model

| member | source | states |
|---|---|---|
| `Errors.NewAppError` | apps/ai-service/src/utils/errors.ts:1-12 | an `AppError` keeps its message and status (500 by default) and is operational |
| `Errors.NewValidationError` | apps/ai-service/src/utils/errors.ts:14-19 | a `ValidationError` is an `AppError` named `ValidationError` with status 400 |
| `Errors.NewTimeoutError` | apps/ai-service/src/utils/errors.ts:21-26 | a `TimeoutError` is an `AppError` named `TimeoutError` with status 408, message `Request timeout` by default |
| `Errors.NullPropertyError` | apps/ai-service/src/middleware/validation.ts:37-38 | reading `role` off a `null` message raises a `TypeError`, not an `AppError` |
| `ErrorHandler.HandleError` | apps/ai-service/src/middleware/errorHandler.ts:4-44 | branch order: an `AppError` answers with its own status, message and code. Otherwise the name `ValidationError` gives 400 with details and `TimeoutError` gives 408. Anything else is a 500 whose message is disclosed exactly in development |
| `ErrorHandler.OwnSubclassesTakeAppErrorBranch` | apps/ai-service/src/middleware/errorHandler.ts:18-38 | the service's own `ValidationError`/`TimeoutError` never reach the name-based branches: they keep their message and report a code |
| `Validation.ValidateEmbeddingRequest` | apps/ai-service/src/middleware/validation.ts:4-24 | passes exactly for a non-blank string `text` of at most 8000 untrimmed characters with a falsy or string `model`. The checks run in source order, and every rejection is an `AppError` 400 |
| `Validation.EmbeddingLengthBoundary` | apps/ai-service/src/middleware/validation.ts:15-17 | 8000 characters pass and 8001 are rejected, counted before trimming |
| `Validation.CheckMessage` | apps/ai-service/src/middleware/validation.ts:37-44 | a message passes exactly when it is an object with a known role and truthy content |
| `Validation.ScanMessages` | apps/ai-service/src/middleware/validation.ts:37-45 | the loop passes exactly when every message passes. Otherwise it reports the error of the first bad message, all earlier ones being good |
| `Validation.ValidateChatRequest` | apps/ai-service/src/middleware/validation.ts:26-64 | passes exactly for a non-empty array of good messages with falsy-or-valid context, model, temperature (0..2) and maxTokens (1..4000). A non-array or empty list is rejected first. Rejections are 400 `AppError`s, except the `TypeError` from a `null` message |
| `Validation.ZeroMaxTokensPasses` | apps/ai-service/src/middleware/validation.ts:59-61 | `maxTokens: 0` is falsy and skips its range check |
| `OllamaClient.GenerateBodyFor` | apps/ai-service/src/clients/ollamaClient.ts:45-75 | the `/api/generate` body carries the request's model, prompt, temperature and maxTokens (as `num_predict`), with `stream` set by the method called |
| `OllamaClient.StreamFieldIgnored` | apps/ai-service/src/clients/ollamaClient.ts:45-75 | the request's own `stream` field never reaches the wire |
| `OllamaClient.MakeRequest` | apps/ai-service/src/clients/ollamaClient.ts:116-141 | succeeds exactly on an ok response whose JSON parses. A non-ok response fails with its own status. A thrown `fetch` or a failed JSON read is rethrown unchanged, except that an abort becomes a 408, so no `AbortError` escapes |
| `OllamaClient.GenerateEmbedding` | apps/ai-service/src/clients/ollamaClient.ts:32-43 | returns the response's vector. A missing `embedding` is a 500 `Invalid embedding response`, and request errors pass through |
| `OllamaClient.GenerateCompletion` | apps/ai-service/src/clients/ollamaClient.ts:45-57 | returns the parsed body unchecked exactly on an ok response. A failure is exactly `MakeRequest`'s error, so no `AbortError` escapes |
| `OllamaClient.HealthCheck` | apps/ai-service/src/clients/ollamaClient.ts:143-153 | healthy exactly when the probe answered ok; a thrown probe is unhealthy |
| `OllamaClient.FrameText` | apps/ai-service/src/clients/ollamaClient.ts:99-102 | every frame written is `data: `, then exactly the JSON text of the frame's payload, then a blank line |
| `OllamaClient.NonBlankLines` | apps/ai-service/src/clients/ollamaClient.ts:93 | a line is kept exactly when it is a non-blank piece of the split at line breaks; kept lines hold no line break |
| `OllamaClient.Filter` | apps/ai-service/src/clients/ollamaClient.ts:93 | keeps exactly the non-blank pieces; never longer than its input; a list without blank pieces is kept whole |
| `OllamaClient.NonBlank` | apps/ai-service/src/clients/ollamaClient.ts:93 | the filter's test holds exactly when the line is not all white space |
| `OllamaClient.FilterOne` | apps/ai-service/src/clients/ollamaClient.ts:93 | a single piece is dropped exactly when it is blank |
| `OllamaClient.FilterAppend` | apps/ai-service/src/clients/ollamaClient.ts:93 | filtering keeps order: what is kept from `a + b` is what is kept from `a` followed by what is kept from `b` |
| `OllamaClient.NonBlankLinesOfJoin` | apps/ai-service/src/clients/ollamaClient.ts:93 | non-blank lines without line breaks, joined by `\n`, come back unchanged and in order |
| `OllamaClient.LinesFramesShape` | apps/ai-service/src/clients/ollamaClient.ts:95-109 | one read's lines produce content frames, then at most one `done` frame, last |
| `OllamaClient.LinesFramesAppend` | apps/ai-service/src/clients/ollamaClient.ts:95-109 | lines before the first `done` line contribute their frames in order: the frames of `a + b` are those of `a` then those of `b` |
| `OllamaClient.ReadsFramesShape` | apps/ai-service/src/clients/ollamaClient.ts:88-110 | across all reads: content frames, then a `done` frame exactly when a `done` line was met, and nothing after it |
| `OllamaClient.UnparseableLineSkipped` | apps/ai-service/src/clients/ollamaClient.ts:96-108 | a line that does not parse writes nothing and processing goes on |
| `OllamaClient.StreamOutcomeShape` | apps/ai-service/src/clients/ollamaClient.ts:59-114 | the stream ends the response only after a `done` frame and then does not throw. A failed `fetch` writes nothing and throws its error |
| `OllamaClient.WriteLines` | apps/ai-service/src/clients/ollamaClient.ts:95-109 | the inner loop writes exactly `LinesFrames` of the lines and ends the response at the first `done` line |
| `OllamaClient.WriteChunks` | apps/ai-service/src/clients/ollamaClient.ts:88-110 | the read loop writes exactly `ReadsFrames` of the reads and ends the response at the first `done` line |
| `OllamaClient.GenerateStreamingCompletion` | apps/ai-service/src/clients/ollamaClient.ts:59-114 | frames written, end of response and error thrown are those of `StreamOutcome` |
| `ChatService.PromptLines` | apps/ai-service/src/services/chatService.ts:79-89 | with single-line messages, splitting the prompt at line breaks gives the optional context line and a blank line, then one `role: content` line per message in order |
| `ChatService.CompletionRequestFor` | apps/ai-service/src/services/chatService.ts:41-47 | the request carries the built prompt; falsy model, temperature and maxTokens fall back to llama2, 0.7 and 2000 |
| `ChatService.SettingsNeverFalsy` | apps/ai-service/src/services/chatService.ts:42-45 | no setting reaches Ollama falsy; an explicit temperature 0 is sent as 0.7 |
| `ChatService.GenerateCompletion` | apps/ai-service/src/services/chatService.ts:31-58 | an empty conversation is a 400 and sends nothing. Otherwise exactly one non-streaming request is sent, its result is mapped field by field, and any failure is the same 500 |
| `ChatService.CompletionErrorsAreHidden` | apps/ai-service/src/services/chatService.ts:54-57 | callers only ever see a 400 or a 500 `AppError`, whatever Ollama does |
| `ChatService.ChatStreamShape` | apps/ai-service/src/services/chatService.ts:60-77 | a chat stream writes content frames then at most one closing frame (`done` or `Stream failed`), and ends the response exactly when it wrote one |
| `ChatService.StreamWithoutDoneStaysOpen` | apps/ai-service/src/services/chatService.ts:64-76 | a stream that runs out without a `done` line or read error leaves the response open |
| `ChatService.GenerateStreamingCompletion` | apps/ai-service/src/services/chatService.ts:60-77 | sends the streaming request with defaults applied, writes the client's frames, and on failure adds one error frame and ends the response |
| `EmbeddingService.GenerateEmbedding` | apps/ai-service/src/services/embeddingService.ts:11-31 | the trimmed text is sent exactly for a non-blank string of at most 8000 characters, with model `nomic-embed-text` by default. Blank or falsy text is a 400, a non-string throws `TypeError`, too long is a 400, and every Ollama failure is one 500 |
| `EmbeddingService.SentPromptIsTrimmed` | apps/ai-service/src/services/embeddingService.ts:20-24 | what reaches Ollama is non-empty, at most 8000 characters, and neither starts nor ends with white space. It is the caller's text with only white space cut from its two ends |
| `EmbeddingService.RunRounds` | apps/ai-service/src/services/embeddingService.ts:33-46 | success exactly when every text embeds, giving one vector per text in order after ceil(n/5) rounds. On failure all earlier rounds succeeded and the error is one from the last round run |
| `EmbeddingService.GenerateBatchEmbeddings` | apps/ai-service/src/services/embeddingService.ts:33-46 | the batch loop over `GenerateEmbedding` with the same model: order, count, rounds and failure as for `RunRounds` |
| `EmbeddingsRoutes.ValidatedTextIsSent` | apps/ai-service/src/routes/embeddings.ts:12-16 | a request the validator accepts always gets past the service's own guards and is sent |
| `EmbeddingsRoutes.PostEmbedding` | apps/ai-service/src/routes/embeddings.ts:12-26 | validation errors are forwarded untouched. Success happens exactly when valid and embedded, with `dimensions` equal to the vector length and the default model named. The only other error is the service's 500 |
| `EmbeddingsRoutes.PostBatch` | apps/ai-service/src/routes/embeddings.ts:32-54 | non-array or empty `texts`, and more than 100, are 400s that run nothing. Otherwise success happens exactly when every text embeds, with `count` = number of texts and vectors in order, after at most 20 rounds. A failure is forwarded with the error of one of the texts; when every text is a truthy non-string that error is the `TypeError` |
| `EmbeddingsRoutes.NonStringBatchTextIsServerError` | apps/ai-service/src/routes/embeddings.ts:32-54 | a truthy non-string text makes the service raise a `TypeError`, which the handler answers with 500, while the single route's validator refuses it with 400 |
| `RequireRole.Decide` | apps/api-gateway/src/middleware/requireRole.ts:1-16 | 401 without a user. Otherwise the request goes on exactly when the role is the required one or `admin`, and is a 403 if not |
| `RequireRole.RoleMatrix` | apps/api-gateway/src/middleware/requireRole.ts:5-14 | admin passes both guards, user passes only the user guard, and any other role gets 403 from both |
| `RequireRole.AdminGuardIsStricter` | apps/api-gateway/src/middleware/requireRole.ts:9-12 | whatever the admin guard lets through, the user guard does too |
| `Documents.CreateGuard` | apps/document-service/src/routes/documents.ts:13-29 | the create guards in order: identity headers (401), admin role (403), then fileName and storageKey (400). The request passes exactly when all hold |
| `Documents.RefusalChangesNothing` | apps/document-service/src/routes/documents.ts:19-62 | a refused or failed create inserts no row and publishes nothing. A document is created exactly when the guards pass and the INSERT returns |
| `Documents.CreatedRowAndEvent` | apps/document-service/src/routes/documents.ts:31-58 | a create adds one row with the caller's tenant and user. The reply echoes its id and status, and the event (if published) names the same document, key and file. A failed publish changes neither reply nor table |
| `Documents.DocumentStore.CreateDocument` | apps/document-service/src/routes/documents.ts:11-63 | the table, topic and reply end as `Create` says |
| `Documents.ToResults` | apps/document-service/src/routes/documents.ts:121-125 | one result per row, in order, with content and chunk index kept and similarity parsed |
| `Documents.Search` | apps/document-service/src/routes/documents.ts:88-131 | guards in order: tenant (401), string query (400), array embedding (400). Results are found exactly when they pass and the query succeeds: one per row, in row order, with content and chunk index kept and similarity parsed. A failed query is a 500 `Search failed` |
| `Auth.SignupOnlyAppends` | apps/auth-tenant-service/src/server.ts:20-86 | a sign-up appends at most one tenant and one user and removes nothing |
| `Auth.MissingFieldsCreateNothing` | apps/auth-tenant-service/src/server.ts:24-26 | missing email, password or signup type is a 400 that creates nothing |
| `Auth.AdminSignup` | apps/auth-tenant-service/src/server.ts:34-46 | admin sign-up without a tenant name is a 400. Otherwise it creates exactly one tenant and makes the user its admin, and a failed user INSERT leaves the tenant in place |
| `Auth.UserSignup` | apps/auth-tenant-service/src/server.ts:49-65 | user sign-up never creates a tenant. A missing `orgId`, or one the tenant lookup finds no row for, is a 400 that creates nothing. A lookup that throws is a 500 that creates nothing. A new user gets role `user` and the `orgId` |
| `Auth.OtherSignupTypeCreatesUser` | apps/auth-tenant-service/src/server.ts:30-71 | any other truthy signup type still creates a `user` with no tenant |
| `Auth.SignupToken` | apps/auth-tenant-service/src/server.ts:73-80 | the token carries the new user's id, tenant and role, is signed with `JWT_SECRET` for 15m, and the reply repeats tenant and role. Without a secret there is no success |
| `Auth.AuthStore.SignupRequest` | apps/auth-tenant-service/src/server.ts:20-86 | the tables and reply end as `Signup` says |
| `Auth.FindUser` | apps/auth-tenant-service/src/server.ts:93-100 | finds a user exactly when one has the email, and then the first such row |
| `Auth.Login` | apps/auth-tenant-service/src/server.ts:89-120 | logs in exactly when the users lookup runs, the email is found and bcrypt accepts the password. The token lasts 7 days, carries that row's claims and is signed with `JWT_SECRET` or `dev_secret`. A lookup or a bcrypt compare that throws is a 500 `Login failed`, and the only refusals are 401 and 500 |
| `Auth.LoginDoesNotRevealEmails` | apps/auth-tenant-service/src/server.ts:98-106 | an unknown email and a wrong password get the same 401 |
| `Auth.SignupThenLogin` | apps/auth-tenant-service/src/server.ts:68-112 | a fresh sign-up can log in with the same password and gets the same claims and secret, for 7d instead of 15m |
| `Chunker.ChunkText` | apps/ingestion-service/src/chunker.ts:1-12 | empty text gives no chunks. Otherwise there are ceil(length / (size - overlap)) chunks, the i-th being `text.slice(i*step, i*step + size)` |
| `Chunker.ChunkSpan` | apps/ingestion-service/src/chunker.ts:5-9 | every chunk is the non-empty piece from its start up to `size` characters or the end of the text, so no chunk is longer than `size` |
| `Chunker.LastChunkReachesEnd` | apps/ingestion-service/src/chunker.ts:5-9 | the last chunk runs to the end of the text |
| `Chunker.EveryCharacterCovered` | apps/ingestion-service/src/chunker.ts:5-9 | every character of the text appears in some chunk at its own offset |
| `Chunker.ConsecutiveChunksOverlap` | apps/ingestion-service/src/chunker.ts:6-8 | a full chunk's last `overlap` characters are the next chunk's first `overlap` |
| `Chunker.TrailingChunkInsidePrevious` | apps/ingestion-service/src/chunker.ts:5-9 | when the last window holds at most `overlap` characters, it is a tail of the chunk before it |
| `Chunker.DefaultsOn2500Characters` | apps/ingestion-service/src/chunker.ts:1-9 | 2500 characters with defaults give 4 chunks at 0, 800, 1600, 2400, the fourth inside the third |
| `Chunker.ChunkTextToEnd` | apps/ingestion-service/src/chunker.ts:1-12 | the same windows, stopping once one reaches the end: ceil((length - overlap)/step) chunks, and only the last reaches the end |
| `Chunker.StartNeverAdvances` | apps/ingestion-service/src/chunker.ts:5-9 | with `chunkSize <= overlap` and a non-empty text, the start stays at or before 0 after any number of rounds, so the loop guard never fails |
| `Chunker.CheckedChunkText` | apps/ingestion-service/src/chunker.ts:1-12 | refuses exactly the sizes with `chunkSize <= overlap`; otherwise gives `ChunkText`'s ceil(length/step) windows |
| `Ingestion.StreamToBuffer` | apps/ingestion-service/src/index.ts:33-40 | the promise settles on the first `error` or `end`. It resolves with the bytes of the earlier `data` events, rejects on error, and otherwise stays pending |
| `Ingestion.StreamSettlements` | apps/ingestion-service/src/index.ts:33-40 | data then end resolves with the chunks concatenated in order, whatever follows. Data then error rejects, and data alone never settles |
| `Ingestion.Attempt` | apps/ingestion-service/src/index.ts:77-111 | an attempt succeeds exactly when S3 gives a body whose stream ends, pdf-parse accepts it and the `ready` UPDATE succeeds. It is stuck exactly when the stream never settles; anything else fails |
| `Ingestion.RunAttempt` | apps/ingestion-service/src/index.ts:80-111 | the attempt as run ends as `Attempt` says |
| `Ingestion.Worker.EachMessage` | apps/ingestion-service/src/index.ts:54-150 | statuses, DLQ, ending, attempts and sleeps end as `Handle` says |
| `Ingestion.EarlyExits` | apps/ingestion-service/src/index.ts:55-74 | no value, bad JSON or a `null` payload change nothing (the last two throw). A failed `processing` UPDATE returns with nothing changed and no attempt |
| `Ingestion.AttemptsAndBackoffs` | apps/ingestion-service/src/index.ts:62-124 | at most 3 attempts. The delays are a prefix of 2000 ms and 4000 ms, one fewer than the attempts |
| `Ingestion.ExhaustedRetries` | apps/ingestion-service/src/index.ts:127-149 | after three failures: sleeps 2000 and 4000, one DLQ record equal to the payload if the publish works. The document ends `failed` only if publish and UPDATE both work, else stays `processing` |
| `Ingestion.DeadLetterOnlyWhenExhausted` | apps/ingestion-service/src/index.ts:127-149 | the DLQ gains at most the one payload, and only after three failed attempts |
| `Ingestion.OnlyTheDocumentChanges` | apps/ingestion-service/src/index.ts:65-149 | only the message's own document can change status; no row is added or removed |
| `Ingestion.ClaimIsUnconditional` | apps/ingestion-service/src/index.ts:65-74 | once the `processing` UPDATE succeeds, the document's previous status makes no difference (a `ready` document is processed again) |
| `Ingestion.ReadyIffAnAttemptSucceeded` | apps/ingestion-service/src/index.ts:76-125 | the document ends `ready` exactly when some attempt succeeds after all earlier ones failed |
| `Ingestion.FailureReasonsAreNotDistinguished` | apps/ingestion-service/src/index.ts:112-124 | runs whose attempts fail, succeed or stall at the same positions end identically, whatever the errors |

## Left out

- I/O is not executed: HTTP, Postgres, Kafka, S3, bcrypt, JWT signing, pdf-parse, timers and the console. Each call's outcome is an input, and logging is dropped.
- Concurrency is not modelled. The five embeddings of a round and the handlers of different Kafka partitions are treated one at a time.
- `Promise.all` rejects with the first rejection in time; the model cannot see timing. `EmbeddingService.RunRounds` states only that the error is one raised in the last round run.
- `EmbeddingService.RunRounds` is weaker than the source here: the calls of a failed round still run to completion after `Promise.all` rejects.
- `EmbeddingService.GenerateBatchEmbeddings` inherits the same weakening: its failure clause names only some text of the last round run, not the first to reject.
- `EmbeddingsRoutes.PostBatch` inherits the same weakening.
- `TextDecoder`, UTF-8 and UTF-16 lengths are not modelled. Strings are sequences of characters, and stream chunks arrive already decoded.
- The exact text `JSON.stringify` produces is a parameter. So are what `JSON.parse` yields for a line, and what `parseFloat` yields for a similarity.
- Database type coercion is not modelled. The model compares an `orgId` with tenant ids as JSON strings, and never reorders rows.
- The similarity query's ordering and `LIMIT 5` are left to the database: the rows are taken as given.
- The document list route (`GET /` of the document service) is not part of this model.
- The chat route file, the health routes and the Express app wiring are not part of this model.
- The model writes an absent optional chat field as its falsy value (`""`, `0`). The code reads these fields only through `||`, so the two behave the same.
- A `null` `messages` given to the streaming chat call, which would throw before the `try`, is not modelled. Messages are a list.
- `Auth.Login`: the users table is read in stored order, whereas the code relies on whatever order Postgres returns.
- Sign-up uses `JWT_SECRET` as it is, and fails with 500 when it is unset. Log-in falls back to `dev_secret`. Both are modelled as written.
- `Chunker.ChunkText` requires a positive step for non-empty text. With `chunkSize <= overlap` and a non-empty text the source loops forever, which a terminating method cannot express; see "Findings".
- `Ingestion.Worker.EachMessage` does not model a stuck stream waiting forever. A body stream that never settles is returned as `Hung`, with the attempts started so far.
- What kafkajs does with a thrown handler is not modelled, nor is its retry or commit behaviour.
- The S3 bucket and key are not modelled. Each attempt's S3 answer is an input, whatever key was sent.

## Findings

| source | as written | input that shows it | evidently intended | confidence | as-written member | corrected member |
|---|---|---|---|---|---|---|
| apps/ingestion-service/src/chunker.ts:5-9 | the loop goes on while `start < text.length`, even after a chunk already reached the end of the text | 2500 characters with size 1000 and overlap 200 give four chunks. The fourth (2400..2500) is the tail of the third (1600..2500) | stop once a chunk reaches the end, giving ceil((length - overlap)/step) chunks (three here) | medium; not executed | `Chunker.TrailingChunkInsidePrevious` | `Chunker.ChunkTextToEnd` |
| apps/ingestion-service/src/chunker.ts:1-9 | the sizes are not checked, and the start moves by `chunkSize - overlap` each round | any non-empty text with `overlap >= chunkSize`, e.g. `chunkText("a", 100, 200)`, never returns | refuse `chunkSize <= overlap` before looping | medium; not executed | `Chunker.StartNeverAdvances` | `Chunker.CheckedChunkText` |
