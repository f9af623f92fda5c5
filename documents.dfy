/**
 * The document service's write and search endpoints
 * (apps/document-service/src/routes/documents.ts): `POST /` records a
 * document's metadata and announces it on the `document.uploaded` topic;
 * `POST /search` runs a similarity query over stored chunks.
 *
 * Identity comes from the gateway's headers; an absent header is written
 * `""`, which the route treats the same way. Postgres and Kafka are inputs:
 * what the INSERT returned (or that it threw), whether the publish
 * succeeded, and the rows the search query returned.
 */
module Documents {
  import opened Wrappers
  import opened Js

  /** `DocumentStatus` (apps/document-service/src/types/document.ts). */
  datatype DocumentStatus = Uploaded | Processing | Ready | Failed

  /** The `x-tenant-id`, `x-user-id` and `x-role` headers. */
  datatype Identity = Identity(tenantId: string, userId: string, role: string)

  /** A row of the `documents` table. */
  datatype DocumentRow = DocumentRow(id: string, tenantId: string, uploadedBy: string,
                                     fileName: JsValue, storageKey: JsValue, status: DocumentStatus)

  /** The event published on `document.uploaded`. */
  datatype UploadEvent = UploadEvent(eventId: string, documentId: string, tenantId: string,
                                     storageKey: JsValue, fileName: JsValue)

  /** What `INSERT ... RETURNING id, status` did. */
  datatype InsertResult = InsertThrew | InsertReturned(id: string, status: DocumentStatus)

  datatype CreateReply =
    | Created(documentId: string, status: DocumentStatus)   // res.json({documentId, status})
    | CreateRefused(code: int, error: string)              // res.status(code).json({error})

  /** The request a create is allowed to insert. */
  predicate CreateAllowed(identity: Identity, body: Body) {
    && identity.tenantId != "" && identity.userId != "" && identity.role == "admin"
    && Truthy(Field(body, "fileName")) && Truthy(Field(body, "storageKey"))
  }

  /**
   * The three guards of `POST /`, first failure wins: identity headers
   * (401), then the admin role (403), then the two body fields (400).
   */
  function CreateGuard(identity: Identity, body: Body): (r: Option<CreateReply>)
    ensures r.None? <==> CreateAllowed(identity, body)
    ensures r.Some? ==> r.value.CreateRefused? && r.value.code in {400, 401, 403}
    ensures identity.tenantId == "" || identity.userId == "" ==>
              r == Some(CreateRefused(401, "Missing identity headers"))
    ensures identity.tenantId != "" && identity.userId != "" && identity.role != "admin" ==>
              r == Some(CreateRefused(403, "Only admin can upload documents"))
    ensures identity.tenantId != "" && identity.userId != "" && identity.role == "admin"
            && !(Truthy(Field(body, "fileName")) && Truthy(Field(body, "storageKey"))) ==>
              r == Some(CreateRefused(400, "Missing fields"))
  {
    if identity.tenantId == "" || identity.userId == "" then
      Some(CreateRefused(401, "Missing identity headers"))
    else if identity.role != "admin" then
      Some(CreateRefused(403, "Only admin can upload documents"))
    else if !Truthy(Field(body, "fileName")) || !Truthy(Field(body, "storageKey")) then
      Some(CreateRefused(400, "Missing fields"))
    else
      None
  }

  /** Table and topic after a create, and the reply. */
  datatype CreateOutcome = CreateOutcome(rows: seq<DocumentRow>, events: seq<UploadEvent>, reply: CreateReply)

  /**
   * `POST /` over the `documents` table `rows` and the topic `events`: a
   * refused request or a failed insert changes nothing; otherwise exactly
   * one row is added, and one event about it when the publish succeeds.
   */
  function Create(rows: seq<DocumentRow>, events: seq<UploadEvent>, identity: Identity, body: Body,
                  insert: InsertResult, eventId: string, publishOk: bool): CreateOutcome
  {
    match CreateGuard(identity, body)
    case Some(refusal) => CreateOutcome(rows, events, refusal)
    case None =>
      match insert
      case InsertThrew => CreateOutcome(rows, events, CreateRefused(500, "Failed to create document"))
      case InsertReturned(id, status) =>
        var fileName := Field(body, "fileName");
        var storageKey := Field(body, "storageKey");
        var row := DocumentRow(id, identity.tenantId, identity.userId, fileName, storageKey, status);
        var event := UploadEvent(eventId, id, identity.tenantId, storageKey, fileName);
        CreateOutcome(rows + [row], events + (if publishOk then [event] else []), Created(id, status))
  }

  /** A refused request inserts no row and publishes no event; a failed insert answers 500 and publishes nothing. */
  lemma RefusalChangesNothing(rows: seq<DocumentRow>, events: seq<UploadEvent>, identity: Identity, body: Body,
                              insert: InsertResult, eventId: string, publishOk: bool)
    ensures var o := Create(rows, events, identity, body, insert, eventId, publishOk);
            o.reply.CreateRefused? ==> o.rows == rows && o.events == events
    ensures var o := Create(rows, events, identity, body, insert, eventId, publishOk);
            CreateAllowed(identity, body) && insert.InsertThrew? ==>
              o.reply == CreateRefused(500, "Failed to create document")
    ensures var o := Create(rows, events, identity, body, insert, eventId, publishOk);
            o.reply.Created? <==> CreateAllowed(identity, body) && insert.InsertReturned?
  {
  }

  /**
   * A created document: one new row carrying the caller's tenant and user
   * and the returned id and status; the reply echoes that id and status;
   * the event, when published, names the same document, tenant, key and
   * file; and whether the publish succeeded does not change the reply or
   * the table.
   */
  lemma CreatedRowAndEvent(rows: seq<DocumentRow>, events: seq<UploadEvent>, identity: Identity, body: Body,
                           insert: InsertResult, eventId: string, publishOk: bool)
    requires Create(rows, events, identity, body, insert, eventId, publishOk).reply.Created?
    ensures var o := Create(rows, events, identity, body, insert, eventId, publishOk);
            && |o.rows| == |rows| + 1 && o.rows[..|rows|] == rows
            && var row := o.rows[|rows|];
               && row.id == o.reply.documentId && row.status == o.reply.status
               && row.tenantId == identity.tenantId && row.uploadedBy == identity.userId && identity.role == "admin"
               && (publishOk ==> o.events == events + [UploadEvent(eventId, row.id, row.tenantId, row.storageKey, row.fileName)])
               && (!publishOk ==> o.events == events)
    ensures var o := Create(rows, events, identity, body, insert, eventId, publishOk);
            var p := Create(rows, events, identity, body, insert, eventId, !publishOk);
            o.reply == p.reply && o.rows == p.rows
  {
    var o := Create(rows, events, identity, body, insert, eventId, publishOk);
    assert o.rows[..|rows|] == rows;
  }

  /** The `documents` table and the `document.uploaded` topic, as the create route changes them. */
  class DocumentStore {
    var rows: seq<DocumentRow>
    var events: seq<UploadEvent>

    constructor ()
      ensures rows == [] && events == []
    {
      rows := [];
      events := [];
    }

    /** `POST /`: the table and topic end as `Create` says. */
    method CreateDocument(identity: Identity, body: Body, insert: InsertResult, eventId: string, publishOk: bool)
      returns (reply: CreateReply)
      modifies this
      ensures var o := Create(old(rows), old(events), identity, body, insert, eventId, publishOk);
              rows == o.rows && events == o.events && reply == o.reply
    {
      var refusal := CreateGuard(identity, body);
      if refusal.Some? {
        return refusal.value;
      }
      if insert.InsertThrew? {
        return CreateRefused(500, "Failed to create document");
      }
      var documentId := insert.id;
      rows := rows + [DocumentRow(documentId, identity.tenantId, identity.userId,
                                  Field(body, "fileName"), Field(body, "storageKey"), insert.status)];
      // publishDocumentUploaded(...).catch(log): a failed publish is only logged
      if publishOk {
        events := events + [UploadEvent(eventId, documentId, identity.tenantId,
                                        Field(body, "storageKey"), Field(body, "fileName"))];
      }
      reply := Created(documentId, insert.status);
    }
  }

  /*-------------------------------- search --------------------------------*/

  /** A row of the similarity query: `content`, `similarity` (as text) and `chunk_index`. */
  datatype ChunkRow = ChunkRow(content: JsValue, similarity: string, chunkIndex: JsValue)

  /** One entry of the reply's `results`. */
  datatype SearchResult = SearchResult(content: JsValue, similarity: real, chunkIndex: JsValue)

  /** The parameters of the similarity query: the embedding and the tenant. */
  datatype SearchQuery = SearchQuery(embedding: seq<JsValue>, tenantId: string)

  datatype SearchReply =
    | Found(query: string, results: seq<SearchResult>)   // res.json({query, results})
    | SearchRefused(code: int, error: string)

  /** `rows.map(...)`, with `parseFloat` as a parameter. */
  function ToResults(rows: seq<ChunkRow>, parseFloat: string -> real): (results: seq<SearchResult>)
    ensures |results| == |rows|
    ensures forall i :: 0 <= i < |rows| ==>
              results[i] == SearchResult(rows[i].content, parseFloat(rows[i].similarity), rows[i].chunkIndex)
  {
    if rows == [] then [] else [SearchResult(rows[0].content, parseFloat(rows[0].similarity), rows[0].chunkIndex)]
                               + ToResults(rows[1..], parseFloat)
  }

  /**
   * `POST /search`, with `db` giving the rows of the similarity query (or
   * `None` when it throws). Checks, in order: tenant header (401), a
   * non-empty string `query` (400), an array `embedding` (400). The results
   * keep the rows' order, content and chunk index; a failed query is a 500.
   */
  function Search(tenantId: string, body: Body, db: SearchQuery -> Option<seq<ChunkRow>>,
                  parseFloat: string -> real): (r: SearchReply)
    ensures tenantId == "" ==> r == SearchRefused(401, "Missing tenant context")
    ensures tenantId != "" && !(Truthy(Field(body, "query")) && Field(body, "query").Str?) ==>
              r == SearchRefused(400, "Query text is required")
    ensures tenantId != "" && Truthy(Field(body, "query")) && Field(body, "query").Str? && !Field(body, "embedding").Arr? ==>
              r == SearchRefused(400, "Pre-computed embedding is required")
    ensures r.Found? <==>
              && tenantId != "" && Truthy(Field(body, "query")) && Field(body, "query").Str? && Field(body, "embedding").Arr?
              && db(SearchQuery(Field(body, "embedding").items, tenantId)).Some?
    ensures r.Found? ==>
              var rows := db(SearchQuery(Field(body, "embedding").items, tenantId)).value;
              && r.query == Field(body, "query").s
              && |r.results| == |rows|
              && r.results == ToResults(rows, parseFloat)
              && forall i :: 0 <= i < |rows| ==>
                   && r.results[i].content == rows[i].content && r.results[i].chunkIndex == rows[i].chunkIndex
                   && r.results[i].similarity == parseFloat(rows[i].similarity)
    ensures && tenantId != "" && Truthy(Field(body, "query")) && Field(body, "query").Str? && Field(body, "embedding").Arr?
            && db(SearchQuery(Field(body, "embedding").items, tenantId)).None? ==>
              r == SearchRefused(500, "Search failed")
    ensures r.SearchRefused? ==> r.code in {400, 401, 500}
  {
    var query := Field(body, "query");
    var embedding := Field(body, "embedding");
    if tenantId == "" then SearchRefused(401, "Missing tenant context")
    else if !Truthy(query) || !query.Str? then SearchRefused(400, "Query text is required")
    else if !Truthy(embedding) || !embedding.Arr? then SearchRefused(400, "Pre-computed embedding is required")
    else
      match db(SearchQuery(embedding.items, tenantId))
      case None => SearchRefused(500, "Search failed")
      case Some(rows) => Found(query.s, ToResults(rows, parseFloat))
  }
}
