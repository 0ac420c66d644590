/** `ingest_file`: extract chunks, embed them, pair chunk records with the
    embeddings, write the metadata record and then the chunk records, and
    record the outcome in the upload status dictionary. Every failure becomes
    a "failed" status; only a missing status entry escapes, as `KeyError`. */
module RagIngest {
  import opened Common
  import opened Text
  import opened Chunks
  import opened DocumentProcessor
  import opened RagStore
  import opened StatusStore

  /** `aembed_documents`: one vector per text, or the raised message. */
  type Embedder = seq<string> -> Result<seq<Vector>, string>

  /** The arguments of one `ingest_file` call. */
  datatype Upload = Upload(
    fileId: string, fileName: string, content: seq<byte>,
    sessionId: Option<string>, isShared: bool)

  /** The collaborators of `ingest_file`: the extractors and allow-list, the
      embedding model (`None` when unconfigured) and the driver failures the
      two inserts raise, if any. */
  datatype Services = Services(
    parsers: Parsers, allowed: seq<string>, embedder: Option<Embedder>,
    metadataFault: Option<string>, chunksFault: Option<string>)

  const NoContent: string := "No content extracted"
  const NoEmbedder: string := "Embedding model is not configured"
  /** `str(IndexError)` when there are fewer embeddings than chunks. */
  const IndexOutOfRange: string := "list index out of range"

  /** The status changes of the two outcomes. */
  function Failed(message: string): StatusEntry {
    map["status" := Str("failed"), "error" := Str(message)]
  }

  function Completed(n: nat): StatusEntry {
    map["status" := Str("completed"), "chunks_created" := Int(n)]
  }

  /** `f"{file_id}_chunk_{i}"`. */
  function RecordId(fileId: string, i: nat): string {
    fileId + "_chunk_" + NatToString(i)
  }

  /** `[chunk['content'] for chunk in chunks]`. */
  function Contents(chunks: seq<Chunk>): (r: seq<string>)
    ensures |r| == |chunks|
  {
    seq(|chunks|, i requires 0 <= i < |chunks| => chunks[i].content)
  }

  /** The chunk record built for chunk `i`. */
  function Record(u: Upload, c: Chunk, i: nat, e: Vector): ChunkRecord {
    ChunkRecord(RecordId(u.fileId, i), u.fileId, u.sessionId, c.content, c.metadata, e)
  }

  /** The records of the first `n` chunks, paired index-wise with the embeddings. */
  function RecordsUpTo(u: Upload, chunks: seq<Chunk>, embeddings: seq<Vector>, n: nat): (r: seq<ChunkRecord>)
    requires n <= |chunks| && n <= |embeddings|
    ensures |r| == n
  {
    if n == 0 then [] else RecordsUpTo(u, chunks, embeddings, n - 1) + [Record(u, chunks[n - 1], n - 1, embeddings[n - 1])]
  }

  /** The record-building loop: fails with `IndexError` at the first chunk
      that has no embedding; extra embeddings are ignored. */
  function ChunkRecords(u: Upload, chunks: seq<Chunk>, embeddings: seq<Vector>): (r: Result<seq<ChunkRecord>, string>)
    ensures r.Err? <==> |embeddings| < |chunks|
    ensures r.Err? ==> r.error == IndexOutOfRange
  {
    if |embeddings| < |chunks| then Err(IndexOutOfRange) else Ok(RecordsUpTo(u, chunks, embeddings, |chunks|))
  }

  /** The `file_metadata` record: its type is the first chunk's `file_type`
      or "unknown", its count the number of chunks. */
  function MetadataRecord(u: Upload, chunks: seq<Chunk>): (r: FileMetadata)
    requires chunks != []
    ensures r.fileId == u.fileId && r.fileName == u.fileName && r.chunkCount == |chunks|
    ensures r.sessionId == u.sessionId && r.isShared == u.isShared
    ensures r.fileType == if "file_type" in chunks[0].metadata then chunks[0].metadata["file_type"] else Str("unknown")
  {
    FileMetadata(u.fileId, u.fileName, u.sessionId, u.isShared, GetOr(chunks[0].metadata, "file_type", Str("unknown")), |chunks|)
  }

  /** Everything before the first write: the two records to store, or the
      message the status records. */
  function Prepared(sv: Services, u: Upload): (r: Result<(FileMetadata, seq<ChunkRecord>), string>)
    ensures r.Ok? ==> r.value.0.fileId == u.fileId && r.value.0.chunkCount == |r.value.1| > 0
  {
    match ProcessFile(sv.parsers, sv.allowed, u.fileName, u.content)
    case Err(e) => Err(e.Message())
    case Ok(chunks) =>
      if chunks == [] then Err(NoContent)
      else if sv.embedder.None? then Err(NoEmbedder)
      else match sv.embedder.value(Contents(chunks))
        case Err(m) => Err(m)
        case Ok(embeddings) =>
          match ChunkRecords(u, chunks, embeddings)
          case Err(m) => Err(m)
          case Ok(recs) => Ok((MetadataRecord(u, chunks), recs))
  }

  /** The stores after ingestion and the change applied to the status entry. */
  datatype Effect = Effect(stores: Stores, status: StatusEntry)

  function Ingested(s: Stores, sv: Services, u: Upload): Effect {
    Written(s, Prepared(sv, u), sv.metadataFault, sv.chunksFault)
  }

  /** Steps 5 to 7: the metadata record first, then the chunk records, each
      write failing the status with the raised message. */
  function Written(s: Stores, prepared: Result<(FileMetadata, seq<ChunkRecord>), string>,
                   metadataFault: Option<string>, chunksFault: Option<string>): Effect {
    match prepared
    case Err(m) => Effect(s, Failed(m))
    case Ok((meta, recs)) =>
      match MetadataInserted(s, meta, metadataFault)
      case Err(m) => Effect(s, Failed(m))
      case Ok(s1) =>
        match ChunksInserted(s1, recs, chunksFault)
        case Err(m) => Effect(s1, Failed(m))
        case Ok(s2) => Effect(s2, Completed(|recs|))
  }

  lemma RecordsStep(u: Upload, chunks: seq<Chunk>, embeddings: seq<Vector>, i: nat)
    requires i < |chunks| && i < |embeddings|
    ensures RecordsUpTo(u, chunks, embeddings, i + 1)
      == RecordsUpTo(u, chunks, embeddings, i) + [Record(u, chunks[i], i, embeddings[i])]
  {
  }

  /** The `for i, chunk in enumerate(chunks)` loop building `chunk_documents`. */
  method BuildRecords(u: Upload, chunks: seq<Chunk>, embeddings: seq<Vector>) returns (r: Result<seq<ChunkRecord>, string>)
    ensures r == ChunkRecords(u, chunks, embeddings)
  {
    var chunkDocuments: seq<ChunkRecord> := [];
    for i := 0 to |chunks|
      invariant i <= |embeddings|
      invariant chunkDocuments == RecordsUpTo(u, chunks, embeddings, i)
    {
      if i >= |embeddings| {
        return Err(IndexOutOfRange);
      }
      RecordsStep(u, chunks, embeddings, i);
      chunkDocuments := chunkDocuments + [Record(u, chunks[i], i, embeddings[i])];
    }
    r := Ok(chunkDocuments);
  }

  /** Steps 1 to 4 of `ingest_file`, up to the first write. */
  method Prepare(sv: Services, u: Upload) returns (r: Result<(FileMetadata, seq<ChunkRecord>), string>)
    ensures r == Prepared(sv, u)
  {
    var processed := ProcessFile(sv.parsers, sv.allowed, u.fileName, u.content);
    if processed.Err? {
      return Err(processed.error.Message());
    }
    var chunks := processed.value;
    if chunks == [] {
      return Err(NoContent);
    }
    if sv.embedder.None? {
      return Err(NoEmbedder);
    }
    var embedded := sv.embedder.value(Contents(chunks));
    if embedded.Err? {
      return Err(embedded.error);
    }
    var recs := BuildRecords(u, chunks, embedded.value);
    if recs.Err? {
      return Err(recs.error);
    }
    r := Ok((MetadataRecord(u, chunks), recs.value));
  }

  /** `ingest_file`. `escaped` is true when the status entry is missing: the
      final `update` then raises `KeyError` out of the `except` handler, after
      whatever was already written to the stores. */
  method Ingest(db: Database, status: StatusDb, sv: Services, u: Upload) returns (escaped: bool)
    modifies db, status
    ensures db.State() == Ingested(old(db.State()), sv, u).stores
    ensures escaped <==> u.fileId !in old(status.entries)
    ensures status.entries == if escaped then old(status.entries)
      else old(status.entries)[u.fileId := Updated(old(status.entries)[u.fileId], Ingested(old(db.State()), sv, u).status)]
  {
    var prepared := Prepare(sv, u);
    var change := Write(db, prepared, sv.metadataFault, sv.chunksFault);
    var found := status.Update(u.fileId, change);
    escaped := !found;
  }

  /** Steps 5 to 7 of `ingest_file` on the database: the change to apply to
      the status entry is returned. */
  method Write(db: Database, prepared: Result<(FileMetadata, seq<ChunkRecord>), string>,
               metadataFault: Option<string>, chunksFault: Option<string>) returns (change: StatusEntry)
    modifies db
    ensures db.State() == Written(old(db.State()), prepared, metadataFault, chunksFault).stores
    ensures change == Written(old(db.State()), prepared, metadataFault, chunksFault).status
  {
    if prepared.Err? {
      change := Failed(prepared.error);
    } else {
      var (meta, recs) := prepared.value;
      var err := db.InsertOne(meta, metadataFault);
      if err.Some? {
        change := Failed(err.value);
      } else {
        err := db.InsertMany(recs, chunksFault);
        if err.Some? {
          change := Failed(err.value);
        } else {
          change := Completed(|recs|);
        }
      }
    }
  }

  /** Chunk record ids of one file are distinct. */
  lemma RecordIdsDistinct(fileId: string, i: nat, j: nat)
    requires i != j
    ensures RecordId(fileId, i) != RecordId(fileId, j)
  {
    var p := fileId + "_chunk_";
    if RecordId(fileId, i) == RecordId(fileId, j) {
      assert RecordId(fileId, i)[|p|..] == NatToString(i);
      assert RecordId(fileId, j)[|p|..] == NatToString(j);
      NatToStringInjective(i, j);
    }
  }

  /** Record `k` pairs chunk `k` with embedding `k` under the id
      `{file_id}_chunk_{k}`, and no two records share an id. */
  lemma {:induction false} RecordsUpToSpec(u: Upload, chunks: seq<Chunk>, embeddings: seq<Vector>, n: nat)
    requires n <= |chunks| && n <= |embeddings|
    ensures var r := RecordsUpTo(u, chunks, embeddings, n);
      (forall k :: 0 <= k < n ==> r[k] == ChunkRecord(RecordId(u.fileId, k), u.fileId, u.sessionId,
                                                        chunks[k].content, chunks[k].metadata, embeddings[k])) &&
      FreshIds(r, {})
  {
    if n > 0 {
      RecordsUpToSpec(u, chunks, embeddings, n - 1);
      var r := RecordsUpTo(u, chunks, embeddings, n);
      forall k, l | 0 <= k < l < n ensures r[k].id != r[l].id {
        RecordIdsDistinct(u.fileId, k, l);
      }
    }
  }

  /** With one embedding per chunk, the records to write are exactly one per
      chunk with deterministic, distinct ids, and the metadata record counts
      them; with too few embeddings the loop fails with `IndexError`. */
  lemma PreparedSpec(sv: Services, u: Upload, chunks: seq<Chunk>, embeddings: seq<Vector>)
    requires ProcessFile(sv.parsers, sv.allowed, u.fileName, u.content) == Ok(chunks) && chunks != []
    requires sv.embedder.Some? && sv.embedder.value(Contents(chunks)) == Ok(embeddings)
    ensures |embeddings| < |chunks| ==> Prepared(sv, u) == Err(IndexOutOfRange)
    ensures |embeddings| >= |chunks| ==>
      Prepared(sv, u).Ok? &&
      var (meta, recs) := Prepared(sv, u).value;
      meta == MetadataRecord(u, chunks) && |recs| == |chunks| && FreshIds(recs, {}) &&
      forall k :: 0 <= k < |recs| ==> recs[k] == ChunkRecord(RecordId(u.fileId, k), u.fileId, u.sessionId,
                                                          chunks[k].content, chunks[k].metadata, embeddings[k])
  {
    if |embeddings| >= |chunks| {
      RecordsUpToSpec(u, chunks, embeddings, |chunks|);
    }
  }

  /** An extraction with no chunks fails the status with "No content
      extracted" and writes nothing. */
  lemma EmptyExtractionWritesNothing(s: Stores, sv: Services, u: Upload)
    requires ProcessFile(sv.parsers, sv.allowed, u.fileName, u.content) == Ok([])
    ensures Ingested(s, sv, u) == Effect(s, Failed(NoContent))
  {
  }

  /** Without an embedding model the status fails with "Embedding model is
      not configured" and nothing is written. */
  lemma MissingEmbedderWritesNothing(s: Stores, sv: Services, u: Upload)
    requires ProcessFile(sv.parsers, sv.allowed, u.fileName, u.content).Ok?
    requires ProcessFile(sv.parsers, sv.allowed, u.fileName, u.content).value != []
    requires sv.embedder.None?
    ensures Ingested(s, sv, u) == Effect(s, Failed(NoEmbedder))
  {
  }

  /** A rejected or unprocessable file fails the status with the error's text
      and writes nothing. */
  lemma ProcessErrorWritesNothing(s: Stores, sv: Services, u: Upload)
    requires ProcessFile(sv.parsers, sv.allowed, u.fileName, u.content).Err?
    ensures Ingested(s, sv, u) == Effect(s, Failed(ProcessFile(sv.parsers, sv.allowed, u.fileName, u.content).error.Message()))
  {
  }

  /** Ingestion never leaves the status "processing": it ends "completed"
      with the chunk count after both writes, or "failed" with an error,
      having written nothing or only the metadata record, never chunks
      without their metadata. */
  lemma WrittenOutcome(s: Stores, prepared: Result<(FileMetadata, seq<ChunkRecord>), string>,
                       metadataFault: Option<string>, chunksFault: Option<string>)
    ensures var e := Written(s, prepared, metadataFault, chunksFault);
      "status" in e.status && e.status["status"] in {Str("completed"), Str("failed")}
    ensures var e := Written(s, prepared, metadataFault, chunksFault);
      e.status["status"] == Str("completed") ==>
        prepared.Ok? && prepared.value.0.fileId !in s.metadata &&
        e.status == Completed(|prepared.value.1|) &&
        e.stores == Stores(s.metadata[prepared.value.0.fileId := prepared.value.0], s.chunks + prepared.value.1)
    ensures var e := Written(s, prepared, metadataFault, chunksFault);
      e.status["status"] == Str("failed") ==>
        "error" in e.status && e.stores.chunks == s.chunks &&
        (e.stores == s || (prepared.Ok? && e.stores.metadata == s.metadata[prepared.value.0.fileId := prepared.value.0]))
  {
    match prepared
    case Err(m) =>
    case Ok((meta, recs)) =>
      match MetadataInserted(s, meta, metadataFault)
      case Err(m) =>
      case Ok(s1) =>
        assert s1.metadata == s.metadata[meta.fileId := meta];
  }
}
