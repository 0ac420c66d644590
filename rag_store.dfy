/** The two collections `ingest_file` and `delete_file` write: `file_metadata`
    (one record per file, keyed by `_id`) and `all_chunks` (the chunk records
    in insertion order). The document store is modelled in memory; its
    driver failures are inputs. */
module RagStore {
  import opened Common
  import opened Chunks

  /** An embedding vector; its numbers are never inspected. */
  type Vector = seq<real>

  /** One document of `all_chunks`. It has no `is_shared` field. */
  datatype ChunkRecord = ChunkRecord(
    id: string, fileId: string, sessionId: Option<string>,
    content: string, metadata: Metadata, embedding: Vector)

  /** One document of `file_metadata`. */
  datatype FileMetadata = FileMetadata(
    fileId: string, fileName: string, sessionId: Option<string>,
    isShared: bool, fileType: Value, chunkCount: nat)

  /** The contents of both collections. */
  datatype Stores = Stores(metadata: map<string, FileMetadata>, chunks: seq<ChunkRecord>)

  /** Start of the message of the duplicate-key error the store raises. */
  const DuplicateKey: string := "E11000 duplicate key error"

  /** The ids already used in `all_chunks`. */
  function Ids(cs: seq<ChunkRecord>): set<string> {
    set k | 0 <= k < |cs| :: cs[k].id
  }

  /** `insert_one`: fails on a driver fault or when the `_id` is taken, and
      then writes nothing. */
  function MetadataInserted(s: Stores, rec: FileMetadata, fault: Option<string>): (r: Result<Stores, string>)
    ensures r.Ok? <==> fault.None? && rec.fileId !in s.metadata
    ensures r.Ok? ==>
      r.value.chunks == s.chunks && r.value.metadata.Keys == s.metadata.Keys + {rec.fileId} &&
      r.value.metadata[rec.fileId] == rec &&
      (forall k :: k in s.metadata ==> r.value.metadata[k] == s.metadata[k])
  {
    if fault.Some? then Err(fault.value)
    else if rec.fileId in s.metadata then Err(DuplicateKey)
    else Ok(s.(metadata := s.metadata[rec.fileId := rec]))
  }

  /** No two records share an id, and none uses an id in `used`. */
  predicate FreshIds(recs: seq<ChunkRecord>, used: set<string>) {
    (forall k :: 0 <= k < |recs| ==> recs[k].id !in used) &&
    (forall k, l :: 0 <= k < l < |recs| ==> recs[k].id != recs[l].id)
  }

  /** `insert_many`: appends the records in order, or fails on a driver fault
      or an id clash and then writes nothing. */
  function ChunksInserted(s: Stores, recs: seq<ChunkRecord>, fault: Option<string>): (r: Result<Stores, string>)
    ensures r.Ok? <==> fault.None? && FreshIds(recs, Ids(s.chunks))
    ensures r.Ok? ==> r.value == Stores(s.metadata, s.chunks + recs)
  {
    if fault.Some? then Err(fault.value)
    else if !FreshIds(recs, Ids(s.chunks)) then Err(DuplicateKey)
    else Ok(s.(chunks := s.chunks + recs))
  }

  /** The chunk records that do not belong to `fileId`, in their order. */
  function WithoutFile(cs: seq<ChunkRecord>, fileId: string): (r: seq<ChunkRecord>)
    ensures |r| <= |cs|
  {
    if cs == [] then []
    else WithoutFile(cs[..|cs| - 1], fileId) + (if cs[|cs| - 1].fileId == fileId then [] else [cs[|cs| - 1]])
  }

  /** The chunk records of `fileId`, in their order: the reference view of
      one file's part of `all_chunks`. */
  function OfFile(cs: seq<ChunkRecord>, fileId: string): seq<ChunkRecord> {
    if cs == [] then []
    else OfFile(cs[..|cs| - 1], fileId) + (if cs[|cs| - 1].fileId == fileId then [cs[|cs| - 1]] else [])
  }

  /** `delete_one({"_id": file_id})` followed by `delete_many({"file_id": file_id})`. */
  function Deleted(s: Stores, fileId: string): Stores {
    Stores(s.metadata - {fileId}, WithoutFile(s.chunks, fileId))
  }

  /** The stores after `delete_file` and the message it raised, if any. */
  datatype DeleteOutcome = DeleteOutcome(stores: Stores, error: Option<string>)

  /** `delete_file` when either driver call may raise: a `delete_one` fault
      stops before anything is deleted; a `delete_many` fault comes after the
      metadata record is gone, so the chunks stay behind. */
  function DeletedWith(s: Stores, fileId: string, metadataFault: Option<string>, chunksFault: Option<string>)
    : (r: DeleteOutcome)
    ensures r.error.None? <==> metadataFault.None? && chunksFault.None?
    ensures r.error.None? ==> r.stores == Deleted(s, fileId)
  {
    if metadataFault.Some? then DeleteOutcome(s, metadataFault)
    else if chunksFault.Some? then DeleteOutcome(s.(metadata := s.metadata - {fileId}), chunksFault)
    else DeleteOutcome(Deleted(s, fileId), None)
  }

  /** A chunk record survives deletion exactly when it belongs to another file. */
  lemma {:induction false} WithoutFileMembers(cs: seq<ChunkRecord>, fileId: string)
    ensures forall c :: c in WithoutFile(cs, fileId) <==> c in cs && c.fileId != fileId
  {
    if cs != [] {
      WithoutFileMembers(cs[..|cs| - 1], fileId);
      assert cs == cs[..|cs| - 1] + [cs[|cs| - 1]];
    }
  }

  /** Deletion removes exactly one file's records: every other file keeps
      all its records in their order, and the deleted file keeps none. */
  lemma {:induction false} WithoutFileOthers(cs: seq<ChunkRecord>, fileId: string, other: string)
    ensures OfFile(WithoutFile(cs, fileId), other) == if other == fileId then [] else OfFile(cs, other)
  {
    if cs != [] {
      var init := cs[..|cs| - 1];
      var last := cs[|cs| - 1];
      WithoutFileOthers(init, fileId, other);
      var w := WithoutFile(init, fileId);
      assert OfFile(cs, other) == OfFile(init, other) + (if last.fileId == other then [last] else []);
      if last.fileId != fileId {
        assert WithoutFile(cs, fileId) == w + [last];
        assert (w + [last])[..|w + [last]| - 1] == w;
        assert OfFile(w + [last], other) == OfFile(w, other) + (if last.fileId == other then [last] else []);
      } else {
        assert WithoutFile(cs, fileId) == w;
      }
    }
  }

  /** Deleting a file that has no records left changes nothing. */
  lemma {:induction false} WithoutFileAbsent(cs: seq<ChunkRecord>, fileId: string)
    requires forall k :: 0 <= k < |cs| ==> cs[k].fileId != fileId
    ensures WithoutFile(cs, fileId) == cs
  {
    if cs != [] {
      WithoutFileAbsent(cs[..|cs| - 1], fileId);
      assert cs == cs[..|cs| - 1] + [cs[|cs| - 1]];
    }
  }

  /** Deleting twice gives the same stores as deleting once. */
  lemma DeleteIdempotent(s: Stores, fileId: string)
    ensures Deleted(Deleted(s, fileId), fileId) == Deleted(s, fileId)
  {
    var w := WithoutFile(s.chunks, fileId);
    WithoutFileMembers(s.chunks, fileId);
    forall k | 0 <= k < |w| ensures w[k].fileId != fileId {
      assert w[k] in w;
    }
    WithoutFileAbsent(w, fileId);
  }

  /** Deletion removes the file's metadata record, keeps every other one, and
      leaves every other file's chunk records as they were. */
  lemma DeleteSpec(s: Stores, fileId: string, other: string)
    requires other != fileId
    ensures Deleted(s, fileId).metadata.Keys == s.metadata.Keys - {fileId}
    ensures other in s.metadata ==> Deleted(s, fileId).metadata[other] == s.metadata[other]
    ensures OfFile(Deleted(s, fileId).chunks, other) == OfFile(s.chunks, other)
    ensures OfFile(Deleted(s, fileId).chunks, fileId) == []
  {
    WithoutFileOthers(s.chunks, fileId, other);
    WithoutFileOthers(s.chunks, fileId, fileId);
  }

  /** A failed `delete_file` raises the first fault and either changes
      nothing (the metadata delete raised) or leaves the file without its
      metadata record but with every one of its chunks (the chunk delete
      raised); other files are untouched either way. */
  lemma DeleteFaults(s: Stores, fileId: string, metadataFault: Option<string>, chunksFault: Option<string>)
    requires metadataFault.Some? || chunksFault.Some?
    ensures var r := DeletedWith(s, fileId, metadataFault, chunksFault);
      r.error == (if metadataFault.Some? then metadataFault else chunksFault) &&
      r.stores.chunks == s.chunks &&
      (metadataFault.Some? ==> r.stores == s) &&
      (metadataFault.None? ==> r.stores.metadata.Keys == s.metadata.Keys - {fileId}) &&
      (forall k :: k in s.metadata && k != fileId ==> k in r.stores.metadata && r.stores.metadata[k] == s.metadata[k])
  {
  }

  /** Calling `delete_file` again without faults completes an interrupted
      delete: the result is the same as one delete that did not fail. */
  lemma DeleteRetry(s: Stores, fileId: string, metadataFault: Option<string>, chunksFault: Option<string>)
    ensures DeletedWith(DeletedWith(s, fileId, metadataFault, chunksFault).stores, fileId, None, None).stores
      == Deleted(s, fileId)
  {
    var first := DeletedWith(s, fileId, metadataFault, chunksFault).stores;
    if metadataFault.None? && chunksFault.None? {
      DeleteIdempotent(s, fileId);
    } else {
      assert first.chunks == s.chunks;
      assert first.metadata - {fileId} == s.metadata - {fileId};
    }
  }

  /** The in-memory database: both collections, updated in place. */
  class Database {
    var metadata: map<string, FileMetadata>
    var chunks: seq<ChunkRecord>

    constructor ()
      ensures metadata == map[] && chunks == []
    {
      metadata := map[];
      chunks := [];
    }

    function State(): Stores
      reads this
    {
      Stores(metadata, chunks)
    }

    /** `db.file_metadata.insert_one(rec)`; `err` is the raised message. */
    method InsertOne(rec: FileMetadata, fault: Option<string>) returns (err: Option<string>)
      modifies this
      ensures match MetadataInserted(old(State()), rec, fault)
        case Ok(s) => err.None? && State() == s
        case Err(e) => err == Some(e) && State() == old(State())
    {
      if fault.Some? {
        err := fault;
      } else if rec.fileId in metadata {
        err := Some(DuplicateKey);
      } else {
        metadata := metadata[rec.fileId := rec];
        err := None;
      }
    }

    /** `db.all_chunks.insert_many(recs)`; `err` is the raised message. */
    method InsertMany(recs: seq<ChunkRecord>, fault: Option<string>) returns (err: Option<string>)
      modifies this
      ensures match ChunksInserted(old(State()), recs, fault)
        case Ok(s) => err.None? && State() == s
        case Err(e) => err == Some(e) && State() == old(State())
    {
      if fault.Some? {
        err := fault;
      } else if !FreshIds(recs, Ids(chunks)) {
        err := Some(DuplicateKey);
      } else {
        chunks := chunks + recs;
        err := None;
      }
    }

    /** `delete_file(file_id)`: `delete_one`, then `delete_many`; `err` is
        the message of the first call that raised. */
    method DeleteFile(fileId: string, metadataFault: Option<string>, chunksFault: Option<string>)
      returns (err: Option<string>)
      modifies this
      ensures State() == DeletedWith(old(State()), fileId, metadataFault, chunksFault).stores
      ensures err == DeletedWith(old(State()), fileId, metadataFault, chunksFault).error
    {
      if metadataFault.Some? {
        return metadataFault;
      }
      metadata := metadata - {fileId};
      if chunksFault.Some? {
        return chunksFault;
      }
      chunks := WithoutFile(chunks, fileId);
      err := None;
    }
  }
}
