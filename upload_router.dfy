/** The upload routes of the RAG router: accept an upload whose extension is
    allowed and record it as "processing", look a status up, and delete a
    file together with its status entry. The fresh file id (`uuid4`) is an
    input, and the background ingestion task is returned as a value. */
module UploadRouter {
  import opened Common
  import opened Text
  import opened Chunks
  import opened StatusStore
  import opened RagStore
  import RagIngest
  import DocumentProcessor

  datatype HttpError = HttpError(statusCode: int, detail: string)

  /** `[ft.lstrip('.') for ft in allowed]`. */
  function Extensions(allowed: seq<string>): (r: seq<string>)
    ensures |r| == |allowed| && forall i :: 0 <= i < |allowed| ==> r[i] == StripLeading(allowed[i], '.')
  {
    seq(|allowed|, i requires 0 <= i < |allowed| => StripLeading(allowed[i], '.'))
  }

  /** The router's check: the lower-cased last dot-segment of the name is an
      allowed type without its leading dots. */
  predicate Accepts(allowed: seq<string>, fileName: string) {
    Lower(AfterLast(fileName, '.')) in Extensions(allowed)
  }

  /** The status entry an accepted upload starts with. */
  function InitialStatus(fileId: string, fileName: string): (e: StatusEntry)
    ensures e.Keys == {"file_id", "file_name", "status", "chunks_created"}
    ensures e["status"] == Str("processing") && e["chunks_created"] == Int(0)
    ensures e["file_id"] == Str(fileId) && e["file_name"] == Str(fileName)
  {
    map["file_id" := Str(fileId), "file_name" := Str(fileName),
        "status" := Str("processing"), "chunks_created" := Int(0)]
  }

  /** The response body of an accepted upload. */
  datatype UploadResponse = UploadResponse(fileId: string, fileName: string, status: string)

  /** `upload_file`: a rejected type raises 400 and records nothing; an
      accepted one records the "processing" entry under the fresh id and
      schedules the ingestion of exactly this upload. */
  method UploadFile(status: StatusDb, allowed: seq<string>, fileName: string, content: seq<byte>,
                    sessionId: Option<string>, isShared: bool, freshId: string)
    returns (r: Result<(UploadResponse, RagIngest.Upload), HttpError>)
    modifies status
    ensures r.Err? <==> !Accepts(allowed, fileName)
    ensures r.Err? ==> r.error == HttpError(400, "File type not allowed") && status.entries == old(status.entries)
    ensures r.Ok? ==>
      status.entries == old(status.entries)[freshId := InitialStatus(freshId, fileName)] &&
      r.value.0 == UploadResponse(freshId, fileName, "processing") &&
      r.value.1 == RagIngest.Upload(freshId, fileName, content, sessionId, isShared)
  {
    if !Accepts(allowed, fileName) {
      return Err(HttpError(400, "File type not allowed"));
    }
    status.entries := status.entries[freshId := InitialStatus(freshId, fileName)];
    r := Ok((UploadResponse(freshId, fileName, "processing"), RagIngest.Upload(freshId, fileName, content, sessionId, isShared)));
  }

  /** `get_upload_status`: a missing (or empty) entry is a 404; otherwise
      the stored entry is returned unchanged. */
  function UploadStatus(status: StatusDb, fileId: string): (r: Result<StatusEntry, HttpError>)
    reads status
    ensures r.Err? <==> fileId !in status.entries || status.entries[fileId] == map[]
    ensures r.Err? ==> r.error == HttpError(404, "File ID not found")
    ensures r.Ok? ==> r.value == status.entries[fileId]
  {
    if fileId !in status.entries || status.entries[fileId] == map[] then Err(HttpError(404, "File ID not found"))
    else Ok(status.entries[fileId])
  }

  datatype DeleteResponse = DeleteResponse(fileId: string, status: string)

  /** `delete_file_from_rag`: deletes the file from both collections, then
      its status entry, if any, and reports "deleted". When `rag.delete_file`
      raises, the exception (`r.Err?`, with its message) leaves the route
      before the status entry is touched. */
  method DeleteFileFromRag(db: Database, status: StatusDb, fileId: string,
                           metadataFault: Option<string>, chunksFault: Option<string>)
    returns (r: Result<DeleteResponse, string>)
    modifies db, status
    ensures db.State() == DeletedWith(old(db.State()), fileId, metadataFault, chunksFault).stores
    ensures r.Err? <==> metadataFault.Some? || chunksFault.Some?
    ensures r.Err? ==> Some(r.error) == DeletedWith(old(db.State()), fileId, metadataFault, chunksFault).error &&
                       status.entries == old(status.entries)
    ensures r.Ok? ==> r.value == DeleteResponse(fileId, "deleted") && status.entries == old(status.entries) - {fileId}
  {
    var err := db.DeleteFile(fileId, metadataFault, chunksFault);
    if err.Some? {
      return Err(err.value);
    }
    if fileId in status.entries {
      status.entries := status.entries - {fileId};
    }
    r := Ok(DeleteResponse(fileId, "deleted"));
  }

  /** Right after an accepted upload (the state `UploadFile` leaves), the
      status endpoint answers with the initial entry, which reads "processing". */
  lemma AcceptedIsVisible(status: StatusDb, freshId: string, fileName: string)
    requires freshId in status.entries && status.entries[freshId] == InitialStatus(freshId, fileName)
    ensures UploadStatus(status, freshId) == Ok(InitialStatus(freshId, fileName))
    ensures UploadStatus(status, freshId).value["status"] == Str("processing")
  {
    assert "file_id" in InitialStatus(freshId, fileName);
  }

  /** When every allowed type is one dot followed by a name that does not
      start with a dot, an extension is in the stripped list exactly when the
      dotted extension is in the list as written. */
  lemma DottedExtensions(allowed: seq<string>, ext: string)
    requires forall i :: 0 <= i < |allowed| ==>
      (|allowed[i]| >= 1 && allowed[i][0] == '.' && (|allowed[i]| == 1 || allowed[i][1] != '.'))
    ensures ext in Extensions(allowed) <==> "." + ext in allowed
  {
    var xs := Extensions(allowed);
    if ext in xs {
      assert "." + ext in allowed by {
        var i :| 0 <= i < |xs| && xs[i] == ext;
        var t := allowed[i];
        assert t == ['.'] + t[1..];
        StripLeadingOne('.', t[1..]);
        assert xs[i] == StripLeading(t, '.');
        assert "." + ext == t;
      }
    }
    if "." + ext in allowed {
      assert ext in xs by {
        var i :| 0 <= i < |allowed| && allowed[i] == "." + ext;
        var t := allowed[i];
        assert ext == t[1..];
        StripLeadingOne('.', ext);
        assert xs[i] == StripLeading(t, '.');
        assert xs[i] == ext;
      }
    }
  }

  /** Under the same condition the router accepts exactly the names whose
      processor file type is allowed. */
  lemma AcceptsAgreesWithProcessor(allowed: seq<string>, fileName: string)
    requires forall i :: 0 <= i < |allowed| ==>
      (|allowed[i]| >= 1 && allowed[i][0] == '.' && (|allowed[i]| == 1 || allowed[i][1] != '.'))
    ensures Accepts(allowed, fileName) <==> DocumentProcessor.FileType(fileName) in allowed
  {
    DottedExtensions(allowed, Lower(AfterLast(fileName, '.')));
  }

  /** The router accepts "a.pdf" when the allowed type is written "pdf". */
  lemma UndottedTypeAccepted()
    ensures Accepts(["pdf"], "a.pdf")
  {
    assert "a.pdf" == "a" + ['.'] + "pdf";
    AfterLastSuffix("a", '.', "pdf");
    LowerFixed("pdf");
    var xs := Extensions(["pdf"]);
    assert "pdf"[0] == 'p';
    assert xs[0] == StripLeading("pdf", '.') == "pdf";
    assert Lower(AfterLast("a.pdf", '.')) == xs[0];
  }

  /** The processor rejects the same file: its type ".pdf" is not "pdf", so
      such an upload is accepted and then fails in ingestion. */
  lemma UndottedTypeRejected()
    ensures DocumentProcessor.FileType("a.pdf") !in ["pdf"]
  {
    assert DocumentProcessor.FileType("a.pdf")[0] == '.';
  }
}
