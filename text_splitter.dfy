/** `process_text`: documents from the (library) splitters, with their
    metadata normalised. Only the preparation of the documents and the
    metadata normalisation are modelled; the splitters are inputs. */
module TextSplitter {
  import opened Common
  import opened Text
  import opened Chunks

  /** A langchain `Document`. */
  datatype SplitDoc = SplitDoc(pageContent: string, metadata: Metadata)

  /** The two langchain splitters: Markdown headers "#", "##", "###" become
      metadata keys "Header 1".."Header 3"; the recursive character splitter
      bounds each piece by the configured size and overlap. Either may raise
      (the character splitter, for instance, when it is built from missing
      settings or an overlap larger than the chunk size), and `process_text`
      does not catch that. */
  datatype Splitters = Splitters(
    headerSplit: string -> Outcome<seq<SplitDoc>>,
    sizeSplit: seq<SplitDoc> -> Outcome<seq<SplitDoc>>)

  /** The documents handed to the size splitter: header sections for ".md",
      otherwise the whole text as one document with empty metadata. */
  function Documents(content: string, fileType: string, sp: Splitters): (docs: Outcome<seq<SplitDoc>>)
    ensures fileType != ".md" ==> docs == Returned([SplitDoc(content, map[])])
  {
    if fileType == ".md" then sp.headerSplit(content) else Returned([SplitDoc(content, map[])])
  }

  /** `final_metadata['section'] = final_metadata.pop(key)` when `key` is present. */
  function PopIntoSection(m: Metadata, key: string): Metadata {
    if key in m then (m - {key})["section" := m[key]] else m
  }

  /** The metadata of an output chunk: file name and type, overridden by the
      document's own keys, then each "Header k" present moved to "section". */
  function Normalize(fileName: string, fileType: string, docMeta: Metadata): Metadata {
    var merged := map["file_name" := Str(fileName), "file_type" := Str(fileType)] + docMeta;
    PopIntoSection(PopIntoSection(PopIntoSection(merged, "Header 1"), "Header 2"), "Header 3")
  }

  /** One chunk per split document, in order, with normalised metadata. */
  function Chunked(split: seq<SplitDoc>, fileName: string, fileType: string): seq<Chunk> {
    seq(|split|, i requires 0 <= i < |split| => Chunk(split[i].pageContent, Normalize(fileName, fileType, split[i].metadata)))
  }

  /** What `process_text` returns or raises: the chunks of the split
      documents, or the exception of whichever splitter raised. */
  function TextChunks(content: string, fileName: string, fileType: string, sp: Splitters): Outcome<seq<Chunk>> {
    match Documents(content, fileType, sp)
    case Raised(m) => Raised(m)
    case Returned(docs) =>
      match sp.sizeSplit(docs)
      case Raised(m) => Raised(m)
      case Returned(split) => Returned(Chunked(split, fileName, fileType))
  }

  predicate IsHeaderKey(k: string) {
    k == "Header 1" || k == "Header 2" || k == "Header 3"
  }

  method ProcessText(content: string, fileName: string, fileType: string, sp: Splitters)
    returns (result: Outcome<seq<Chunk>>)
    ensures result == TextChunks(content, fileName, fileType, sp)
  {
    var docs: Outcome<seq<SplitDoc>>;
    if fileType == ".md" {
      docs := sp.headerSplit(content);
    } else {
      docs := Returned([SplitDoc(content, map[])]);
    }
    if docs.Raised? {
      return Raised(docs.message);
    }
    var split := sp.sizeSplit(docs.value);
    if split.Raised? {
      return Raised(split.message);
    }
    var splitDocs := split.value;
    var chunks := [];
    for i := 0 to |splitDocs|
      invariant |chunks| == i
      invariant forall k :: 0 <= k < i ==>
        chunks[k] == Chunk(splitDocs[k].pageContent, Normalize(fileName, fileType, splitDocs[k].metadata))
    {
      var doc := splitDocs[i];
      var finalMetadata := map["file_name" := Str(fileName), "file_type" := Str(fileType)] + doc.metadata;
      if "Header 1" in finalMetadata {
        var v := finalMetadata["Header 1"];
        finalMetadata := (finalMetadata - {"Header 1"})["section" := v];
      }
      if "Header 2" in finalMetadata {
        var v := finalMetadata["Header 2"];
        finalMetadata := (finalMetadata - {"Header 2"})["section" := v];
      }
      if "Header 3" in finalMetadata {
        var v := finalMetadata["Header 3"];
        finalMetadata := (finalMetadata - {"Header 3"})["section" := v];
      }
      chunks := chunks + [Chunk(doc.pageContent, finalMetadata)];
    }
    assert docs == Documents(content, fileType, sp);
    assert chunks == Chunked(splitDocs, fileName, fileType);
    result := Returned(chunks);
  }

  /** After normalisation no "Header k" key remains; "file_name" and
      "file_type" are always present (the given ones unless the document
      overrides them); "section" is the deepest header present, and keeps the
      document's own "section" (absent if it had none) when no header was
      present; every other key is the document's. */
  lemma NormalizeSpec(fileName: string, fileType: string, m: Metadata)
    ensures var r := Normalize(fileName, fileType, m);
      && "Header 1" !in r && "Header 2" !in r && "Header 3" !in r
      && "file_name" in r && "file_type" in r
      && ("file_name" !in m ==> r["file_name"] == Str(fileName))
      && ("file_type" !in m ==> r["file_type"] == Str(fileType))
      && ("Header 3" in m ==> r["section"] == m["Header 3"])
      && ("Header 3" !in m && "Header 2" in m ==> "section" in r && r["section"] == m["Header 2"])
      && ("Header 3" !in m && "Header 2" !in m && "Header 1" in m ==> "section" in r && r["section"] == m["Header 1"])
      && ("Header 3" !in m && "Header 2" !in m && "Header 1" !in m ==>
            ("section" in r <==> "section" in m) && ("section" in m ==> r["section"] == m["section"]))
      && (forall k :: k in m && !IsHeaderKey(k) && k != "section" ==> k in r && r[k] == m[k])
      && (forall k :: k in r && k != "section" && k != "file_name" && k != "file_type" ==> k in m)
  {
  }

  /** `process_text` raises exactly when one of the splitters raises, and
      then with that splitter's exception. */
  lemma TextChunksRaised(content: string, fileName: string, fileType: string, sp: Splitters)
    ensures var docs := Documents(content, fileType, sp);
      TextChunks(content, fileName, fileType, sp) ==
        if docs.Raised? then Raised(docs.message)
        else if sp.sizeSplit(docs.value).Raised? then Raised(sp.sizeSplit(docs.value).message)
        else Returned(Chunked(sp.sizeSplit(docs.value).value, fileName, fileType))
    ensures fileType != ".md" ==>
      (TextChunks(content, fileName, fileType, sp).Raised? <==> sp.sizeSplit([SplitDoc(content, map[])]).Raised?)
  {
  }

  /** Every chunk of a text or Markdown file names the file and its type. */
  lemma ChunkedNamed(split: seq<SplitDoc>, fileName: string, fileType: string)
    ensures forall c :: c in Chunked(split, fileName, fileType) ==>
      "file_name" in c.metadata && "file_type" in c.metadata && "Header 1" !in c.metadata &&
      "Header 2" !in c.metadata && "Header 3" !in c.metadata
  {
    forall c | c in Chunked(split, fileName, fileType)
      ensures "file_name" in c.metadata && "file_type" in c.metadata && "Header 1" !in c.metadata &&
              "Header 2" !in c.metadata && "Header 3" !in c.metadata
    {
      var i :| 0 <= i < |split| && c == Chunked(split, fileName, fileType)[i];
      NormalizeSpec(fileName, fileType, split[i].metadata);
    }
  }

  /** When `process_text` returns, every chunk names the file and its type
      and carries no header key. */
  lemma TextChunksNamed(content: string, fileName: string, fileType: string, sp: Splitters)
    ensures var r := TextChunks(content, fileName, fileType, sp);
      r.Returned? ==> forall c :: c in r.value ==>
        "file_name" in c.metadata && "file_type" in c.metadata && "Header 1" !in c.metadata &&
        "Header 2" !in c.metadata && "Header 3" !in c.metadata
  {
    var docs := Documents(content, fileType, sp);
    if docs.Returned? && sp.sizeSplit(docs.value).Returned? {
      ChunkedNamed(sp.sizeSplit(docs.value).value, fileName, fileType);
    }
  }
}
