/** `retrieve_context_multi_source` and `query_rag_pipeline`: the post-filter
    of vector-search results, the ranking, the source list, the numbered
    context string and the two short-circuits before the generator. The query
    embedding, the vector index and the generator are inputs. */
module RagRetrieval {
  import opened Common
  import opened Text
  import opened Chunks
  import opened RagStore
  import opened RagRanking

  /** One `$vectorSearch` candidate with its score. */
  datatype Scored = Scored(record: ChunkRecord, score: int)

  /** The embedding model and the vector index: `aembed_query` may raise, and
      the aggregate may fail; the index returns candidates best first. */
  datatype VectorIndex = VectorIndex(
    embedQuery: string -> Outcome<Vector>,
    search: Vector -> Result<seq<Scored>, string>)

  /** `"limit": 20` of the search stage and `to_list(length=20)`. */
  const SearchLimit: nat := 20
  const SnippetLength: nat := 150

  /** The `$match` stage: the session arm is present for a non-empty
      `session_id`, the file-type arm for a non-empty `file_types`. */
  datatype MatchFilter = MatchFilter(session: Option<string>, fileTypes: Option<seq<string>>)

  function BuildFilter(fileTypes: Option<seq<string>>, sessionId: Option<string>): (f: MatchFilter)
    ensures f.session.Some? <==> sessionId.Some? && sessionId.value != ""
    ensures f.fileTypes.Some? <==> fileTypes.Some? && fileTypes.value != []
    ensures f.session.Some? ==> f.session == sessionId
    ensures f.fileTypes.Some? ==> f.fileTypes == fileTypes
  {
    MatchFilter(
      if sessionId.Some? && sessionId.value != "" then sessionId else None,
      if fileTypes.Some? && fileTypes.value != [] then fileTypes else None)
  }

  /** Whether a chunk record passes the `$match` stage. The session arm is
      `{"session_id": sid}` or `{"is_shared": True}`; chunk records have no
      `is_shared` field, so only the first alternative can hold. */
  predicate Matches(f: MatchFilter, r: ChunkRecord) {
    (f.session.Some? ==> r.sessionId == f.session) &&
    (f.fileTypes.Some? ==>
      "file_type" in r.metadata && r.metadata["file_type"].Str? && r.metadata["file_type"].s in f.fileTypes.value)
  }

  /** `$match` then `$project` over the candidates, in their order. */
  function Kept(f: MatchFilter, cands: seq<Scored>): (r: seq<Hit>)
    ensures |r| <= |cands|
  {
    if cands == [] then []
    else
      var last := cands[|cands| - 1];
      Kept(f, cands[..|cands| - 1]) + (if Matches(f, last.record) then [Hit(last.record.content, last.record.metadata, last.score)] else [])
  }

  /** The first `SearchLimit` candidates, filtered and projected. */
  function Recalled(f: MatchFilter, cands: seq<Scored>): (r: seq<Hit>)
    ensures |r| <= SearchLimit
  {
    Kept(f, if |cands| <= SearchLimit then cands else cands[..SearchLimit])
  }

  /** A formatted source: `file`, `content_snippet`, `relevance_score` and,
      when present, `page`, `function` and `section`. */
  type Source = map<string, Value>

  /** `content[:150]`. */
  function Snippet(content: string): (r: string)
    ensures |r| <= SnippetLength && r <= content
    ensures |content| <= SnippetLength ==> r == content
  {
    if |content| <= SnippetLength then content else content[..SnippetLength]
  }

  /** `{k: v for k, v in entry.items() if v is not None}`. */
  function DropNone(entry: map<string, Option<Value>>): (r: Source)
    ensures forall k :: k in r <==> k in entry && entry[k].Some?
    ensures forall k :: k in r ==> entry[k] == Some(r[k])
  {
    map k | k in entry && entry[k].Some? :: entry[k].value
  }

  /** The source entry of one top result, before and after dropping `None`. */
  function SourceEntry(h: Hit): map<string, Option<Value>> {
    map[
      "file" := Some(GetOr(h.metadata, "file_name", Str("Unknown"))),
      "content_snippet" := Some(Str(Snippet(h.content) + "...")),
      "relevance_score" := Some(Int(h.score)),
      "page" := Get(h.metadata, "page_number"),
      "function" := Get(h.metadata, "function_name"),
      "section" := Get(h.metadata, "section")]
  }

  function FormatSource(h: Hit): Source {
    DropNone(SourceEntry(h))
  }

  /** A source always names its file (or "Unknown"), carries the snippet
      with "..." and the score, and has `page`, `function` and `section`
      exactly when the chunk's metadata has the matching key. */
  lemma FormatSourceSpec(h: Hit)
    ensures var r := FormatSource(h);
      r.Keys <= {"file", "content_snippet", "relevance_score", "page", "function", "section"} &&
      "file" in r && "content_snippet" in r && "relevance_score" in r &&
      r["file"] == (if "file_name" in h.metadata then h.metadata["file_name"] else Str("Unknown")) &&
      r["content_snippet"] == Str(Snippet(h.content) + "...") &&
      r["relevance_score"] == Int(h.score) &&
      ("page" in r <==> "page_number" in h.metadata) &&
      ("function" in r <==> "function_name" in h.metadata) &&
      ("section" in r <==> "section" in h.metadata) &&
      ("page" in r ==> r["page"] == h.metadata["page_number"]) &&
      ("function" in r ==> r["function"] == h.metadata["function_name"]) &&
      ("section" in r ==> r["section"] == h.metadata["section"])
  {
    var e := SourceEntry(h);
    assert e["file"].Some? && e["content_snippet"].Some? && e["relevance_score"].Some?;
  }

  /** `f` applied to every hit, in order. */
  function Each(f: Hit -> Source, top: seq<Hit>): (r: seq<Source>)
    ensures |r| == |top|
  {
    if top == [] then [] else Each(f, top[..|top| - 1]) + [f(top[|top| - 1])]
  }

  /** Element i of `Each(f, top)` is `f(top[i])`. */
  lemma {:induction false} EachSpec(f: Hit -> Source, top: seq<Hit>)
    ensures forall i :: 0 <= i < |top| ==> Each(f, top)[i] == f(top[i])
  {
    if top != [] {
      var init := top[..|top| - 1];
      EachSpec(f, init);
      forall i | 0 <= i < |top| ensures Each(f, top)[i] == f(top[i]) {
        if i < |init| {
          assert Each(f, top)[i] == Each(f, init)[i];
        }
      }
    }
  }

  /** The sources of the top results, in rank order. */
  function Formatted(top: seq<Hit>): (r: seq<Source>)
    ensures |r| == |top|
  {
    Each(FormatSource, top)
  }

  /** Source i is the formatted result i. */
  lemma FormattedSpec(top: seq<Hit>)
    ensures forall i :: 0 <= i < |top| ==> Formatted(top)[i] == FormatSource(top[i])
  {
    EachSpec(FormatSource, top);
  }

  /** The `for res in top_results` loop appending to `sources`. */
  method FormatSources(top: seq<Hit>) returns (sources: seq<Source>)
    ensures sources == Formatted(top)
  {
    sources := [];
    for i := 0 to |top|
      invariant sources == Formatted(top[..i])
    {
      assert top[..i + 1][..i] == top[..i];
      sources := sources + [FormatSource(top[i])];
    }
    assert top[..|top|] == top;
  }

  /** The formatted sources and the top results ("full chunks"). */
  datatype Retrieved = Retrieved(sources: seq<Source>, top: seq<Hit>)

  /** `retrieve_context_multi_source`: a failing query embedding raises, a
      failing search returns `([], [])`. */
  function Retrieval(index: VectorIndex, query: string, fileTypes: Option<seq<string>>, sessionId: Option<string>)
    : (r: Outcome<Retrieved>)
    ensures r.Returned? ==> |r.value.sources| == |r.value.top| <= TopK
  {
    match index.embedQuery(query)
    case Raised(m) => Raised(m)
    case Returned(v) =>
      match index.search(v)
      case Err(_) => Returned(Retrieved([], []))
      case Ok(cands) =>
        var top := Top(Recalled(BuildFilter(fileTypes, sessionId), cands));
        Returned(Retrieved(Formatted(top), top))
  }

  method Retrieve(index: VectorIndex, query: string, fileTypes: Option<seq<string>>, sessionId: Option<string>)
    returns (r: Outcome<Retrieved>)
    ensures r == Retrieval(index, query, fileTypes, sessionId)
  {
    var queryEmbedding := index.embedQuery(query);
    if queryEmbedding.Raised? {
      return Raised(queryEmbedding.message);
    }
    var matchFilter := BuildFilter(fileTypes, sessionId);
    var results := index.search(queryEmbedding.value);
    if results.Err? {
      return Returned(Retrieved([], []));
    }
    var topResults := Top(Recalled(matchFilter, results.value));
    var sources := FormatSources(topResults);
    r := Returned(Retrieved(sources, topResults));
  }

  /** Every recalled hit comes from one of the first 20 candidates that
      passes the filter. */
  lemma {:induction false} KeptSound(f: MatchFilter, cands: seq<Scored>)
    ensures forall h :: h in Kept(f, cands) ==>
      exists k :: 0 <= k < |cands| && Matches(f, cands[k].record) &&
        h == Hit(cands[k].record.content, cands[k].record.metadata, cands[k].score)
  {
    if cands != [] {
      var init := cands[..|cands| - 1];
      KeptSound(f, init);
      forall h | h in Kept(f, cands)
        ensures exists k :: (0 <= k < |cands| && Matches(f, cands[k].record) &&
          h == Hit(cands[k].record.content, cands[k].record.metadata, cands[k].score))
      {
        if h in Kept(f, init) {
          var k :| 0 <= k < |init| && Matches(f, init[k].record) &&
            h == Hit(init[k].record.content, init[k].record.metadata, init[k].score);
          assert cands[k] == init[k];
        } else {
          assert cands[|cands| - 1].record.content == h.content;
        }
      }
    }
  }

  /** Every matching candidate among the ones looked at is recalled. */
  lemma {:induction false} KeptComplete(f: MatchFilter, cands: seq<Scored>, k: nat)
    requires k < |cands| && Matches(f, cands[k].record)
    ensures Hit(cands[k].record.content, cands[k].record.metadata, cands[k].score) in Kept(f, cands)
  {
    var init := cands[..|cands| - 1];
    if k < |cands| - 1 {
      assert init[k] == cands[k];
      KeptComplete(f, init, k);
    }
  }

  /** Under a session filter for `a`, whatever mix of candidates the search
      returns, every recalled hit is the projection of a chunk record of
      session `a`: a chunk stored for another session is never returned, even
      when its file was uploaded as shared, because the chunk record does not
      carry the flag. */
  lemma OtherSessionInvisible(f: MatchFilter, cands: seq<Scored>, a: string)
    requires f.session == Some(a)
    ensures forall h :: h in Kept(f, cands) ==>
      exists k :: 0 <= k < |cands| && cands[k].record.sessionId == Some(a) &&
        h == Hit(cands[k].record.content, cands[k].record.metadata, cands[k].score)
  {
    KeptSound(f, cands);
  }
}
