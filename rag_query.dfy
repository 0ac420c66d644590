/** `query_rag_pipeline`: retrieve, short-circuit when nothing was found or
    no generator is configured, otherwise number the top results into a
    context string and ask the generator. */
module RagQuery {
  import opened Common
  import opened Text
  import opened Chunks
  import opened RagRanking
  import opened RagRetrieval

  /** The generator chain (prompt, model, string parser) on the filled prompt. */
  type Generator = string -> Outcome<string>

  const NotFound: string := "I couldn\'t find any relevant information in your documents to answer that question."
  const NoModel: string := "RAG model is not configured."

  const Dashes: string := "--------------------------------------------------"

  /** The rule closing each block: a newline, 50 dashes and a blank line. */
  const Rule: string := "\n" + Dashes + "\n\n"

  /** The three parts of the prompt template around `{context}` and `{question}`. */
  const PromptHead: string := Join("\n", [
    "",
    "    You are an AI assistant. Answer the user\'s question based *only* on the",
    "    provided context from their documents.",
    "    ",
    "    If the context doesn\'t contain the answer, say \"I\'m sorry, but I",
    "    couldn\'t find the answer to your question in the provided documents.\"",
    "    ",
    "    Cite the sources you used in your answer using [Source X] notation,",
    "    referring to the source number.",
    "    ",
    "    Context:",
    "    "])
  const PromptMiddle: string := "\n    \n    Question:\n    "
  const PromptTail: string := "\n    \n    Answer:\n    "

  function Prompt(context: string, question: string): string {
    PromptHead + context + PromptMiddle + question + PromptTail
  }

  /** The header line of the `i`-th result (counted from 0). */
  function Header(i: nat, h: Hit): string {
    "--- Source " + NatToString(i + 1) + " (" + Show(Get(h.metadata, "file_name")) + ") ---\n"
  }

  /** The block one result adds to the context string. */
  function Block(i: nat, h: Hit): string {
    Header(i, h) + h.content + Rule
  }

  /** The context string for the results in rank order. */
  function Context(top: seq<Hit>): string {
    if top == [] then "" else Context(top[..|top| - 1]) + Block(|top| - 1, top[|top| - 1])
  }

  /** The answer text and the sources returned with it. */
  datatype Answer = Answer(text: string, sources: seq<Source>)

  function Queried(index: VectorIndex, generator: Option<Generator>, query: string,
                   fileTypes: Option<seq<string>>, sessionId: Option<string>): Outcome<Answer> {
    match Retrieval(index, query, fileTypes, sessionId)
    case Raised(m) => Raised(m)
    case Returned(r) =>
      if r.top == [] then Returned(Answer(NotFound, []))
      else if generator.None? then Returned(Answer(NoModel, r.sources))
      else match generator.value(Prompt(Context(r.top), query))
        case Raised(m) => Raised(m)
        case Returned(a) => Returned(Answer(a, r.sources))
  }

  lemma ContextStep(top: seq<Hit>, i: nat)
    requires i < |top|
    ensures Context(top[..i + 1]) == Context(top[..i]) + Block(i, top[i])
  {
    assert top[..i + 1][..i] == top[..i];
  }

  lemma Concat3(c: string, a: string, b: string, d: string)
    ensures c + a + b + d == c + (a + b + d)
  {
  }

  /** The `for i, chunk in enumerate(context_chunks)` loop. */
  method BuildContext(top: seq<Hit>) returns (contextStr: string)
    ensures contextStr == Context(top)
  {
    contextStr := "";
    for i := 0 to |top|
      invariant contextStr == Context(top[..i])
    {
      ContextStep(top, i);
      contextStr := contextStr + Header(i, top[i]);
      contextStr := contextStr + top[i].content;
      contextStr := contextStr + Rule;
      Concat3(Context(top[..i]), Header(i, top[i]), top[i].content, Rule);
    }
    assert top[..|top|] == top;
  }

  method QueryRagPipeline(index: VectorIndex, generator: Option<Generator>, query: string,
                          fileTypes: Option<seq<string>>, sessionId: Option<string>) returns (r: Outcome<Answer>)
    ensures r == Queried(index, generator, query, fileTypes, sessionId)
  {
    var retrieved := Retrieve(index, query, fileTypes, sessionId);
    if retrieved.Raised? {
      return Raised(retrieved.message);
    }
    var formattedSources := retrieved.value.sources;
    var contextChunks := retrieved.value.top;
    if contextChunks == [] {
      return Returned(Answer(NotFound, []));
    }
    if generator.None? {
      return Returned(Answer(NoModel, formattedSources));
    }
    var contextStr := BuildContext(contextChunks);
    var answer := generator.value(Prompt(contextStr, query));
    if answer.Raised? {
      return Raised(answer.message);
    }
    r := Returned(Answer(answer.value, formattedSources));
  }

  /** Result `k` appears as its block "--- Source k+1 (file) ---\n" +
      content + rule, right after the blocks of the results ranked above it. */
  lemma {:induction false} ContextNumbered(top: seq<Hit>, k: nat)
    requires k < |top|
    ensures Context(top[..k]) + Block(k, top[k]) <= Context(top)
    decreases |top| - k
  {
    ContextStep(top, k);
    if k + 1 < |top| {
      ContextNumbered(top, k + 1);
    } else {
      assert top[..k + 1] == top;
    }
  }

  /** No relevant chunk, including a failed search, gives the fixed
      "couldn't find" answer and no sources. */
  lemma NothingFound(index: VectorIndex, generator: Option<Generator>, query: string,
                     fileTypes: Option<seq<string>>, sessionId: Option<string>)
    requires index.embedQuery(query).Returned?
    requires var s := index.search(index.embedQuery(query).value);
      s.Err? || Recalled(BuildFilter(fileTypes, sessionId), s.value) == []
    ensures Queried(index, generator, query, fileTypes, sessionId) == Returned(Answer(NotFound, []))
  {
  }

  /** With results but no generator the answer is "RAG model is not
      configured." together with the formatted sources. */
  lemma NoGenerator(index: VectorIndex, query: string, fileTypes: Option<seq<string>>, sessionId: Option<string>)
    requires Retrieval(index, query, fileTypes, sessionId).Returned?
    requires Retrieval(index, query, fileTypes, sessionId).value.top != []
    ensures Queried(index, None, query, fileTypes, sessionId)
      == Returned(Answer(NoModel, Retrieval(index, query, fileTypes, sessionId).value.sources))
  {
  }
}
