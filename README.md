# Document RAG pipeline of AIchatbot, modelled in Dafny

This project models the retrieval-augmented generation (RAG) back end of the
AIchatbot service, together with its small in-memory state services.

- **Ingestion.**
  - An uploaded file is routed by its extension to an extractor:
    - PDF pages become chunks, one per page that is not blank;
    - in a DOCX, paragraphs are grouped under the heading in force, and each
      table becomes one chunk;
    - text and Markdown go through a header splitter and a size splitter;
    - tabular and code files go to their own processors.
  - Each chunk is embedded and stored as a chunk record.
  - One metadata record is stored per file.
  - An in-memory status table says whether ingestion has completed or failed,
    and why.
- **Retrieval and query.**
  - A vector search returns at most 20 candidates.
  - These are post-filtered by session and file type.
  - The five highest scores are kept, by a stable descending sort.
  - They are formatted as sources and numbered into a context string.
  - That string is filled into the prompt template for the generator.
- **Deletion.** Removes a file's metadata record and all of its chunk records.
  Either delete may raise; when the chunk delete raises, the metadata record
  is already gone, and the router lets the error out before it removes the
  status entry.
- **Upload router.** Checks the file extension, creates the initial status
  entry, hands the upload to ingestion, reports status and deletes files.
- **Sessions router.** An in-memory table of conversation sessions: add,
  read, clear and list.
- **Memory.** The tutor's error-context store and the debugger's per-session
  chat histories.
- **Mess.** The keyword-rule chat bot.

## How the model is built

- **Imperative code.** Code that loops or mutates is modelled with methods
  that have loop invariants. In-memory dictionaries are classes with `map`
  fields, and the methods have `modifies` clauses. This covers:
  - the extractors' loops;
  - ingestion;
  - the context-building loop;
  - the upload status table;
  - the session table;
  - the memory stores.
- **Specification functions.** Every such method is proved equal to a
  specification function, for example `PdfChunks`, `DocxChunks`, `Context`,
  `Ingested` and `Retrieval`. The properties the code promises are lemmas
  about those functions.
- **The MongoDB collections.**
  - `RagStore.Database` holds two fields:
    - the `file_metadata` collection, a map keyed by `_id`;
    - the `all_chunks` collection, a sequence in insertion order.
  - Inserts are all-or-nothing.
  - A duplicate key fails an insert.
  - A failure injected as a parameter also fails an insert, or either of
    the two deletes of `delete_file`.
- **Parameters.** External libraries and services are function-valued
  parameters:
  - PyMuPDF, python-docx and the langchain splitters;
  - the tabular and code processors;
  - the embedder, the vector search and the generator.
- **Exceptions.** A Python exception is an `Outcome.Raised(message)`, where
  `message` is `str(e)`. The `except Exception` handlers become explicit
  branches.

### Behaviour of the code worth knowing

- **No shared visibility.**
  - Retrieval's session filter is `session_id == s OR is_shared == True` on
    chunk records.
  - Ingestion never copies `is_shared` into a chunk record. Only the file
    metadata record has it.
  - So the shared arm never matches, and a shared file is invisible to other
    sessions (`RagRetrieval.OtherSessionInvisible`).
- **Filter after the limit.** The filter is applied after the vector search
  has already limited the candidates to 20, so fewer than five results can
  come back even when more matching chunks exist.
- **Blank tables.** Table chunks are not filtered for blank text the way
  paragraphs are. A DOCX table of one row with one blank cell still produces a
  chunk, and its content is empty (`DocxExtractor.BlankTableStillEmitted`).
  With more blank cells per row the content is the separators, such as " | ".
- **Missing status entry.** Ingestion updates `status_dict[file_id]`. When
  that entry is missing, this raises a `KeyError` that escapes the handler.
  The model reports it as `escaped`.
- **Empty status entry.** The `not status` test in the status endpoint also
  answers 404 for an entry that exists but is empty.
- **Router and processor disagree.**
  - The router compares the extension without its dot against the allowed
    types with their leading dots stripped.
  - The processor compares `"." + extension` against the allowed types
    as written.
  - The two agree only when every allowed type is written with exactly one
    leading dot (`UploadRouter.AcceptsAgreesWithProcessor`).
  - Otherwise the router can accept a file that the processor then rejects:
    with the allowed type "pdf", the router accepts "a.pdf"
    (`UploadRouter.UndottedTypeAccepted`), but the processor's type ".pdf"
    is not in the list (`UploadRouter.UndottedTypeRejected`).
- **Substring greetings.** The greeting keywords are matched as substrings,
  so a message containing "this" gets the greeting reply
  (`Mess.ThisIsAGreeting`).

## Model

| member | source | states |
|---|---|---|
| Text.LeadingSpaces | backend/app/utils/pdf_extractor.py:19 | the whitespace prefix that `strip` removes: every counted character is whitespace and the next one is not |
| Text.EndOfText | backend/app/utils/pdf_extractor.py:19 | the whitespace suffix that `strip` removes: every dropped character is whitespace and the last kept one is not |
| Text.StripEmptyIffBlank | backend/app/utils/pdf_extractor.py:19 | `text.strip()` is empty exactly when the text is all whitespace, which is when a page is skipped |
| Text.StripNotBlank | backend/app/utils/docx_extractor.py:19-20 | a non-empty stripped text is not blank, and it consists of characters of the original |
| Text.BlankSlices | backend/app/utils/pdf_extractor.py:19 | every slice of a blank string is blank |
| Text.LowerChar | backend/app/utils/document_processor.py:13 | `lower()` on one character: ASCII capitals map to small letters, and characters without a case are unchanged |
| Text.Lower | backend/app/utils/document_processor.py:13 | `lower()` keeps the length and lowers every character |
| Text.ContainsAt | backend/app/mess.py:10-19 | `t in s` holds exactly when `t` occurs at some index of `s` |
| Text.ContainsWitness | backend/app/mess.py:10-19 | an occurrence at any index makes the `in` test true |
| Text.Join | backend/app/utils/docx_extractor.py:36 | joining a single part gives that part |
| Text.JoinSnoc | backend/app/utils/docx_extractor.py:40 | joining one more part appends the separator and that part |
| Text.JoinAvoids | backend/app/utils/docx_extractor.py:36 | a character in neither the separator nor any part is not in the join |
| Text.CountCharAppend | backend/app/utils/docx_extractor.py:40 | character counts add up over concatenation |
| Text.CountCharAbsent | backend/app/utils/docx_extractor.py:40 | the count is zero exactly when the character is absent |
| Text.JoinCountsSeparators | backend/app/utils/docx_extractor.py:40 | joining n parts that do not contain the separator character puts exactly n-1 separators into the result |
| Text.LowerAvoids | backend/app/utils/document_processor.py:13 | lowering a text adds no dot (nor any other character without a case) that was absent |
| Text.LowerFixed | backend/app/utils/document_processor.py:13 | a text of small ASCII letters is its own lowercase |
| Text.AfterLastSpec | backend/app/utils/document_processor.py:13 | `split('.')[-1]` is the suffix after the last dot: it contains no dot, and a dot precedes it unless it is the whole name |
| Text.AfterLastSuffix | backend/app/utils/document_processor.py:13 | for a name "stem.ext" whose ext has no dot, `split('.')[-1]` is ext |
| Text.StripLeadingSpec | AIchatbot-RAG/backend/app/routers/rag_router.py:28 | `lstrip('.')` removes exactly the leading dots and leaves a suffix that does not start with a dot |
| Text.StripLeadingOne | AIchatbot-RAG/backend/app/routers/rag_router.py:28 | one leading dot in front of a text that does not start with a dot is removed and nothing else is |
| Text.NatToString | backend/app/services/rag.py:46 | `str(i)` is a non-empty string of decimal digits |
| Text.ParseNatToString | backend/app/services/rag.py:46 | reading the digits of `str(i)` gives back `i` |
| Text.NatToStringInjective | backend/app/services/rag.py:46 | distinct indices print differently |
| Chunks.Get | backend/app/services/rag.py:152-158 | `dict.get(key)` is `None` exactly when the key is missing, and otherwise the stored value |
| Chunks.GetOr | backend/app/services/rag.py:60 | `dict.get(key, default)` returns the stored value when the key is present, and the default otherwise |
| Decoding.DecodeOne | backend/app/utils/document_processor.py:46 | a decoded UTF-8 sequence uses one to four bytes of the input |
| Decoding.DecodeContent | backend/app/utils/document_processor.py:44-48 | `_decode_content` is the UTF-8 decoding when that succeeds, and otherwise Latin-1: one character per byte, with the same code |
| Decoding.EncodeChar | backend/app/utils/document_processor.py:46 | the UTF-8 encoding of a character has one to four bytes, according to the code point's range |
| Decoding.DecodeEncodeTwo | backend/app/utils/document_processor.py:46 | a two-byte UTF-8 sequence decodes to its character |
| Decoding.DecodeEncodeThree | backend/app/utils/document_processor.py:46 | a three-byte UTF-8 sequence decodes to its character |
| Decoding.DecodeEncodeFour | backend/app/utils/document_processor.py:46 | a four-byte UTF-8 sequence decodes to its character |
| Decoding.DecodeOneEncode | backend/app/utils/document_processor.py:46 | decoding the first character of any encoded character followed by anything gives that character and its length |
| Decoding.Utf8RoundTrip | backend/app/utils/document_processor.py:44-48 | decoding the UTF-8 encoding of any text gives the text back, and the Latin-1 fallback is not used |
| Decoding.AsciiDecodesAsLatin1 | backend/app/utils/document_processor.py:44-48 | for ASCII bytes, UTF-8 and Latin-1 give the same text |
| Decoding.Latin1Fallback | backend/app/utils/document_processor.py:47-48 | a lone byte 0xE9 is invalid UTF-8 and decodes, through the fallback, as U+00E9 |
| PdfExtractor.ProcessPdf | backend/app/utils/pdf_extractor.py:5-37 | the page loop returns the one chunk per non-blank page that `PdfChunks` describes; an unreadable document gives no chunks |
| PdfExtractor.PageChunksStep | backend/app/utils/pdf_extractor.py:16-29 | one loop iteration appends a page's chunk when the page is not blank, and nothing otherwise |
| PdfExtractor.PageOfPageChunk | backend/app/utils/pdf_extractor.py:25 | a page chunk records its page number |
| PdfExtractor.PageChunksAtMostPages | backend/app/utils/pdf_extractor.py:16-29 | there are no more chunks than pages |
| PdfExtractor.PageChunksFromPages | backend/app/utils/pdf_extractor.py:16-29 | every chunk is the full text of a non-blank page, tagged with that page's 1-based number |
| PdfExtractor.PageChunksIncreasing | backend/app/utils/pdf_extractor.py:16-29 | page numbers strictly increase along the chunks |
| PdfExtractor.PageChunksPrefix | backend/app/utils/pdf_extractor.py:16-29 | the chunks of the first pages are a prefix of the chunks of all pages |
| PdfExtractor.PageChunksComplete | backend/app/utils/pdf_extractor.py:19-29 | every non-blank page has a chunk: it sits right after the chunks of the earlier pages |
| PdfExtractor.PageChunksSnoc | backend/app/utils/pdf_extractor.py:19-29 | a non-blank last page adds exactly its own chunk at the end |
| PdfExtractor.PageChunksSkip | backend/app/utils/pdf_extractor.py:19 | a blank last page adds nothing |
| PdfExtractor.ThreePagesTwoChunks | backend/app/utils/pdf_extractor.py:16-29 | pages (text, blank, text) give two chunks, numbered 1 and 3 |
| PdfExtractor.PdfChunksTagged | backend/app/utils/pdf_extractor.py:22-27 | every chunk names the file and has type ".pdf" |
| RagPdfExtractor.ProcessPdf | AIchatbot-RAG/backend/app/utils/pdf_extractor.py:5-25 | the second copy of the extractor returns the same chunks as the first, so every lemma about `PdfChunks` applies to it |
| DocxExtractor.ProcessDocx | backend/app/utils/docx_extractor.py:6-54 | the paragraph and table loops return `DocxChunks`: paragraph chunks first, then one table chunk per table with rows; an unreadable document gives no chunks |
| DocxExtractor.ParagraphLoop | backend/app/utils/docx_extractor.py:14-29 | the paragraph loop returns `ParagraphChunks` and leaves the heading in force after the last paragraph |
| DocxExtractor.TableLoop | backend/app/utils/docx_extractor.py:32-47 | the table loop returns `TableChunks` for the heading it is given |
| DocxExtractor.ParagraphStep | backend/app/utils/docx_extractor.py:16-29 | a heading paragraph changes the heading in force and adds no chunk; a non-blank body paragraph adds its stripped text under the heading in force |
| DocxExtractor.TableStep | backend/app/utils/docx_extractor.py:32-47 | a table with rows adds one "table" chunk; a table without rows adds nothing |
| DocxExtractor.TableLines | backend/app/utils/docx_extractor.py:34-36 | the row loop produces the stripped cells of each row, joined by " \| " |
| DocxExtractor.HeadingInForce | backend/app/utils/docx_extractor.py:14-18 | the section in force is the stripped text of the last heading |
| DocxExtractor.NoHeadingYet | backend/app/utils/docx_extractor.py:14 | with no heading, the section is the string "None" |
| DocxExtractor.ParagraphChunksPrefix | backend/app/utils/docx_extractor.py:16-29 | later paragraphs only append chunks |
| DocxExtractor.ParagraphChunkAt | backend/app/utils/docx_extractor.py:19-29 | a non-blank body paragraph has its chunk at the position that follows the chunks of the earlier paragraphs, under the heading in force there |
| DocxExtractor.ParagraphChunksSound | backend/app/utils/docx_extractor.py:19-29 | there are no more paragraph chunks than paragraphs, and every one has non-blank content, chunk type "text", the file name and type ".docx" |
| DocxExtractor.ParagraphChunksFromParagraphs | backend/app/utils/docx_extractor.py:16-29 | every paragraph chunk is the stripped text of a non-heading, non-blank paragraph, under the heading in force just before that paragraph |
| DocxExtractor.FromParagraphExtend | backend/app/utils/docx_extractor.py:16-29 | a chunk that comes from a paragraph of the first paragraphs comes from that paragraph of the whole document |
| DocxExtractor.TableChunksSound | backend/app/utils/docx_extractor.py:38-47 | every table chunk has chunk type "table" and the final heading as its section |
| DocxExtractor.ParagraphsBeforeTables | backend/app/utils/docx_extractor.py:16-47 | the chunk list is the paragraph chunks followed by the table chunks |
| DocxExtractor.TableTextLines | backend/app/utils/docx_extractor.py:40 | a table whose cells have no newline gives one line per row |
| DocxExtractor.BlankTableStillEmitted | backend/app/utils/docx_extractor.py:38 | a one-cell table whose cell is blank still gives a chunk with empty content |
| DocxExtractor.DocxChunksTagged | backend/app/utils/docx_extractor.py:23-25 | every chunk names the file and has type ".docx" |
| TextSplitter.Documents | backend/app/utils/text_splitter.py:14-25 | a file that is not Markdown is one document with empty metadata, while Markdown goes through the header splitter, which may raise |
| TextSplitter.ProcessText | backend/app/utils/text_splitter.py:7-55 | the method computes `TextChunks`: a splitter exception propagates; otherwise one chunk per split document, with its content and its normalised metadata |
| TextSplitter.NormalizeSpec | backend/app/utils/text_splitter.py:36-47 | file name and type default to the arguments; no "Header k" key survives; "section" is the deepest header present, or the document's own value when no header is present; all other keys are kept |
| TextSplitter.TextChunksNamed | backend/app/utils/text_splitter.py:35-52 | when `process_text` returns, every chunk has a file name and type, and no header keys |
| TextSplitter.TextChunksRaised | backend/app/utils/text_splitter.py:14-33 | `process_text` raises exactly when the header splitter (for Markdown) or the size splitter raises, with that exception; otherwise it returns the normalised chunks of the split documents |
| TextSplitter.ChunkedNamed | backend/app/utils/text_splitter.py:35-52 | every normalised chunk has a file name and type, and no header keys |
| DocumentProcessor.Routed | backend/app/utils/document_processor.py:16-42 | `ValueError("Unsupported file type")` exactly when the lowercased suffix is not allowed; every other failure is "Failed to process name"; an allowed type without a processor fails; otherwise the file goes to its family's processor |
| DocumentProcessor.Dispatch | backend/app/utils/document_processor.py:19-42 | any failure of a processor or of the text splitters, or a type without a processor, becomes `ProcessingFailed(file_name)` |
| DocumentProcessor.FileTypeSpec | backend/app/utils/document_processor.py:13-14 | the file type is "." followed by the lowercased text after the last dot, without any further dot; a name without a dot gives "." + the whole lowercased name |
| DocumentProcessor.UpperCaseExtension | backend/app/utils/document_processor.py:13-14 | "Report.PDF" has type ".pdf" |
| DocumentProcessor.DocumentChunksNamed | backend/app/utils/document_processor.py:20-24 | chunks from the PDF or DOCX branch are tagged with the file name |
| DocumentProcessor.TextChunksNamed | backend/app/utils/document_processor.py:26-28 | the text branch fails with "Failed to process" exactly when a splitter raises; otherwise it returns the decoded text's chunks, named after the file and without header keys |
| RagStore.MetadataInserted | backend/app/services/rag.py:55-62 | `insert_one` succeeds exactly when there is no fault and the `_id` is new; it adds only that record |
| RagStore.ChunksInserted | backend/app/services/rag.py:65 | `insert_many` succeeds exactly when there is no fault and the ids are new and distinct; it appends the records in order |
| RagStore.WithoutFile | backend/app/services/rag.py:238 | `delete_many` never adds records |
| RagStore.WithoutFileMembers | backend/app/services/rag.py:238 | a record survives `delete_many({"file_id": f})` exactly when it belongs to another file |
| RagStore.WithoutFileOthers | backend/app/services/rag.py:238 | the chunks of other files, in order, are untouched |
| RagStore.WithoutFileAbsent | backend/app/services/rag.py:238 | deleting a file with no chunks changes nothing |
| RagStore.DeleteIdempotent | backend/app/services/rag.py:227-241 | deleting a file twice is the same as deleting it once |
| RagStore.DeleteSpec | backend/app/services/rag.py:234-238 | after delete, the metadata keys lose exactly the file, other records are unchanged, and no chunk of the file remains |
| RagStore.Database.InsertOne | backend/app/services/rag.py:55-62 | the collection changes as `MetadataInserted` says; on failure it is unchanged and the error is returned |
| RagStore.Database.InsertMany | backend/app/services/rag.py:65 | the collection changes as `ChunksInserted` says; on failure it is unchanged and the error is returned |
| RagStore.Database.DeleteFile | backend/app/services/rag.py:227-241 | the new state and the raised message are those of `DeletedWith` |
| RagStore.DeletedWith | backend/app/services/rag.py:234-238 | `delete_file` fails exactly when one of its two deletes raises, and without a fault it deletes as `Deleted` |
| RagStore.DeleteFaults | backend/app/services/rag.py:234-238 | a failed delete raises the first fault; a raised `delete_one` changes nothing, a raised `delete_many` leaves the file without metadata but with all its chunks; other files are untouched |
| RagStore.DeleteRetry | backend/app/services/rag.py:227-241 | deleting again without faults after a failed delete gives the same stores as one delete that did not fail |
| StatusStore.Updated | backend/app/services/rag.py:29 | `dict.update`: the keys are the union, the changes take precedence, and other values are kept |
| StatusStore.UpdatedIdempotent | backend/app/services/rag.py:68 | applying the same update twice is the same as applying it once |
| StatusStore.StatusDb.Update | backend/app/services/rag.py:29 | `status_dict[file_id].update(...)` updates the entry when it exists; when it is missing (a `KeyError`), the table is unchanged |
| RagIngest.Contents | backend/app/services/rag.py:38 | one content string per chunk |
| RagIngest.RecordsUpTo | backend/app/services/rag.py:43-52 | the first n chunk records |
| RagIngest.ChunkRecords | backend/app/services/rag.py:44-52 | building records fails with "list index out of range" exactly when there are fewer embeddings than chunks |
| RagIngest.MetadataRecord | backend/app/services/rag.py:55-62 | the metadata record carries the upload's id, name, session and sharing flag, the first chunk's file type (or "unknown"), and the chunk count |
| RagIngest.Prepared | backend/app/services/rag.py:26-62 | a prepared upload has the file's id and one chunk record per chunk, with at least one chunk |
| RagIngest.RecordsStep | backend/app/services/rag.py:44-52 | one loop iteration appends the record for chunk i |
| RagIngest.BuildRecords | backend/app/services/rag.py:43-52 | the record loop computes `ChunkRecords` |
| RagIngest.Prepare | backend/app/services/rag.py:26-62 | the steps from processing to the metadata record compute `Prepared` |
| RagIngest.Write | backend/app/services/rag.py:55-73 | the two inserts change the stores as `Written` says, and the status change is completed with the chunk count or failed with the first error |
| RagIngest.Ingest | backend/app/services/rag.py:12-73 | the stores become those of `Ingested`; a missing status entry escapes and leaves the table unchanged; otherwise the entry is updated with the outcome |
| RagIngest.RecordIdsDistinct | backend/app/services/rag.py:46 | the ids `{file_id}_chunk_{i}` are distinct for distinct i |
| RagIngest.RecordsUpToSpec | backend/app/services/rag.py:44-52 | record k has id `{file_id}_chunk_{k}` and the chunk's content, metadata and embedding, and ids are pairwise distinct |
| RagIngest.PreparedSpec | backend/app/services/rag.py:37-62 | too few embeddings gives "list index out of range"; otherwise the prepared upload is exactly the metadata record and the chunk records |
| RagIngest.EmptyExtractionWritesNothing | backend/app/services/rag.py:27-30 | no chunks: the status becomes failed with "No content extracted" and the database is untouched |
| RagIngest.MissingEmbedderWritesNothing | backend/app/services/rag.py:33-35 | no embedder: failed with "Embedding model is not configured" and nothing written |
| RagIngest.ProcessErrorWritesNothing | backend/app/services/rag.py:71-73 | a processing error gives failed with the error's message, and nothing written |
| RagIngest.WrittenOutcome | backend/app/services/rag.py:55-73 | the status is either completed with the chunk count (both inserts done) or failed; on failure the chunk collection is unchanged, and the metadata collection either is unchanged or gained only this file's record |
| RagRanking.Insert | backend/app/services/rag.py:145 | insertion adds one element |
| RagRanking.SortDesc | backend/app/services/rag.py:145 | sorting keeps the length |
| RagRanking.Top | backend/app/services/rag.py:145 | `[:5]` keeps min(n, 5) results |
| RagRanking.InsertMultiset | backend/app/services/rag.py:145 | insertion adds exactly the element |
| RagRanking.InsertDescending | backend/app/services/rag.py:145 | insertion keeps the order descending |
| RagRanking.InsertBounded | backend/app/services/rag.py:145 | insertion under a score bound keeps every hit under it |
| RagRanking.WithScoreCons | backend/app/services/rag.py:145 | the hits with a given score of a list are those of its head, then of its tail |
| RagRanking.BelowNone | backend/app/services/rag.py:145 | a descending list whose first hit scores below v has no hit of score v |
| RagRanking.WithScoreAppend | backend/app/services/rag.py:145 | the hits with a given score distribute over concatenation |
| RagRanking.WithScoreNone | backend/app/services/rag.py:145 | no hit has the score, so none is selected |
| RagRanking.InsertStable | backend/app/services/rag.py:145 | an inserted hit goes after the hits with an equal score |
| RagRanking.SortDescending | backend/app/services/rag.py:145 | `sorted(..., reverse=True)` is descending by score |
| RagRanking.SortPermutation | backend/app/services/rag.py:145 | sorting is a permutation |
| RagRanking.SortStable | backend/app/services/rag.py:145 | sorting is stable: equal scores keep their input order |
| RagRanking.TopSpec | backend/app/services/rag.py:145 | the top results are a prefix of the sorted list, descending, and drawn from the input |
| RagRanking.TopHighest | backend/app/services/rag.py:145 | no result left out scores higher than a kept one |
| RagRetrieval.BuildFilter | backend/app/services/rag.py:112-123 | the session arm is present exactly for a non-empty session id, and the file-type arm exactly for a non-empty list |
| RagRetrieval.Kept | backend/app/services/rag.py:122-133 | filtering never adds results |
| RagRetrieval.Recalled | backend/app/services/rag.py:137 | at most 20 candidates reach the filter |
| RagRetrieval.Snippet | backend/app/services/rag.py:153 | `content[:150]` is a prefix of at most 150 characters, and is the whole content when that is short enough |
| RagRetrieval.DropNone | backend/app/services/rag.py:161 | exactly the keys whose value is not `None` remain, with their values |
| RagRetrieval.FormatSourceSpec | backend/app/services/rag.py:150-161 | a source has "file" (or "Unknown"), the snippet followed by "...", and the score; "page", "function" and "section" are present exactly when the metadata has them |
| RagRetrieval.Each | backend/app/services/rag.py:148-162 | a mapped list has one element per input |
| RagRetrieval.EachSpec | backend/app/services/rag.py:148-162 | element i of the mapped list is the function applied to input i |
| RagRetrieval.Formatted | backend/app/services/rag.py:148-162 | one source per top result |
| RagRetrieval.FormattedSpec | backend/app/services/rag.py:148-162 | source i is the formatted top result i |
| RagRetrieval.FormatSources | backend/app/services/rag.py:148-162 | the loop computes `Formatted`: each top result formatted, in rank order |
| RagRetrieval.Retrieval | backend/app/services/rag.py:77-164 | at most five results, with one source per result |
| RagRetrieval.Retrieve | backend/app/services/rag.py:77-164 | the retrieval steps compute `Retrieval`: an embedding failure propagates, and a search failure returns two empty lists |
| RagRetrieval.KeptSound | backend/app/services/rag.py:112-133 | every result is a candidate that matches the filter, projected to content, metadata and score |
| RagRetrieval.KeptComplete | backend/app/services/rag.py:112-133 | every matching candidate is kept |
| RagRetrieval.OtherSessionInvisible | backend/app/services/rag.py:113-118 | with a session filter, for any mix of candidates, every returned hit is the projection of a chunk record of that session, so no chunk of another session comes back, shared or not |
| RagQuery.ContextStep | backend/app/services/rag.py:187-190 | each iteration appends the header, the content and the rule for result i |
| RagQuery.BuildContext | backend/app/services/rag.py:186-190 | the loop builds `Context(top)` |
| RagQuery.QueryRagPipeline | backend/app/services/rag.py:168-222 | the pipeline computes `Queried` |
| RagQuery.ContextNumbered | backend/app/services/rag.py:187-190 | the block for result k, numbered k+1, follows the blocks of the first k results inside the context |
| RagQuery.NothingFound | backend/app/services/rag.py:178-179 | an empty search, or a failed one, gives the "couldn't find" answer and no sources |
| RagQuery.NoGenerator | backend/app/services/rag.py:181-183 | no model gives "RAG model is not configured." together with the sources |
| UploadRouter.Extensions | AIchatbot-RAG/backend/app/routers/rag_router.py:28 | the allowed types with their leading dots stripped, in order |
| UploadRouter.InitialStatus | AIchatbot-RAG/backend/app/routers/rag_router.py:35-40 | the initial entry has exactly the file id and name, "processing" and 0 chunks |
| UploadRouter.UploadFile | AIchatbot-RAG/backend/app/routers/rag_router.py:17-53 | 400 "File type not allowed" exactly when the extension is not accepted, with the table unchanged; otherwise a fresh id gets its initial entry and the response is processing |
| UploadRouter.UploadStatus | AIchatbot-RAG/backend/app/routers/rag_router.py:56-64 | 404 "File ID not found" exactly when the entry is missing or empty; otherwise the entry |
| UploadRouter.DeleteFileFromRag | AIchatbot-RAG/backend/app/routers/rag_router.py:83-93 | the stores change as `DeletedWith` says; a raised delete is returned as the error with the status table unchanged; otherwise the status entry is removed and the response is "deleted" |
| UploadRouter.AcceptedIsVisible | AIchatbot-RAG/backend/app/routers/rag_router.py:56-64 | in the state an accepted upload leaves, the status endpoint returns the initial entry, reading "processing" |
| UploadRouter.AcceptsAgreesWithProcessor | AIchatbot-RAG/backend/app/routers/rag_router.py:28 | when every allowed type is "." followed by a name without a leading dot, the router accepts exactly the files whose type the processor allows |
| UploadRouter.DottedExtensions | AIchatbot-RAG/backend/app/routers/rag_router.py:28 | when every allowed type is "." followed by a name without a leading dot, an extension is in the stripped list exactly when "." + extension is allowed |
| UploadRouter.UndottedTypeAccepted | AIchatbot-RAG/backend/app/routers/rag_router.py:28 | with allowed type "pdf", the router accepts "a.pdf" |
| UploadRouter.UndottedTypeRejected | backend/app/utils/document_processor.py:13-17 | with allowed type "pdf", the processor's type ".pdf" for "a.pdf" is not allowed |
| SessionsRouter.Stamped | backend/app/routers/sessions_router.py:100-102 | a missing or empty timestamp becomes now; otherwise the message is unchanged |
| SessionsRouter.SessionsDb.AddMessage | backend/app/routers/sessions_router.py:88-111 | the session is created when missing, the stamped message is appended and `updated_at` is now; the new id goes last in listing order |
| SessionsRouter.SessionsDb.Messages | backend/app/routers/sessions_router.py:113-125 | the stored session, or an empty session with the requested id |
| SessionsRouter.SessionsDb.ClearMessages | backend/app/routers/sessions_router.py:127-139 | an existing session loses its messages and is touched; a missing one is not created |
| SessionsRouter.SessionsDb.ClearSession | backend/app/routers/sessions_router.py:141-157 | an existing session is emptied and touched; a missing one is created empty |
| SessionsRouter.SessionsDb.ListSessions | backend/app/routers/sessions_router.py:159-171 | one summary per session with its message count and timestamps; every session is listed once |
| SessionsRouter.Summaries | backend/app/routers/sessions_router.py:163-170 | one summary per id, in order |
| SessionsRouter.DistinctCount | backend/app/routers/sessions_router.py:163-170 | a duplicate-free order covering the table has one entry per session |
| SessionsRouter.AddMessageGrows | backend/app/routers/sessions_router.py:104-105 | adding a message raises the count by one and keeps the creation time |
| Memory.ChatHistory.AddMessage | backend/app/memory.py:20-25 | a history handed out by `get_session_history` grows by exactly the appended message |
| Memory.ChatHistory.Clear | backend/app/memory.py:37 | `clear()` empties the history |
| Memory.MemoryStore.StoreErrorContext | backend/app/memory.py:9-11 | the context is stored under the session, replacing any previous one |
| Memory.MemoryStore.PopErrorContext | backend/app/memory.py:13-17 | returns the stored context, or `None`, and removes it |
| Memory.MemoryStore.GetSessionHistory | backend/app/memory.py:20-25 | an existing history is returned as it is; otherwise a new empty history is created and stored |
| Memory.MemoryStore.ActiveSessions | backend/app/memory.py:27-32 | one entry per session, holding its message count |
| Memory.MemoryStore.ClearSessionHistory | backend/app/memory.py:34-38 | the session's history is emptied and every other history is untouched |
| Memory.PopTwice | backend/app/memory.py:13-17 | a second pop returns `None` |
| Memory.HistoryTwice | backend/app/memory.py:20-25 | asking twice returns the same history object |
| Mess.BotResponse | backend/app/mess.py:4-21 | the reply is never empty |
| Mess.Reply | backend/app/mess.py:10-21 | a non-blank message never gets the empty-prompt reply |
| Mess.AnyIn | backend/app/mess.py:10 | `any(k in msg ...)` holds exactly when some keyword occurs |
| Mess.FirstMatchSpec | backend/app/mess.py:10-19 | the first matching rule's reply is chosen, and there is none exactly when no rule matches |
| Mess.FirstMatchCons | backend/app/mess.py:10-19 | the first rule that matches wins over the rest |
| Mess.OneKeyword | backend/app/mess.py:12-18 | a one-keyword rule is the plain `in` test |
| Mess.TwoKeywords | backend/app/mess.py:16 | `"bye" in msg or "goodbye" in msg` |
| Mess.ThreeKeywords | backend/app/mess.py:10 | `any` over the three greetings |
| Mess.ReplyMatchesRuleTable | backend/app/mess.py:10-21 | the if-chain equals the rule table's first match, falling back to the echo |
| Mess.MatchesRuleTable | backend/app/mess.py:4-21 | the bot answers by the rule table on the stripped, lowercased message |
| Mess.PromptIffBlank | backend/app/mess.py:5-6 | the empty-prompt reply comes exactly for a blank message |
| Mess.ThisIsAGreeting | backend/app/mess.py:10-11 | any message containing "this" gets the greeting, because "hi" is matched as a substring |
| Mess.Fallback | backend/app/mess.py:20-21 | a non-blank message matching no rule is echoed in full, without stripping |

## Left out

- The parsing libraries (PyMuPDF, python-docx, the langchain Markdown and recursive splitters) and the tabular and code processors (`data_extractor`, `code_splitter`) are function parameters. The model states what the core does around them, not how they parse.
- The splitter's chunk size and overlap settings are inside the abstract size splitter; a splitter that cannot be built from them is one that raises.
- The embedding model, the Atlas vector search with its index and similarity scores, and the generator chain are function parameters. Scores are integers rather than floats.
- `async` ingestion and FastAPI background tasks run sequentially. Interleaving of concurrent requests is not modelled.
- `uuid.uuid4()` and `datetime.now()` are parameters. One request takes one `now`, whereas the source reads the clock up to three times.
- Logging is left out.
- Text.LowerChar: lowercases ASCII and the Latin-1 Supplement only, not the rest of Unicode.
- RagStore.ChunksInserted: `insert_many` is all-or-nothing. An ordered insert that hits a duplicate id keeps the records before it. Ingestion's own ids never clash within one upload.
- RagStore.MetadataInserted: the driver's duplicate-key message is abbreviated to its `E11000 duplicate key error` prefix. Other driver failures are an injected fault string.
- `settings.ALLOWED_FILE_TYPES` is a parameter.
- `$in` on a `file_type` that is itself an array is not modelled. Chunk metadata always stores a string there.
- RagRetrieval.Recalled: `numCandidates` (100) is inside the abstract search. The model keeps only the limit of 20.
- The `is_shared` arm of the session filter is modelled as never matching, because chunk records carry no such field.
- Memory.ChatHistory: the langchain `ChatMessageHistory` is modelled as a list of messages that `add_message` appends to and `clear` empties.
- The query router endpoint (`rag_router.py:67-80`) only forwards to `QueryRagPipeline` and is not modelled separately.
- The commented-out MongoDB version of the sessions router (`sessions_router.py:1-65`) is not modelled.
