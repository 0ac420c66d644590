/** The second copy of `process_pdf` (under AIchatbot-RAG/): the same page loop. */
module RagPdfExtractor {
  import opened Common
  import opened Text
  import opened Chunks
  import PdfExtractor

  /** Behaves exactly as the first copy: one chunk per non-blank page,
      numbered from 1, and `[]` when the library raised. */
  method ProcessPdf(doc: Option<seq<string>>, fileName: string) returns (chunks: seq<Chunk>)
    ensures chunks == PdfExtractor.PdfChunks(doc, fileName)
  {
    chunks := [];
    if doc.None? {
      return;
    }
    var pages := doc.value;
    for pageNum := 0 to |pages|
      invariant chunks == PdfExtractor.PageChunks(pages[..pageNum], fileName)
    {
      PdfExtractor.PageChunksStep(pages, pageNum, fileName);
      var text := pages[pageNum];
      if Strip(text) != [] {
        chunks := chunks + [PdfExtractor.PageChunk(text, pageNum + 1, fileName)];
      }
    }
    assert pages[..|pages|] == pages;
  }
}
