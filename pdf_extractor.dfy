/** `process_pdf`: one chunk per page with non-blank text. The PDF library's
    output is an input: the page texts in order, or `None` when opening or
    reading the document raised. */
module PdfExtractor {
  import opened Common
  import opened Text
  import opened Chunks

  /** The chunk built for a page with 1-based number `pageNumber`. */
  function PageChunk(text: string, pageNumber: int, fileName: string): Chunk {
    Chunk(text, map["file_name" := Str(fileName), "file_type" := Str(".pdf"),
                    "page_number" := Int(pageNumber), "chunk_type" := Str("text")])
  }

  /** The chunks the page loop has produced after the given pages. */
  function PageChunks(pages: seq<string>, fileName: string): seq<Chunk> {
    if pages == [] then []
    else
      var last := pages[|pages| - 1];
      PageChunks(pages[..|pages| - 1], fileName)
      + (if Strip(last) != [] then [PageChunk(last, |pages|, fileName)] else [])
  }

  /** What `process_pdf` returns; any exception gives the empty list. */
  function PdfChunks(doc: Option<seq<string>>, fileName: string): seq<Chunk> {
    match doc
    case None => []
    case Some(pages) => PageChunks(pages, fileName)
  }

  /** The page number recorded in a chunk's metadata (0 when there is none). */
  function PageOf(c: Chunk): int {
    if "page_number" in c.metadata && c.metadata["page_number"].Int? then c.metadata["page_number"].i else 0
  }

  /** One iteration of the page loop: page `i` adds its chunk when it has text. */
  lemma PageChunksStep(pages: seq<string>, i: nat, fileName: string)
    requires i < |pages|
    ensures PageChunks(pages[..i + 1], fileName) == PageChunks(pages[..i], fileName)
      + (if Strip(pages[i]) != [] then [PageChunk(pages[i], i + 1, fileName)] else [])
  {
    assert pages[..i + 1][..i] == pages[..i];
  }

  method ProcessPdf(doc: Option<seq<string>>, fileName: string) returns (chunks: seq<Chunk>)
    ensures chunks == PdfChunks(doc, fileName)
  {
    chunks := [];
    if doc.None? {
      return;
    }
    var pages := doc.value;
    var pageNum := 0;
    while pageNum < |pages|
      invariant 0 <= pageNum <= |pages|
      invariant chunks == PageChunks(pages[..pageNum], fileName)
    {
      PageChunksStep(pages, pageNum, fileName);
      var text := pages[pageNum];
      if Strip(text) != [] {
        chunks := chunks + [PageChunk(text, pageNum + 1, fileName)];
      }
      pageNum := pageNum + 1;
    }
    assert pages[..pageNum] == pages;
  }

  /** A chunk is the chunk of one of the given pages, and that page is not blank. */
  predicate FromPage(c: Chunk, pages: seq<string>, fileName: string) {
    1 <= PageOf(c) <= |pages| && c == PageChunk(pages[PageOf(c) - 1], PageOf(c), fileName)
    && Strip(c.content) != []
  }

  lemma PageOfPageChunk(text: string, n: int, fileName: string)
    ensures PageOf(PageChunk(text, n, fileName)) == n
  {
  }

  /** There are at most as many chunks as pages. */
  lemma {:induction false} PageChunksAtMostPages(pages: seq<string>, fileName: string)
    ensures |PageChunks(pages, fileName)| <= |pages|
  {
    if pages != [] {
      PageChunksAtMostPages(pages[..|pages| - 1], fileName);
    }
  }

  /** Every chunk is the unstripped text of a non-blank page, numbered by the
      page's index plus one, with metadata naming the file, ".pdf" and "text". */
  lemma {:induction false} PageChunksFromPages(pages: seq<string>, fileName: string)
    ensures forall k :: 0 <= k < |PageChunks(pages, fileName)| ==> FromPage(PageChunks(pages, fileName)[k], pages, fileName)
  {
    if pages != [] {
      var init := pages[..|pages| - 1];
      var last := pages[|pages| - 1];
      PageChunksFromPages(init, fileName);
      PageOfPageChunk(last, |pages|, fileName);
      forall k | 0 <= k < |PageChunks(pages, fileName)|
        ensures FromPage(PageChunks(pages, fileName)[k], pages, fileName)
      {
        if k < |PageChunks(init, fileName)| {
          var c := PageChunks(init, fileName)[k];
          assert PageChunks(pages, fileName)[k] == c;
          assert FromPage(c, init, fileName);
          assert init[PageOf(c) - 1] == pages[PageOf(c) - 1];
        }
      }
    }
  }

  /** Page numbers strictly increase along the chunk list. */
  lemma {:induction false} PageChunksIncreasing(pages: seq<string>, fileName: string)
    ensures forall k, l :: 0 <= k < l < |PageChunks(pages, fileName)| ==>
      PageOf(PageChunks(pages, fileName)[k]) < PageOf(PageChunks(pages, fileName)[l])
  {
    if pages != [] {
      var init := pages[..|pages| - 1];
      var last := pages[|pages| - 1];
      PageChunksIncreasing(init, fileName);
      PageChunksFromPages(init, fileName);
      PageOfPageChunk(last, |pages|, fileName);
      var cs := PageChunks(pages, fileName);
      var old_ := PageChunks(init, fileName);
      forall k, l | 0 <= k < l < |cs| ensures PageOf(cs[k]) < PageOf(cs[l]) {
        assert cs[k] == old_[k];
        assert FromPage(old_[k], init, fileName);
        if l < |old_| { assert cs[l] == old_[l]; }
      }
    }
  }

  /** Later pages only append chunks. */
  lemma {:induction false} PageChunksPrefix(pages: seq<string>, i: nat, fileName: string)
    requires i <= |pages|
    ensures PageChunks(pages[..i], fileName) <= PageChunks(pages, fileName)
    decreases |pages|
  {
    if i == |pages| {
      assert pages[..i] == pages;
    } else {
      var n := |pages| - 1;
      PageChunksPrefix(pages[..n], i, fileName);
      assert pages[..n][..i] == pages[..i];
    }
  }

  /** Every page with non-blank text yields its chunk, right after the chunks
      of the pages before it. */
  lemma PageChunksComplete(pages: seq<string>, fileName: string, p: nat)
    requires p < |pages| && Strip(pages[p]) != []
    ensures var k := |PageChunks(pages[..p], fileName)|;
      k < |PageChunks(pages, fileName)| && PageChunks(pages, fileName)[k] == PageChunk(pages[p], p + 1, fileName)
  {
    var before := PageChunks(pages[..p], fileName);
    var c := PageChunk(pages[p], p + 1, fileName);
    PageChunksStep(pages, p, fileName);
    PageChunksPrefix(pages, p + 1, fileName);
    assert (before + [c])[|before|] == c;
  }

  /** The loop's step for a non-blank last page. */
  lemma PageChunksSnoc(pages: seq<string>, fileName: string)
    requires pages != [] && Strip(pages[|pages| - 1]) != []
    ensures PageChunks(pages, fileName)
         == PageChunks(pages[..|pages| - 1], fileName) + [PageChunk(pages[|pages| - 1], |pages|, fileName)]
  {
  }

  /** The loop's step for a blank last page. */
  lemma PageChunksSkip(pages: seq<string>, fileName: string)
    requires pages != [] && Strip(pages[|pages| - 1]) == []
    ensures PageChunks(pages, fileName) == PageChunks(pages[..|pages| - 1], fileName)
  {
  }

  /** A three-page document with text on pages 1 and 3 only gives exactly
      two chunks, numbered 1 and 3. */
  lemma ThreePagesTwoChunks(p1: string, p2: string, p3: string, fileName: string)
    requires !IsBlank(p1) && IsBlank(p2) && !IsBlank(p3)
    ensures PdfChunks(Some([p1, p2, p3]), fileName)
         == [PageChunk(p1, 1, fileName), PageChunk(p3, 3, fileName)]
  {
    StripEmptyIffBlank(p1);
    StripEmptyIffBlank(p2);
    StripEmptyIffBlank(p3);
    var one, two, three := [p1], [p1, p2], [p1, p2, p3];
    assert one[..0] == [];
    PageChunksSnoc(one, fileName);
    assert PageChunks(one, fileName) == [PageChunk(p1, 1, fileName)];
    assert two[..1] == one;
    PageChunksSkip(two, fileName);
    assert three[..2] == two;
    PageChunksSnoc(three, fileName);
  }

  /** Every chunk of a PDF names its file and the type ".pdf". */
  lemma PdfChunksTagged(doc: Option<seq<string>>, fileName: string)
    ensures forall k :: 0 <= k < |PdfChunks(doc, fileName)| ==>
      Tagged(PdfChunks(doc, fileName)[k], "file_name", Str(fileName)) &&
      Tagged(PdfChunks(doc, fileName)[k], "file_type", Str(".pdf"))
  {
    if doc.Some? {
      PageChunksFromPages(doc.value, fileName);
    }
  }
}
