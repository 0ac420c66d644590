/** `process_docx`: paragraphs under a running heading, then one chunk per
    table. The python-docx parse is an input: the paragraphs (style name and
    text) and the tables (rows of cell texts) in document order, or `None`
    when the library raised. */
module DocxExtractor {
  import opened Common
  import opened Text
  import opened Chunks

  datatype Paragraph = Paragraph(style: string, text: string)

  /** A table is its rows; a row is its cells' texts. */
  type Table = seq<seq<string>>

  datatype DocxDoc = DocxDoc(paragraphs: seq<Paragraph>, tables: seq<Table>)

  /** `para.style.name.startswith('Heading')`. */
  predicate IsHeading(p: Paragraph) {
    StartsWith(p.style, "Heading")
  }

  /** A heading paragraph emits nothing; another emits a chunk when its text is not blank. */
  predicate Emits(p: Paragraph) {
    !IsHeading(p) && Strip(p.text) != []
  }

  function DocxChunk(content: string, section: string, chunkType: string, fileName: string): Chunk {
    Chunk(content, map["file_name" := Str(fileName), "file_type" := Str(".docx"),
                       "section" := Str(section), "chunk_type" := Str(chunkType)])
  }

  /** `current_heading` after the given paragraphs, starting from "None". */
  function HeadingAfter(ps: seq<Paragraph>): string {
    if ps == [] then "None"
    else if IsHeading(ps[|ps| - 1]) then Strip(ps[|ps| - 1].text)
    else HeadingAfter(ps[..|ps| - 1])
  }

  /** The chunks the paragraph loop has produced after the given paragraphs. */
  function ParagraphChunks(ps: seq<Paragraph>, fileName: string): seq<Chunk> {
    if ps == [] then []
    else
      var init, last := ps[..|ps| - 1], ps[|ps| - 1];
      ParagraphChunks(init, fileName)
      + (if Emits(last) then [DocxChunk(Strip(last.text), HeadingAfter(init), "text", fileName)] else [])
  }

  /** `" | ".join(cell.text.strip() for cell in row.cells)`. */
  function RowText(row: seq<string>): string {
    Join(" | ", seq(|row|, k requires 0 <= k < |row| => Strip(row[k])))
  }

  /** One line per row. */
  function RowTexts(rows: Table): seq<string> {
    seq(|rows|, k requires 0 <= k < |rows| => RowText(rows[k]))
  }

  /** The content of a table chunk: its rows joined by newlines. */
  function TableText(rows: Table): string {
    Join("\n", RowTexts(rows))
  }

  /** The chunks the table loop has produced after the given tables. */
  function TableChunks(ts: seq<Table>, section: string, fileName: string): seq<Chunk> {
    if ts == [] then []
    else
      var last := ts[|ts| - 1];
      TableChunks(ts[..|ts| - 1], section, fileName)
      + (if last != [] then [DocxChunk(TableText(last), section, "table", fileName)] else [])
  }

  /** What `process_docx` returns: paragraph chunks, then table chunks that
      carry the last heading seen; `[]` when the library raised. */
  function DocxChunks(doc: Option<DocxDoc>, fileName: string): seq<Chunk> {
    match doc
    case None => []
    case Some(d) =>
      ParagraphChunks(d.paragraphs, fileName) + TableChunks(d.tables, HeadingAfter(d.paragraphs), fileName)
  }

  lemma ParagraphStep(ps: seq<Paragraph>, i: nat, fileName: string)
    requires i < |ps|
    ensures HeadingAfter(ps[..i + 1]) == if IsHeading(ps[i]) then Strip(ps[i].text) else HeadingAfter(ps[..i])
    ensures ParagraphChunks(ps[..i + 1], fileName) == ParagraphChunks(ps[..i], fileName)
      + (if Emits(ps[i]) then [DocxChunk(Strip(ps[i].text), HeadingAfter(ps[..i]), "text", fileName)] else [])
  {
    assert ps[..i + 1][..i] == ps[..i];
  }

  lemma TableStep(ts: seq<Table>, i: nat, section: string, fileName: string)
    requires i < |ts|
    ensures TableChunks(ts[..i + 1], section, fileName) == TableChunks(ts[..i], section, fileName)
      + (if ts[i] != [] then [DocxChunk(TableText(ts[i]), section, "table", fileName)] else [])
  {
    assert ts[..i + 1][..i] == ts[..i];
  }

  /** The row loop of one table: one " | "-joined line per row. */
  method TableLines(rows: Table) returns (tableContent: seq<string>)
    ensures tableContent == RowTexts(rows)
  {
    tableContent := [];
    for r := 0 to |rows|
      invariant tableContent == RowTexts(rows[..r])
    {
      var rowText := seq(|rows[r]|, k requires 0 <= k < |rows[r]| => Strip(rows[r][k]));
      tableContent := tableContent + [Join(" | ", rowText)];
    }
    assert rows[..|rows|] == rows;
  }

  /** The paragraph loop: a heading paragraph sets the running heading, any
      other non-blank paragraph becomes a text chunk under it. */
  method ParagraphLoop(ps: seq<Paragraph>, fileName: string) returns (chunks: seq<Chunk>, currentHeading: string)
    ensures chunks == ParagraphChunks(ps, fileName)
    ensures currentHeading == HeadingAfter(ps)
  {
    chunks := [];
    currentHeading := "None";
    for i := 0 to |ps|
      invariant currentHeading == HeadingAfter(ps[..i])
      invariant chunks == ParagraphChunks(ps[..i], fileName)
    {
      ParagraphStep(ps, i, fileName);
      var para := ps[i];
      if IsHeading(para) {
        currentHeading := Strip(para.text);
      } else if Strip(para.text) != [] {
        chunks := chunks + [DocxChunk(Strip(para.text), currentHeading, "text", fileName)];
      }
    }
    assert ps[..|ps|] == ps;
  }

  /** The table loop: one chunk per table with at least one row, tagged with the given heading. */
  method TableLoop(ts: seq<Table>, section: string, fileName: string) returns (chunks: seq<Chunk>)
    ensures chunks == TableChunks(ts, section, fileName)
  {
    chunks := [];
    for t := 0 to |ts|
      invariant chunks == TableChunks(ts[..t], section, fileName)
    {
      TableStep(ts, t, section, fileName);
      var tableContent := TableLines(ts[t]);
      if tableContent != [] {
        chunks := chunks + [DocxChunk(Join("\n", tableContent), section, "table", fileName)];
      }
    }
    assert ts[..|ts|] == ts;
  }

  method ProcessDocx(doc: Option<DocxDoc>, fileName: string) returns (chunks: seq<Chunk>)
    ensures chunks == DocxChunks(doc, fileName)
  {
    chunks := [];
    if doc.None? {
      return;
    }
    var paragraphChunks, currentHeading := ParagraphLoop(doc.value.paragraphs, fileName);
    var tableChunks := TableLoop(doc.value.tables, currentHeading, fileName);
    chunks := paragraphChunks + tableChunks;
  }

  /** The running heading is "None" until the first heading paragraph and
      afterwards the stripped text of the most recent one. */
  lemma {:induction false} HeadingInForce(ps: seq<Paragraph>, j: nat)
    requires j < |ps| && IsHeading(ps[j])
    requires forall k :: j < k < |ps| ==> !IsHeading(ps[k])
    ensures HeadingAfter(ps) == Strip(ps[j].text)
  {
    if j < |ps| - 1 {
      var init := ps[..|ps| - 1];
      assert init[j] == ps[j];
      HeadingInForce(init, j);
    }
  }

  lemma {:induction false} NoHeadingYet(ps: seq<Paragraph>)
    requires forall k :: 0 <= k < |ps| ==> !IsHeading(ps[k])
    ensures HeadingAfter(ps) == "None"
  {
    if ps != [] {
      NoHeadingYet(ps[..|ps| - 1]);
    }
  }

  /** The paragraph chunks of a prefix of the paragraphs are a prefix of the
      paragraph chunks: later paragraphs only append. */
  lemma {:induction false} ParagraphChunksPrefix(ps: seq<Paragraph>, i: nat, fileName: string)
    requires i <= |ps|
    ensures ParagraphChunks(ps[..i], fileName) <= ParagraphChunks(ps, fileName)
    decreases |ps| - i
  {
    if i < |ps| {
      ParagraphStep(ps, i, fileName);
      ParagraphChunksPrefix(ps, i + 1, fileName);
    } else {
      assert ps[..i] == ps;
    }
  }

  /** Paragraph `i`, when it emits, yields the chunk right after those of the
      paragraphs before it: its stripped text under the heading then in force. */
  lemma ParagraphChunkAt(ps: seq<Paragraph>, i: nat, fileName: string)
    requires i < |ps| && Emits(ps[i])
    ensures |ParagraphChunks(ps[..i], fileName)| < |ParagraphChunks(ps, fileName)|
    ensures ParagraphChunks(ps, fileName)[|ParagraphChunks(ps[..i], fileName)|]
         == DocxChunk(Strip(ps[i].text), HeadingAfter(ps[..i]), "text", fileName)
  {
    ParagraphStep(ps, i, fileName);
    ParagraphChunksPrefix(ps, i + 1, fileName);
  }

  /** Every paragraph chunk has non-blank content and is tagged "text" for
      this file; there are at most as many as paragraphs. */
  lemma {:induction false} ParagraphChunksSound(ps: seq<Paragraph>, fileName: string)
    ensures |ParagraphChunks(ps, fileName)| <= |ps|
    ensures forall k :: 0 <= k < |ParagraphChunks(ps, fileName)| ==>
      var c := ParagraphChunks(ps, fileName)[k];
      !IsBlank(c.content) && Tagged(c, "chunk_type", Str("text")) &&
      Tagged(c, "file_name", Str(fileName)) && Tagged(c, "file_type", Str(".docx"))
  {
    if ps != [] {
      var init := ps[..|ps| - 1];
      ParagraphChunksSound(init, fileName);
      StripNotBlank(ps[|ps| - 1].text);
    }
  }

  /** `c` is the chunk of some emitting paragraph: its stripped text under
      the heading in force just before it. */
  ghost predicate FromParagraph(c: Chunk, ps: seq<Paragraph>, fileName: string) {
    exists j :: 0 <= j < |ps| && Emits(ps[j]) && c == ParaChunk(ps[j], ps[..j], fileName)
  }

  /** The chunk of body paragraph `p` after the paragraphs `before`. */
  function ParaChunk(p: Paragraph, before: seq<Paragraph>, fileName: string): Chunk {
    DocxChunk(Strip(p.text), HeadingAfter(before), "text", fileName)
  }

  /** A chunk that comes from a paragraph of a prefix comes from the same
      paragraph of the whole list. */
  lemma FromParagraphExtend(c: Chunk, ps: seq<Paragraph>, n: nat, fileName: string)
    requires n <= |ps| && FromParagraph(c, ps[..n], fileName)
    ensures FromParagraph(c, ps, fileName)
  {
    var j :| 0 <= j < n && Emits(ps[..n][j]) && c == ParaChunk(ps[..n][j], ps[..n][..j], fileName);
    var p, before := ps[..n][j], ps[..n][..j];
    assert p == ps[j] by {}
    assert before == ps[..j] by {}
    assert Emits(ps[j]) && c == ParaChunk(ps[j], ps[..j], fileName);
  }

  /** Every paragraph chunk comes from an emitting paragraph: it is that
      paragraph's stripped text, under the heading in force there. */
  lemma {:induction false} ParagraphChunksFromParagraphs(ps: seq<Paragraph>, fileName: string)
    ensures forall k :: 0 <= k < |ParagraphChunks(ps, fileName)| ==>
      FromParagraph(ParagraphChunks(ps, fileName)[k], ps, fileName)
  {
    if ps != [] {
      var n := |ps| - 1;
      var init := ps[..n];
      ParagraphChunksFromParagraphs(init, fileName);
      ParagraphStep(ps, n, fileName);
      assert ps[..n + 1] == ps;
      var before := ParagraphChunks(init, fileName);
      var all := ParagraphChunks(ps, fileName);
      forall k | 0 <= k < |all| ensures FromParagraph(all[k], ps, fileName) {
        if k < |before| {
          assert all[k] == before[k];
          FromParagraphExtend(all[k], ps, n, fileName);
        } else {
          assert Emits(ps[n]) && all[k] == ParaChunk(ps[n], ps[..n], fileName);
        }
      }
    }
  }

  /** Every table chunk carries the given section and is tagged "table"; there
      are at most as many as tables. */
  lemma {:induction false} TableChunksSound(ts: seq<Table>, section: string, fileName: string)
    ensures |TableChunks(ts, section, fileName)| <= |ts|
    ensures forall k :: 0 <= k < |TableChunks(ts, section, fileName)| ==>
      var c := TableChunks(ts, section, fileName)[k];
      Tagged(c, "section", Str(section)) && Tagged(c, "chunk_type", Str("table")) &&
      Tagged(c, "file_name", Str(fileName)) && Tagged(c, "file_type", Str(".docx"))
  {
    if ts != [] {
      TableChunksSound(ts[..|ts| - 1], section, fileName);
    }
  }

  /** All paragraph chunks come before all table chunks, and every table
      chunk's section is the heading in force after the whole paragraph pass. */
  lemma ParagraphsBeforeTables(d: DocxDoc, fileName: string)
    ensures var cs := DocxChunks(Some(d), fileName);
      var n := |ParagraphChunks(d.paragraphs, fileName)|;
      n <= |cs| &&
      (forall k :: 0 <= k < n ==> Tagged(cs[k], "chunk_type", Str("text"))) &&
      (forall k :: n <= k < |cs| ==> Tagged(cs[k], "chunk_type", Str("table")) &&
                                     Tagged(cs[k], "section", Str(HeadingAfter(d.paragraphs))))
  {
    ParagraphChunksSound(d.paragraphs, fileName);
    TableChunksSound(d.tables, HeadingAfter(d.paragraphs), fileName);
    var cs := DocxChunks(Some(d), fileName);
    var n := |ParagraphChunks(d.paragraphs, fileName)|;
    forall k | n <= k < |cs|
      ensures cs[k] == TableChunks(d.tables, HeadingAfter(d.paragraphs), fileName)[k - n]
    {
    }
  }

  /** When no cell contains a newline, a table chunk has exactly one line per
      row: the rows can be read back by splitting on "\n". */
  lemma TableTextLines(rows: Table)
    requires rows != []
    requires forall r, k :: 0 <= r < |rows| && 0 <= k < |rows[r]| ==> '\n' !in rows[r][k]
    ensures CountChar(TableText(rows), '\n') == |rows| - 1
  {
    var lines := RowTexts(rows);
    forall r | 0 <= r < |rows| ensures CountChar(lines[r], '\n') == 0 {
      var cells := seq(|rows[r]|, k requires 0 <= k < |rows[r]| => Strip(rows[r][k]));
      forall k | 0 <= k < |cells| ensures '\n' !in cells[k] {
        StripNotBlank(rows[r][k]);
      }
      JoinAvoids(" | ", cells, '\n');
      CountCharAbsent(lines[r], '\n');
    }
    JoinCountsSeparators('\n', lines);
  }

  /** A table whose rows have at most one cell, all blank, still yields a
      chunk, and its content is blank: table chunks are not filtered for
      empty text the way paragraphs are. */
  lemma BlankTableStillEmitted(cell: string, fileName: string)
    requires IsBlank(cell)
    ensures DocxChunks(Some(DocxDoc([], [[[cell]]])), fileName) == [DocxChunk("", "None", "table", fileName)]
  {
    StripEmptyIffBlank(cell);
    var ts: seq<Table> := [[[cell]]];
    assert RowText([cell]) == "";
    assert RowTexts([[cell]]) == [""];
    TableStep(ts, 0, "None", fileName);
    assert ts[..1] == ts;
  }

  /** Every chunk of a DOCX document names its file and the type ".docx". */
  lemma DocxChunksTagged(doc: Option<DocxDoc>, fileName: string)
    ensures forall k :: 0 <= k < |DocxChunks(doc, fileName)| ==>
      Tagged(DocxChunks(doc, fileName)[k], "file_name", Str(fileName)) &&
      Tagged(DocxChunks(doc, fileName)[k], "file_type", Str(".docx"))
  {
    if doc.Some? {
      var d := doc.value;
      var pcs := ParagraphChunks(d.paragraphs, fileName);
      var tcs := TableChunks(d.tables, HeadingAfter(d.paragraphs), fileName);
      ParagraphChunksSound(d.paragraphs, fileName);
      TableChunksSound(d.tables, HeadingAfter(d.paragraphs), fileName);
      var cs := pcs + tcs;
      assert DocxChunks(doc, fileName) == cs;
      forall k | 0 <= k < |cs|
        ensures Tagged(cs[k], "file_name", Str(fileName)) && Tagged(cs[k], "file_type", Str(".docx"))
      {
        if k < |pcs| {
          assert cs[k] == pcs[k];
        } else {
          assert cs[k] == tcs[k - |pcs|];
        }
      }
    }
  }
}
