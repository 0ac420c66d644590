/** `process_file`: derive the file type from the name, check it against the
    configured allow-list, and dispatch to exactly one extractor. The parsing
    libraries and the tabular and code extractors are inputs. */
module DocumentProcessor {
  import opened Common
  import opened Text
  import opened Chunks
  import opened Decoding
  import PdfExtractor
  import DocxExtractor
  import TextSplitter

  /** The libraries behind the extractors. `pdf` and `docx` give `None` when
      the library raised (the extractors then return `[]`); `data`
      (`data_extractor.process_data`) and `code` (`code_splitter.process`)
      may raise, which `process_file` wraps. */
  datatype Parsers = Parsers(
    pdf: seq<byte> -> Option<seq<string>>,
    docx: seq<byte> -> Option<DocxExtractor.DocxDoc>,
    splitters: TextSplitter.Splitters,
    data: (seq<byte>, string, string) -> Outcome<seq<Chunk>>,
    code: (string, string, string) -> Outcome<seq<Chunk>>)

  /** The two exceptions `process_file` lets out. */
  datatype ProcessError = UnsupportedType(fileType: string) | ProcessingFailed(fileName: string) {
    /** `str(e)` of the exception. */
    function Message(): string {
      match this
      case UnsupportedType(t) => "Unsupported file type: " + t
      case ProcessingFailed(n) => "Failed to process " + n
    }
  }

  /** `"." + file_name.split('.')[-1].lower()`. */
  function FileType(fileName: string): string {
    "." + Lower(AfterLast(fileName, '.'))
  }

  /** The extractor families, one per branch of the dispatch. */
  datatype Family = Pdf | Docx | PlainText | Tabular | Code

  function FamilyOf(fileType: string): Option<Family> {
    if fileType == ".pdf" then Some(Pdf)
    else if fileType == ".docx" then Some(Docx)
    else if fileType in [".txt", ".md"] then Some(PlainText)
    else if fileType in [".csv", ".xlsx"] then Some(Tabular)
    else if fileType in [".py", ".js", ".java", ".cpp"] then Some(Code)
    else None
  }

  /** What `process_file` returns or raises: the file type of the name, then
      the allow-list check and the dispatch of `Routed`. */
  function ProcessFile(p: Parsers, allowed: seq<string>, fileName: string, content: seq<byte>)
    : Result<seq<Chunk>, ProcessError>
  {
    Routed(p, allowed, FileType(fileName), fileName, content)
  }

  /** `process_file` once the file type is known. The allow-list check comes
      before the `try`, so an unsupported type is raised as such; every other
      failure is the single "Failed to process" error. */
  function Routed(p: Parsers, allowed: seq<string>, fileType: string, fileName: string, content: seq<byte>)
    : (r: Result<seq<Chunk>, ProcessError>)
    ensures r == Err(UnsupportedType(fileType)) <==> fileType !in allowed
    ensures fileType in allowed && r.Err? ==> r.error == ProcessingFailed(fileName)
    ensures fileType in allowed && FamilyOf(fileType).None? ==> r == Err(ProcessingFailed(fileName))
    ensures fileType in allowed ==> r == Dispatch(p, FamilyOf(fileType), fileType, fileName, content)
  {
    if fileType !in allowed then Err(UnsupportedType(fileType))
    else Dispatch(p, FamilyOf(fileType), fileType, fileName, content)
  }

  /** The `try` block of `process_file`: the one extractor of the family. */
  function Dispatch(p: Parsers, family: Option<Family>, fileType: string, fileName: string, content: seq<byte>)
    : (r: Result<seq<Chunk>, ProcessError>)
    ensures r.Err? ==> r.error == ProcessingFailed(fileName)
    ensures family.None? ==> r.Err?
  {
    match family
    case None => Err(ProcessingFailed(fileName))
    case Some(Pdf) => Ok(PdfExtractor.PdfChunks(p.pdf(content), fileName))
    case Some(Docx) => Ok(DocxExtractor.DocxChunks(p.docx(content), fileName))
    case Some(PlainText) =>
      (match TextSplitter.TextChunks(DecodeContent(content), fileName, fileType, p.splitters)
       case Returned(cs) => Ok(cs)
       case Raised(_) => Err(ProcessingFailed(fileName)))
    case Some(Tabular) =>
      (match p.data(content, fileName, fileType)
       case Returned(cs) => Ok(cs)
       case Raised(_) => Err(ProcessingFailed(fileName)))
    case Some(Code) =>
      (match p.code(DecodeContent(content), fileName, fileType)
       case Returned(cs) => Ok(cs)
       case Raised(_) => Err(ProcessingFailed(fileName)))
  }

  /** The file type is a dot followed by the lower-cased text after the last
      dot of the name, which itself contains no dot; a name without a dot
      uses the whole name. */
  lemma FileTypeSpec(fileName: string)
    ensures var t := FileType(fileName);
      t[0] == '.' && '.' !in t[1..] &&
      ('.' !in fileName ==> t == "." + Lower(fileName)) &&
      exists k :: 0 <= k <= |fileName| && t == "." + Lower(fileName[k..]) && (k > 0 ==> fileName[k - 1] == '.')
  {
    var a := AfterLast(fileName, '.');
    AfterLastSpec(fileName, '.');
    LowerAvoids(a, '.');
    var k := |fileName| - |a|;
    assert FileType(fileName)[1..] == Lower(a);
    if '.' !in fileName {
      assert k == 0 && a == fileName[0..] == fileName;
    }
  }

  /** Upper-case extensions are accepted as their lower-case form. */
  lemma UpperCaseExtension()
    ensures FileType("Report.PDF") == ".pdf"
  {
    assert "Report.PDF" == "Report" + ['.'] + "PDF";
    AfterLastSuffix("Report", '.', "PDF");
    var lower := Lower("PDF");
    assert lower[0] == 'p' && lower[1] == 'd' && lower[2] == 'f';
    assert lower == "pdf";
  }

  /** The PDF branch gives chunks that name the file and the type ".pdf",
      the DOCX branch ".docx". */
  lemma DocumentChunksNamed(p: Parsers, family: Option<Family>, fileType: string, fileName: string, content: seq<byte>)
    requires family in {Some(Pdf), Some(Docx)}
    ensures var r := Dispatch(p, family, fileType, fileName, content);
      r.Ok? && forall k :: 0 <= k < |r.value| ==>
        Tagged(r.value[k], "file_name", Str(fileName)) &&
        Tagged(r.value[k], "file_type", Str(if family == Some(Pdf) then ".pdf" else ".docx"))
  {
    if family == Some(Pdf) {
      PdfExtractor.PdfChunksTagged(p.pdf(content), fileName);
    } else {
      DocxExtractor.DocxChunksTagged(p.docx(content), fileName);
    }
  }

  /** The text branch decodes the raw bytes and splits them: a splitter
      exception becomes "Failed to process", and otherwise the chunks name a
      file and a type and carry no header key. */
  lemma TextChunksNamed(p: Parsers, fileType: string, fileName: string, content: seq<byte>)
    ensures var r := Dispatch(p, Some(PlainText), fileType, fileName, content);
      var t := TextSplitter.TextChunks(DecodeContent(content), fileName, fileType, p.splitters);
      (t.Raised? <==> r == Err(ProcessingFailed(fileName))) &&
      (t.Returned? ==> r == Ok(t.value)) &&
      (r.Ok? ==> forall c :: c in r.value ==>
        "file_name" in c.metadata && "file_type" in c.metadata && "Header 1" !in c.metadata &&
        "Header 2" !in c.metadata && "Header 3" !in c.metadata)
  {
    TextSplitter.TextChunksNamed(DecodeContent(content), fileName, fileType, p.splitters);
  }
}
