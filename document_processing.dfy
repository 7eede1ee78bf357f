/** The document-processing glue (`DocumentProcessor` in src/models/document_processor.py):
    choosing a loader from the file extension, and the rule for accepting, saving and
    returning a generated summary.

    The loaders, the summary chain and the summary store are oracles: `load` gives the
    documents a loader reads from a path (`None` when it raises), `summarize` is the LLM
    summary chain, `save` is `save_document_summary` (False, or an exception, as false). */
module DocumentProcessing {
  import opened Wrappers
  import opened Text
  import opened Documents
  import opened Summarization

  datatype LoaderKind = TextLoader | PyPdfLoader | Docx2txtLoader | UnstructuredLoader | UnstructuredMarkdownLoader

  /** `self.loader_map`. */
  const LoaderMap: map<string, LoaderKind> := map[
    ".txt" := TextLoader,
    ".pdf" := PyPdfLoader,
    ".docx" := Docx2txtLoader,
    ".doc" := UnstructuredLoader,
    ".md" := UnstructuredMarkdownLoader
  ]

  /** `file_path.split(".")[-1]`: the text after the last dot, or the whole path. */
  function LastSegment(path: string): string
  {
    var parts := Split(path, ".");
    parts[|parts| - 1]
  }

  /** `file_path.split(".")[-1].lower()`. */
  function FileExtension(path: string): string
  {
    Lower(LastSegment(path))
  }

  /** `loader_map.get(f".{file_extension}")`. */
  function LoaderFor(extension: string): Option<LoaderKind>
  {
    if "." + extension in LoaderMap then Some(LoaderMap["." + extension]) else None
  }

  datatype LoadError =
    | UnsupportedFileType(message: string)  // the ValueError raised for an unmapped extension
    | LoaderFailed                          // the loader itself raised

  /** `load_document`. */
  function LoadDocument(path: string, load: (LoaderKind, string) -> Option<seq<Doc>>): (r: Result<seq<Doc>, LoadError>)
    ensures r.Failure? && r.error.UnsupportedFileType? <==> LoaderFor(FileExtension(path)).None?
    ensures r.Success? ==> exists kind :: LoaderFor(FileExtension(path)) == Some(kind) && load(kind, path) == Some(r.value)
  {
    var extension := FileExtension(path);
    match LoaderFor(extension)
    case None => Failure(UnsupportedFileType("Unsupported file type: " + extension))
    case Some(kind) =>
      match load(kind, path)
      case Some(docs) => Success(docs)
      case None => Failure(LoaderFailed)
  }

  /** The last dot-separated segment is the part of the path after its last dot, or the whole
      path when it has no dot; the extension is that segment lower-cased. */
  lemma LastSegmentIsAfterLastDot(path: string)
    ensures var seg := LastSegment(path);
      && '.' !in seg
      && |seg| <= |path| && path[|path| - |seg|..] == seg
      && (|seg| == |path| || path[|path| - |seg| - 1] == '.')
    ensures FileExtension(path) == Lower(LastSegment(path))
  {
    var parts := Split(path, ".");
    var seg := parts[|parts| - 1];
    SplitPiecesAvoidSeparator(path, '.');
    JoinSplit(path, ".");
    if |parts| > 1 {
      var init := parts[..|parts| - 1];
      JoinSnoc(init, seg, ".");
      assert init + [seg] == parts;
    }
  }

  /** Exactly the five extensions txt, pdf, docx, doc and md have a loader. */
  lemma SupportedExtensions(extension: string)
    ensures LoaderFor(extension).Some? <==> extension in {"txt", "pdf", "docx", "doc", "md"}
  {
    if extension == "txt" {
      assert "." + extension == ".txt";
    } else if extension == "pdf" {
      assert "." + extension == ".pdf";
    } else if extension == "docx" {
      assert "." + extension == ".docx";
    } else if extension == "doc" {
      assert "." + extension == ".doc";
    } else if extension == "md" {
      assert "." + extension == ".md";
    } else {
      assert ("." + extension)[1..] == extension;
    }
  }

  /** A mapped extension builds its loader on the path: its documents are returned, and a
      loader that raises makes the load fail. */
  lemma MappedTypeIsLoaded(path: string, load: (LoaderKind, string) -> Option<seq<Doc>>)
    requires LoaderFor(FileExtension(path)).Some?
    ensures var kind := LoaderMap["." + FileExtension(path)];
      && LoaderFor(FileExtension(path)) == Some(kind)
      && LoadDocument(path, load) ==
         if load(kind, path).Some? then Success(load(kind, path).value) else Failure(LoaderFailed)
  {
  }

  /** An unmapped extension is refused with its message before any loader is asked. */
  lemma UnsupportedTypeIsRefusedFirst(path: string, load1: (LoaderKind, string) -> Option<seq<Doc>>,
                                      load2: (LoaderKind, string) -> Option<seq<Doc>>)
    requires LoaderFor(FileExtension(path)).None?
    ensures LoadDocument(path, load1) == LoadDocument(path, load2)
            == Failure(UnsupportedFileType("Unsupported file type: " + FileExtension(path)))
  {
  }

  /** The extension is whatever follows the last dot, lower-cased. */
  lemma ExtensionAfterLastDot(stem: string, ext: string)
    requires '.' !in ext
    ensures FileExtension(stem + "." + ext) == Lower(ext)
  {
    SplitLastPiece(stem, '.', ext);
  }

  /** The extension is case-folded before the lookup: `report.PDF` is read by the PDF loader. */
  lemma UpperCaseExtensionExample()
    ensures FileExtension("report.PDF") == "pdf" && LoaderFor("pdf") == Some(PyPdfLoader)
  {
    ExtensionAfterLastDot("report", "PDF");
    assert "report" + "." + "PDF" == "report.PDF";
    assert Lower("PDF") == "pdf";
    assert "." + "pdf" == ".pdf";
  }

  /** Only the last dot counts: `notes.v2.md` is read by the Markdown loader. */
  lemma LastDotExample()
    ensures FileExtension("notes.v2.md") == "md" && LoaderFor("md") == Some(UnstructuredMarkdownLoader)
  {
    ExtensionAfterLastDot("notes.v2", "md");
    assert "notes.v2" + "." + "md" == "notes.v2.md";
    assert Lower("md") == "md";
    assert "." + "md" == ".md";
  }

  /** A path without a dot is looked up as a whole, so `README` is refused. */
  lemma NoDotExample()
    ensures FileExtension("README") == "readme" && LoaderFor("readme").None?
  {
    SplitWithoutSeparator("README", '.');
    assert Lower("README") == "readme";
    SupportedExtensions("readme");
  }

  // ---------------------------------------------------------------------------------------
  // Generating and saving a summary

  /** The summary `summarize_documents` produces for the loaded documents. */
  function DocumentsSummary(summarize: string -> Option<string>, documents: seq<Doc>): string
  {
    Summarize(summarize, Join(PageContents(documents), ParagraphBreak), DefaultMaxRecursion, DefaultMaxLength)
  }

  /** A summary is worth saving when it is non-empty and is neither failure sentinel. */
  predicate Saveable(summary: string)
  {
    summary != "" && summary != SummaryFailed && summary != DocumentsSummaryFailed
  }

  /** A call `save_document_summary(doc_id, filename, summary)`. */
  datatype SaveCall = SaveCall(docId: string, filename: string, summary: string)

  /** The save call `generate_document_summary` makes, if it makes one. */
  function SaveRequest(filePath: string, docId: string, filename: string,
                       load: (LoaderKind, string) -> Option<seq<Doc>>,
                       summarize: string -> Option<string>): Option<SaveCall>
  {
    match LoadDocument(filePath, load)
    case Failure(_) => None
    case Success(documents) =>
      var summary := DocumentsSummary(summarize, documents);
      if Saveable(summary) then Some(SaveCall(docId, filename, summary)) else None
  }

  /** `generate_document_summary`: the summary, when it was accepted and the save succeeded;
      None otherwise (including every failure it catches). */
  function GenerateDocumentSummary(filePath: string, docId: string, filename: string,
                                   load: (LoaderKind, string) -> Option<seq<Doc>>,
                                   summarize: string -> Option<string>,
                                   save: SaveCall -> bool): (r: Option<string>)
    ensures r.Some? <==>
      SaveRequest(filePath, docId, filename, load, summarize).Some? &&
      save(SaveRequest(filePath, docId, filename, load, summarize).value)
    ensures r.Some? ==>
      && Saveable(r.value)
      && SaveRequest(filePath, docId, filename, load, summarize) == Some(SaveCall(docId, filename, r.value))
  {
    match SaveRequest(filePath, docId, filename, load, summarize)
    case None => None
    case Some(call) => if save(call) then Some(call.summary) else None
  }

  /** A summary that fails the acceptance rule is never saved and never returned, and a path
      whose document cannot be loaded gets no summary. */
  lemma RejectedSummariesAreNotSaved(filePath: string, docId: string, filename: string,
                                     load: (LoaderKind, string) -> Option<seq<Doc>>,
                                     summarize: string -> Option<string>, save: SaveCall -> bool)
    requires LoadDocument(filePath, load).Failure? ||
             !Saveable(DocumentsSummary(summarize, LoadDocument(filePath, load).value))
    ensures SaveRequest(filePath, docId, filename, load, summarize).None?
    ensures GenerateDocumentSummary(filePath, docId, filename, load, summarize, save).None?
  {
  }
}
