# rag-agent core, modelled in Dafny

This project models the core of the rag-agent backend: a retrieval-augmented question
answering service over uploaded documents. It covers four parts:

- **Document summarizer** (`DocumentSummarizer`, module `Summarization`).
  - A greedy two-level chunk packer. It packs blank-line-separated paragraphs into chunks, falls back to sentences ending in `。`, `！` or `？`, and as a last resort cuts fixed-size slices.
  - A depth-bounded recursive summary reduction. It summarizes each chunk, labels the results `部分{i}:` and recurses while the combined text is too long.
- **Vectorizer** (`Vectorizer`, module `Vectorization`). This is a class whose optional `vectorStore` field is set by `initialize_vector_store` and `ensure_vector_store`. It also holds:
  - the hybrid search: vector retrieval of `2k` candidates, cross-encoder rerank, linear score fusion, a stable descending sort and the top `k`;
  - the per-source chunk listing.
- **Document processor** (module `DocumentProcessing`).
  - Choosing a loader from the lower-cased text after the last dot.
  - The rule that accepts, saves and returns a generated summary.
- **Table extractor** (module `TableExtraction`). It renders Word and PDF tables as text:
  - a title;
  - a `列标题:` header line;
  - for each row, a `行n:` cell line and a `该行数据表示:` description line.

  Each table becomes a document tagged with its source and table index. A PDF table
  without rows makes the PDF extraction raise. A Word table whose widest data row is not as
  wide as its header makes the Word extraction raise.

The shared modules are:

- `Wrappers`: `Option` and `Result`.
- `Documents`: the LangChain `Document` value.
- `Text`: the Python string operations the core relies on, with CPython's semantics. These are `split`, `join`, ASCII `lower`, `rstrip` with a character set, the slice `s[:n]`, and decimal printing.

The code that changes state step by step is written as methods with loops. The loops cover:

- the packer's paragraph, sentence and slice loops;
- the chunk-summary loop;
- the search's candidate loops;
- the chunk filter;
- the table extractors' row and cell loops.

Each method is proved equal to a specification function. The properties are then proved about those functions.

External behaviour becomes parameters:

- the LLM summary chain: `string -> Option<string>`, where `None` means the call raised;
- the similarity search and the cross-encoder;
- the Milvus and library filters;
- the document loaders;
- the summary store's `save_document_summary`.

## Model

| member | source | states |
|---|---|---|
| Text.Split | src/models/summarization/document_summarizer.py:55 | `str.split` always yields at least one piece |
| Text.JoinSplit | src/models/summarization/document_summarizer.py:55 | joining the pieces of a split with the same separator gives back the text |
| Text.SplitJoin | src/models/table_processing/table_extractor.py:62-78 | splitting a join on a character no part contains gives back the parts |
| Text.SplitLastPiece | src/models/document_processor.py:40 | the text after the last occurrence of a one-character separator is the last piece of the split |
| Text.SplitPiecesAvoidSeparator | src/models/summarization/document_summarizer.py:73 | no piece of a split on a character contains that character |
| Text.SplitAfterMarker | src/models/summarization/document_summarizer.py:73 | if every marker character is followed by the separator, a marker can only end a piece |
| Text.Lower | src/models/document_processor.py:40 | `lower()` keeps the length, maps each ASCII capital to its small letter, and keeps every other character |
| Text.LowerIdempotent | src/models/vectorization/vectorizer.py:34 | lower-casing twice is lower-casing once |
| Text.RStrip | src/models/table_processing/table_extractor.py:78 | `rstrip(chars)` returns a prefix that does not end in a strip character, and everything it removed is a strip character |
| Text.SlicePrefix | src/models/summarization/document_summarizer.py:155 | `s[:n]` is a prefix of length `min(n, len)` for `n >= 0`, and drops `-n` elements for negative `n` |
| Text.Decimal | src/models/table_processing/table_extractor.py:62 | an f-string integer is a non-empty string of digits |
| Text.DecimalRoundTrip | src/models/table_processing/table_extractor.py:62 | reading the printed number back gives the number |
| Summarization.ChunkText | src/models/summarization/document_summarizer.py:43-99 | the chunk list is exactly the greedy paragraph fold `Chunks(text, size)` followed by the final flush |
| Summarization.PackOversizedParagraph | src/models/summarization/document_summarizer.py:71-91 | the sentence loop of an oversized paragraph, restarted from an empty current chunk, is the sentence fold |
| Summarization.CutSentence | src/models/summarization/document_summarizer.py:85-89 | the `range(0, len, size)` loop appends exactly the slices of the sentence |
| Summarization.MarkedTerminatorsAreFollowedByNewline | src/models/summarization/document_summarizer.py:73 | after the three replaces, every `。`, `！` and `？` is followed by a newline |
| Summarization.UnmarkedParagraph | src/models/summarization/document_summarizer.py:73 | a paragraph without full-width terminators is left unchanged by the replaces |
| Summarization.SentenceBoundaries | src/models/summarization/document_summarizer.py:73 | a sentence holds no newline and only ends in a terminator, and joining the sentences with newlines gives back the marked paragraph |
| Summarization.AsciiPunctuationDoesNotSplit | src/models/summarization/document_summarizer.py:73 | without full-width terminators or newlines, ASCII `.` `!` `?` do not split: the paragraph is one sentence |
| Summarization.SlicesCutInOrder | src/models/summarization/document_summarizer.py:85-89 | the slices are non-empty and at most `size` long, all but the last are exactly `size`, and together they rebuild the sentence in order |
| Summarization.SentenceStepBounded | src/models/summarization/document_summarizer.py:76-91 | one sentence step keeps every finished chunk non-empty and within the size |
| Summarization.PackSentencesBounded | src/models/summarization/document_summarizer.py:76-91 | the sentence loop keeps every chunk non-empty and within the size |
| Summarization.ParagraphStepBounded | src/models/summarization/document_summarizer.py:59-93 | one paragraph step keeps every chunk non-empty and within the size |
| Summarization.PackParagraphsBounded | src/models/summarization/document_summarizer.py:59-93 | the paragraph loop keeps every chunk non-empty and within the size |
| Summarization.ChunksAreBounded | src/models/summarization/document_summarizer.py:55-99 | for `max_chunk_size >= 1` every returned chunk is non-empty and at most `max_chunk_size` long |
| Summarization.EmptyTextHasNoChunks | src/models/summarization/document_summarizer.py:55-99 | the empty text has no chunks |
| Summarization.PackFittingParagraphs | src/models/summarization/document_summarizer.py:59-69 | when every paragraph is non-empty and fits, re-joining the packed chunks with blank lines gives the paragraphs joined with blank lines |
| Summarization.FittingParagraphStep | src/models/summarization/document_summarizer.py:61-69 | adding one fitting paragraph grows the re-joined text by a blank line and the paragraph |
| Summarization.ChunksRoundTrip | src/models/summarization/document_summarizer.py:55-99 | if every paragraph is non-empty and fits, joining the chunks with `"\n\n"` gives back the input exactly |
| Summarization.PackFittingSentences | src/models/summarization/document_summarizer.py:76-91 | sentences that each fit are packed after the finished chunks, and their chunks re-joined with single spaces give the sentences joined with single spaces |
| Summarization.FittingSentenceStep | src/models/summarization/document_summarizer.py:77-91 | adding one fitting sentence keeps the finished chunks and grows the re-joined text by a space and the sentence |
| Summarization.ChunkSummaries | src/models/summarization/document_summarizer.py:139-147 | one summary per chunk, in order: the chain's answer whenever the call succeeded, and `[此部分摘要生成失败]` when it raised |
| Summarization.SummarizeChunks | src/models/summarization/document_summarizer.py:139-147 | the chunk loop calls the chain once per chunk, in chunk order, and collects `ChunkSummaries` |
| Summarization.SummarizeText | src/models/summarization/document_summarizer.py:117-166 | the result is `Summarize(...)` and the chain is called exactly with `Requests(...)`, in order |
| Summarization.ShortTextIsSummarizedDirectly | src/models/summarization/document_summarizer.py:131-132 | a text of at most `max_length` gets exactly one call, on the whole text, and its answer is returned unchanged |
| Summarization.LongTextIsSummarizedPerChunk | src/models/summarization/document_summarizer.py:135-147 | a longer text is cut with the fixed size 4000, and the first calls are one per chunk, in chunk order |
| Summarization.PassesAreBounded | src/models/summarization/document_summarizer.py:153-160 | at most `max_recursion + 1` texts are cut into chunks (one when the budget is zero or negative) |
| Summarization.RequestsFollowPasses | src/models/summarization/document_summarizer.py:131-160 | the chain calls are the one direct call on a text that fits, or else exactly the chunks of each chunked text, pass after pass; every chunked text is longer than `max_length` |
| Summarization.LongTextSummaryIsBounded | src/models/summarization/document_summarizer.py:153-162 | for a text longer than `max_length >= 0` the summary is at most `max_length + 3` characters |
| Summarization.CombinedStartsWithLabel | src/models/summarization/document_summarizer.py:150 | the combined text is empty or starts with the label `部分` |
| Summarization.FailureSentinelOnlyFromDirectCall | src/models/summarization/document_summarizer.py:129-166 | the result is `摘要生成失败` exactly when the text fits and its one call failed (or returned that text) |
| Summarization.LastPassIsNotSentinel | src/models/summarization/document_summarizer.py:153-162 | a pass that ends the recursion never returns the failure sentinel |
| Summarization.SummarizeDocument | src/models/summarization/document_summarizer.py:101-115 | one document is summarized as its page content with the defaults 3 and 2000 |
| Summarization.SummarizeDocuments | src/models/summarization/document_summarizer.py:168-184 | a batch is summarized as its page contents joined with blank lines, with the defaults 3 and 2000 |
| Summarization.JoinLength | src/models/summarization/document_summarizer.py:180 | the joined text's length is the total of the parts plus one separator between neighbours |
| Summarization.SmallBatchIsSummarizedDirectly | src/models/summarization/document_summarizer.py:178-181 | a batch whose joined length fits in 2000 gets exactly one call, on the joined text |
| Vectorization.BackendIgnoresCase | src/models/vectorization/vectorizer.py:34-52 | the store type names the same backend whatever its ASCII case |
| Vectorization.EnsureReportsAvailability | src/models/vectorization/vectorizer.py:118-154 | `ensure_vector_store` answers True exactly when a store is set afterwards; an existing store is kept; no store and no documents gives False |
| Vectorization.StoreStaysSet | src/models/vectorization/vectorizer.py:27-154 | once set, initialising never clears the store, and ensuring returns True without change |
| Vectorization.FusionIsMonotone | src/models/vectorization/vectorizer.py:276 | a smaller vector distance and a higher rerank score never lower the fused score, and strictly raise it when either improves strictly |
| Vectorization.Rescored | src/models/vectorization/vectorizer.py:257-276 | candidate i keeps hit i's content, metadata and score, gets the rerank score of pair i, and its final score is `0.3*(1-vector)+0.7*rerank` |
| Vectorization.InsertDescendingAtMost | src/models/vectorization/vectorizer.py:278 | inserting keeps every score under a common bound |
| Vectorization.InsertDescendingSorted | src/models/vectorization/vectorizer.py:278 | inserting into a descending list keeps it descending |
| Vectorization.InsertDescendingPermutes | src/models/vectorization/vectorizer.py:278 | inserting adds exactly the element |
| Vectorization.SortDescendingSorted | src/models/vectorization/vectorizer.py:278 | the sort yields non-increasing `final_score` and a permutation of its input |
| Vectorization.InsertDescendingStable | src/models/vectorization/vectorizer.py:278 | an inserted element goes in front of the equal-score elements already there |
| Vectorization.SortDescendingStable | src/models/vectorization/vectorizer.py:278 | the sort is stable: the elements of any one score keep their retrieval order |
| Vectorization.WithScorePrefix | src/models/vectorization/vectorizer.py:279 | a prefix keeps a prefix of each score's elements |
| Vectorization.TopKIsSortedPrefix | src/models/vectorization/vectorizer.py:278-279 | the result has `min(k, #candidates)` elements and is a prefix of the sorted candidates |
| Vectorization.TopKSortedSubset | src/models/vectorization/vectorizer.py:278-279 | the result is in non-increasing score order and is a sub-multiset of the candidates |
| Vectorization.TopKDropped | src/models/vectorization/vectorizer.py:278-279 | what is dropped is exactly the rest of the sorted candidates |
| Vectorization.CutDominates | src/models/vectorization/vectorizer.py:279 | in a descending list everything before a cut scores at least as much as everything after it |
| Vectorization.TopKKeepsHighest | src/models/vectorization/vectorizer.py:278-279 | no dropped candidate scores higher than a kept one |
| Vectorization.TopKStable | src/models/vectorization/vectorizer.py:278-279 | results of equal score are the first ones of that score among the candidates, in retrieval order |
| Vectorization.FromSourceExactly | src/models/vectorization/vectorizer.py:356-364 | the source filter keeps every chunk of that source, as often as it is stored, and nothing else |
| Vectorization.Vectorizer.constructor | src/models/vectorization/vectorizer.py:25 | a new vectorizer has no store |
| Vectorization.Vectorizer.IsInitialized | src/models/vectorization/vectorizer.py:156-165 | `is_initialized` is True exactly when a store is set |
| Vectorization.Vectorizer.InitializeVectorStore | src/models/vectorization/vectorizer.py:27-85 | the new store is `AfterInitialize`: unchanged for no documents or an unknown type, and FAISS when the Milvus build fails |
| Vectorization.Vectorizer.EnsureVectorStore | src/models/vectorization/vectorizer.py:118-154 | the new store and the answer are `AfterEnsure`, including False without initialising when Milvus is unreachable |
| Vectorization.Vectorizer.HybridSearch | src/models/vectorization/vectorizer.py:249-279 | `[]` without a store; otherwise the top `k` of the `2k` hits, rescored and stably sorted by final score |
| Vectorization.Vectorizer.GetDocumentChunks | src/models/vectorization/vectorizer.py:281-366 | `[]` without a store; otherwise the Milvus query, the library filter, or, when that raises or the type is another one, the stored chunks of that source in stored order |
| DocumentProcessing.ExtensionAfterLastDot | src/models/document_processor.py:40 | a path made of any stem, a dot and a dot-free tail has the lower-cased tail as its extension |
| DocumentProcessing.LastSegmentIsAfterLastDot | src/models/document_processor.py:40 | the segment has no dot, ends the path, and is the whole path or follows a dot; the extension is it lower-cased |
| DocumentProcessing.SupportedExtensions | src/models/document_processor.py:24-30 | exactly txt, pdf, docx, doc and md have a loader |
| DocumentProcessing.LoadDocument | src/models/document_processor.py:38-48 | the load fails with `Unsupported file type` exactly when the extension has no loader; a successful load returns what the mapped loader read from the path |
| DocumentProcessing.MappedTypeIsLoaded | src/models/document_processor.py:41-48 | a mapped extension builds its loader on the path: the loader's documents are returned, or the load fails when the loader raises |
| DocumentProcessing.UnsupportedTypeIsRefusedFirst | src/models/document_processor.py:38-48 | an unmapped extension fails with `Unsupported file type: ext` whatever the loaders would do |
| DocumentProcessing.UpperCaseExtensionExample | src/models/document_processor.py:40-41 | `report.PDF` has extension `pdf` and goes to the PDF loader |
| DocumentProcessing.LastDotExample | src/models/document_processor.py:40-41 | `notes.v2.md` has extension `md` and goes to the Markdown loader |
| DocumentProcessing.NoDotExample | src/models/document_processor.py:40-44 | a path without a dot is its own lower-cased extension, and `README` is refused |
| DocumentProcessing.GenerateDocumentSummary | src/models/document_processor.py:63-91 | a summary is returned exactly when it is acceptable and `save(doc_id, filename, summary)` returned True; then it is that summary and is non-empty and neither sentinel |
| DocumentProcessing.RejectedSummariesAreNotSaved | src/models/document_processor.py:83-87 | a load failure or an empty or sentinel summary means no save call and no result |
| TableExtraction.RowLines | src/models/table_processing/table_extractor.py:68-78 | two lines per data row |
| TableExtraction.RowLinesInOrder | src/models/table_processing/table_extractor.py:68-78 | data row m is rendered as its `行{m+1}:` line followed by its description line |
| TableExtraction.TableDocMetadata | src/models/table_processing/table_extractor.py:81-83 | a table document has the text as its content and exactly the metadata source, content_type `table` and table_index |
| TableExtraction.NonEmptyIndices | src/models/table_processing/table_extractor.py:49-57 | the positions of the tables with rows, increasing, all of them |
| TableExtraction.FirstEmpty | src/models/table_processing/table_extractor.py:15-22 | none exactly when every table has rows; otherwise the first table without rows |
| TableExtraction.RenderTable | src/models/table_processing/table_extractor.py:62-78 | the row loop builds exactly the title, the header line and two lines per data row |
| TableExtraction.DescribeRow | src/models/table_processing/table_extractor.py:72-77 | the cell loop adds a `名为值, ` pair for each cell that has a column name |
| TableExtraction.MaxWidth | src/models/table_processing/table_extractor.py:59 | the column count pandas needs for ragged rows: the width of the widest row, which some row has |
| TableExtraction.FirstMismatched | src/models/table_processing/table_extractor.py:56-59 | none exactly when every data frame can be built; otherwise the first table whose widest data row is not as wide as its header |
| TableExtraction.CollectRows | src/models/table_processing/table_extractor.py:51-54 | the `data` loop copies every row of the table, in order |
| TableExtraction.ExtractTablesFromDocx | src/models/table_processing/table_extractor.py:44-85 | the ValueError of the first table whose data frame cannot be built, or else `DocxDocs`: tables without rows skipped, the others rendered in order |
| TableExtraction.DocxRowsFitHeader | src/models/table_processing/table_extractor.py:56-69 | a successful Word extraction has no data row wider than its header, and tables whose data rows are all as wide as the header are always accepted |
| TableExtraction.ExtractTablesFromPdf | src/models/table_processing/table_extractor.py:9-42 | the IndexError of the first table without rows, or else the same rendering, one document per table |
| TableExtraction.DocxDocsFollowNonEmptyTables | src/models/table_processing/table_extractor.py:49-85 | one document per non-empty table, in table order, each keeping its index among all tables in its title and metadata |
| TableExtraction.PdfDocsOnePerTable | src/models/table_processing/table_extractor.py:15-42 | a successful PDF extraction has one document per table, with the table's own index |
| TableExtraction.NonEmptyIndicesOfFullTables | src/models/table_processing/table_extractor.py:49-57 | with no empty table every index is kept |
| TableExtraction.DescribedIgnoresExtraCells | src/models/table_processing/table_extractor.py:75-77 | cells beyond the header add nothing to the description (the rendering code alone: on the Word path such a row raises at line 59 first) |
| TableExtraction.DescriptionIgnoresExtraCells | src/models/table_processing/table_extractor.py:68-78 | extra cells are left out of the description line, though the cell line keeps them (the rendering code alone: on the Word path such a row raises at line 59 first) |
| TableExtraction.RStripIgnoresStrippedTail | src/models/table_processing/table_extractor.py:78 | a tail made only of strip characters makes no difference to `rstrip` |
| TableExtraction.TrailingCommasOfLastValueAreLost | src/models/table_processing/table_extractor.py:72-78 | `rstrip(", ")` also removes the trailing commas and spaces of the last described value |
| TableExtraction.TrailingCommaExample | src/models/table_processing/table_extractor.py:78 | the value `好, ` is described as `好` |
| TableExtraction.EmptyRowDescription | src/models/table_processing/table_extractor.py:74-78 | a row without cells is described as `该行数据表示:`, with the trailing space stripped |
| TableExtraction.RenderedIsLines | src/models/table_processing/table_extractor.py:62-78 | the table text is its title, header and row lines, each ended by a newline |
| TableExtraction.TableTextSplitsIntoLines | src/models/table_processing/table_extractor.py:62-78 | when no cell holds a newline, splitting the text on newlines gives back exactly those lines and a final empty piece |

## Left out

- The LLM, the embeddings, the cross-encoder, the vector backends and the summary store are parameters. The LLM is a function, so asking the same content twice gives the same answer.
- Summarization.Requests lists the summary-chain calls. The merge chain built in the constructor (document_summarizer.py:28-41) is never called by the code, so it is not modelled. The code returns the combined chunk summaries directly.
- Summarization.ChunkText requires `max_chunk_size >= 1`. The only caller passes 4000, and a zero step makes Python's `range` raise.
- Summarization.SummarizeDocument and Summarization.SummarizeDocuments do not model their `except` branches. `summarize_text` catches every failure itself, so they cannot be reached, and the `多文档摘要生成失败` sentinel is never produced.
- `async`/`await`: each call is awaited in turn, and no concurrency is modelled.
- Text.Lower maps only ASCII letters. Python's `lower()` also folds other scripts, which matters only for file extensions and store-type names outside ASCII.
- Vectorization scores are `real`: floating-point rounding and the `float()` cast are not modelled.
- Vectorization.Vectorizer.InitializeVectorStore does not model persistence (`persist_directory`, `save_local`, `os.makedirs`). It assumes the Chroma and FAISS builds succeed; whether the Milvus build succeeds is a parameter.
- `load_vector_store` and `check_milvus_connection` are not modelled. The connection check's answer is a parameter of `ensure_vector_store`.
- Vectorization.Vectorizer.GetDocumentChunks returns the documents where the source returns `{content, metadata}` dictionaries with the same two fields. The library calls are parameters. Their real return shapes are not modelled: Chroma's `get` returns a dictionary, and FAISS has no `get`.
- The document loaders, `split_documents`, `process_document`, `extract_metadata` and `get_document_summary` are not modelled. The loaders are a parameter of `load_document`.
- `camelot` and `python-docx` reading is not modelled: each table is given as its grid of cell texts.
- TableExtraction.ExtractTablesFromDocx models the `pd.DataFrame` built at table_extractor.py:59 only through the ValueError it raises. It raises when the widest data row has more or fewer cells than the header. The frame's value is unused. A table whose data rows are narrower than the header, but whose widest row matches it, is accepted and rendered with its short rows as they are.
- TableExtraction.DescribedIgnoresExtraCells and TableExtraction.DescriptionIgnoresExtraCells are about the rendering code on its own. In the program, no row wider than its header reaches that code. The Word extractor raises at line 59 first, and camelot's data frames have the same number of cells in every row. The model's PDF input does not enforce that equal width.
- TableExtraction.ExtractTablesFromPdf numbers data rows 1, 2, … like the Word extractor. camelot's DataFrame has the default index, so `iterrows()` over `iloc[1:]` yields those numbers.
- TableExtraction.TableTextSplitsIntoLines assumes no cell contains a newline. Cells with newlines are rendered as the source renders them, but then the lines cannot be recovered from the text.
