# doc-metadata-pipeline in Dafny

A model of the data-reshaping core of doc-metadata-pipeline. This is the Python
service that takes a PDF contract through several text extractors, merges their
output into one canonical document ("SuperJSON"), cuts it into retrieval chunks,
and files the LLM's metadata in BigQuery. The model covers the pure logic between
the PDF libraries and the storage and LLM sinks. It has two pipelines that share
no code, plus two small validators.

**The page-based pipeline** (`src/processing`, `src/vectorstore`):
- `PageModel`: the canonical `Page`/`TextBlock`/`Table`/`TableCell` document, with its declared defaults in the `New…` constructors.
- `PageNormalizer`: the PyMuPDF, pdfplumber and Document AI normalizers.
- `PageMerger`: `SuperJSONMerger.merge`, whose `merge_pages` fold is a left fold into an index-sorted page list (the sorted view of `pages_by_index`).
- `TextSplitter`: `SimpleTextSplitter`.

**The span-based pipeline** (`src/pdf_ingestion`, `src/models/super_json_schema.py`):
- `PageSpans`: the span construction the two extractors share.
- `PdfplumberExtractor`, `PymupdfExtractor`: what the extractors do after their library calls. Those calls are input sequences: one text (or None) per page, plus the pdfplumber table grids.
- `SpanPayload`: the payload dictionaries the extractors return.
- `ExtractionMerging`: `merge_extractions`.
- `SpanSchema`: the span-based document and the validation its pydantic models apply.
- `SuperJsonBuilder`: `build_super_json`.
- `SpanPipeline`: extract, merge and build, end to end.

**The validators:**
- `ContractRow`: the value coercions and column lookups of `insert_contract_metadata_row`.
- `GcsUri`: the `gs://` split of `PDFLoader.load_from_gcs`.

**Shared modules:**
- `Wrappers`: `Option` and `Result`.
- `PyValue`: Python's dynamic values, with `dict.get`, iteration and truthiness. It also defines `Error`, the Python exception an operation raises.
- `Text`: whitespace and `str.strip`, decimal rendering and parsing, prefixes and cuts.

**Conventions:**
- Operations that can raise return a `Result`.
- A raw dictionary key read with a default is a `Slot` (absent, bound to None, or given). This keeps "missing" and "None" apart wherever the code treats them differently.
- Identifiers made by `uuid4()` are `Uuid(serial)` values drawn from a counter: each operation takes the next unused serial and returns the next one after it. That is how "ids are distinct" becomes provable.

## Model

| member | source | states |
|---|---|---|
| PageModel.SerialsDistinct | src/processing/normalizer.py:32 | the identifiers drawn from the counter never repeat, which is what the code relies on `uuid4` for |
| PageNormalizer.MuBlock | src/processing/normalizer.py:27-38 | a block tuple yields a block exactly when it has at least five elements, four numeric coordinates and a text (or falsy) fifth element, and the page index and tool are set. The block has the drawn id, the first four elements as bbox, and the fifth element as text ("" when falsy). The bounding box is validated before the block, so its errors come first |
| PageNormalizer.MuBlocks | src/processing/normalizer.py:25-38 | one block per tuple, in tuple order, with ids from consecutive serials. It fails exactly when some tuple is malformed, or when the page index or tool is missing and the page has tuples |
| PageNormalizer.MuPage | src/processing/normalizer.py:24-46 | a page record normalizes exactly when it is valid. The page keeps the record's index and text (default ""), has no tables and one block per tuple, every block carries the page's index, and the block ids are the next serials |
| PageNormalizer.MuPages | src/processing/normalizer.py:23-46 | one page per record, in record order, each fitting its record. It fails exactly when some record is invalid. The blocks of all pages draw consecutive serials |
| PageNormalizer.NormalizePyMuPdf | src/processing/normalizer.py:19-48 | `PyMuPDFNormalizer.normalize` succeeds exactly on valid input and yields one page per record, in order, with no tables anywhere. Blocks are tagged with `raw["tool"]`, default "pymupdf" |
| PageNormalizer.ShortTupleRaises | src/processing/normalizer.py:29 | a block tuple with fewer than five elements anywhere in the input makes the whole normalization fail |
| PageNormalizer.RowCells | src/processing/normalizer.py:78-86 | one cell per row entry, None included as "": the cell's column is its position and its row is the row's position |
| PageNormalizer.GridCells | src/processing/normalizer.py:76-86 | the cells of a grid are dense. There are as many as the row lengths add up to, each is the grid entry at its row and column (None as ""), and they come in strictly row-major order |
| PageNormalizer.TableIdInjective | src/processing/normalizer.py:89 | table ids `{tool}_p{page}_t{k}` of one tool are distinct for distinct (page, table position) pairs |
| PageNormalizer.PlumberTables | src/processing/normalizer.py:74-94 | one table per grid, in grid order. Table `k` has id `{tool}_p{index}_t{k}`, the page's index, the grid's dense cells and the tool |
| PageNormalizer.PlumberPageOf | src/processing/normalizer.py:60-96 | a valid pdfplumber page record gives the page with its index and text, one geometry-less block exactly when the text is not empty (that block's text being the page text), and one table per grid. Everything carries the page's index |
| PageNormalizer.PlumberPage | src/processing/normalizer.py:59-96 | a pdfplumber page record normalizes exactly when its index is set, its tables are not None, and a tool is named whenever a block or table is built. The result fits the record and draws one serial per block |
| PageNormalizer.NoneTablesBeforeNoneIndex | src/processing/normalizer.py:60-96 | with empty text, iterating a `tables` bound to None raises TypeError before a page index bound to None is rejected by `Page` |
| PageNormalizer.PlumberPages | src/processing/normalizer.py:58-96 | one page per record, in record order, each fitting its record. It fails exactly when some record is invalid. Block ids are consecutive serials |
| PageNormalizer.NormalizePdfPlumber | src/processing/normalizer.py:54-98 | `PDFPlumberNormalizer.normalize` succeeds exactly on valid input and yields one fitting page per record, tagged with `raw["tool"]`, default "pdfplumber" |
| PageNormalizer.NormalizeDocumentAi | src/processing/normalizer.py:104-108 | the Document AI normalizer yields no pages for any input and draws no identifiers |
| PageMerger.Extend | src/processing/merger.py:40-42 | the existing page keeps its index and text. Its blocks become its own followed by the new page's, and likewise its tables |
| PageMerger.Insert | src/processing/merger.py:34-42 | one `merge_pages` step keeps the page list strictly ascending by index |
| PageMerger.InsertLookup | src/processing/merger.py:35-42 | one step changes only the entry for the page's index: an absent entry becomes the page, a present one is extended by it |
| PageMerger.InsertRepresents | src/processing/merger.py:34-42 | one step keeps the page list equal to the reference view: for every index, the first contributed page's index and text with all contributed blocks and tables in order |
| PageMerger.MergePagesRepresents | src/processing/merger.py:34-42 | a whole `merge_pages` call extends the reference view by the pages it is given |
| PageMerger.MergeAllRepresents | src/processing/merger.py:34-42 | folding a page list into an empty dictionary gives exactly the reference view of that list |
| PageMerger.MergePagesAppend | src/processing/merger.py:44-54 | successive `merge_pages` calls (one per tool) equal one call on the concatenated pages |
| PageMerger.MergedIndices | src/processing/merger.py:34-37 | the merged pages have exactly the indices some tool contributed. No index is lost and no gap is filled |
| PageMerger.InsertKeepsBlocks | src/processing/merger.py:40-42 | one step neither loses nor duplicates a block: the blocks afterwards are, as a multiset, those before plus the page's |
| PageMerger.InsertKeepsTables | src/processing/merger.py:40-42 | one step neither loses nor duplicates a table |
| PageMerger.InsertKeepsIds | src/processing/merger.py:40-42 | one step neither loses nor duplicates a block identifier |
| PageMerger.MergePagesKeepsBlocks | src/processing/merger.py:34-42 | `merge_pages` keeps every contributed block exactly once |
| PageMerger.MergePagesKeepsIds | src/processing/merger.py:34-42 | `merge_pages` keeps every contributed block identifier exactly once |
| PageMerger.MergePagesKeepsTables | src/processing/merger.py:34-42 | `merge_pages` keeps every contributed table exactly once |
| PageMerger.CombineSnoc | src/processing/merger.py:40-42 | a further contribution to an index extends the page built so far |
| PageMerger.NormalizeAll | src/processing/merger.py:44-54 | the normalizers run in the order PyMuPDF, pdfplumber, Document AI, and only on truthy input. This succeeds exactly when each truthy PyMuPDF and pdfplumber input is valid. The PyMuPDF and pdfplumber contributions are those normalizers' pages, pdfplumber drawing serials after PyMuPDF, and [] for a falsy input. Document AI contributes nothing, and the contributed blocks draw consecutive serials |
| PageMerger.ToolsUsed | src/processing/merger.py:44-54 | each tool name is listed exactly when its raw input is truthy, whether or not it yields pages, and the names keep the calling order |
| PageMerger.Merge | src/processing/merger.py:22-65 | `merge` fails exactly when a normalizer fails or `source` has the wrong type. Otherwise it copies doc_id and source URI, takes `source` from the base metadata (None when absent), and keeps the base metadata as `extra`, with version "1.0.0" and the tools used. Its pages represent the contributions. Blocks and tables are kept as multisets, and block ids are distinct |
| PageMerger.MergeFacts | src/processing/merger.py:44-56 | the three `merge_pages` calls together represent all contributions and keep every block, table and identifier exactly once |
| PageMerger.FirstTextWins | src/processing/merger.py:36-37 | the first page contributed for an index keeps its text in the merged page, even when later tools have text and it has none |
| PageMerger.ContributedBlockKept | src/processing/merger.py:40-42 | every contributed block ends up on the merged page of its page's index |
| PageMerger.NothingToMerge | src/processing/merger.py:31-65 | with no truthy PyMuPDF or pdfplumber input, `merge` succeeds with no pages |
| TextSplitter.Entries | src/vectorstore/text_splitter.py:28-29 | entry k holds block k of the document's blocks, pages in document order and blocks in page order; every entry is tagged with the index of a page of the document |
| TextSplitter.Kept | src/vectorstore/text_splitter.py:38-41 | the entries that yield chunks: all of them have non-blank text, and there are at most as many as entries |
| TextSplitter.KeptAppend | src/vectorstore/text_splitter.py:28-29 | the chunked entries of consecutive pages are those of each page, concatenated |
| TextSplitter.KeptExactly | src/vectorstore/text_splitter.py:38-41 | an entry yields a chunk exactly when it is in the input and its stripped text is not empty |
| TextSplitter.ChunksFromPage | src/vectorstore/text_splitter.py:33-56 | one chunk per block with non-blank text, in block order, with ids from the next serials |
| TextSplitter.Split | src/vectorstore/text_splitter.py:25-31 | the chunks are those of the non-blank blocks of the whole document, in reading order, with consecutive fresh ids |
| TextSplitter.ChunkIdsDistinct | src/vectorstore/text_splitter.py:44 | no two chunks share an id |
| TextSplitter.ChunkShape | src/vectorstore/text_splitter.py:39-52 | a chunk's text is non-empty with no surrounding whitespace. Its doc_id and metadata "doc_id" are the document's, its page index is its block's page, and its metadata "tool" is its block's tool |
| TextSplitter.PageIndexMetadataRoundTrip | src/vectorstore/text_splitter.py:50 | the "page_index" metadata string is `str` of the chunk's page index, in canonical decimal form, and parses back to it |
| Text.IntToString | src/vectorstore/text_splitter.py:50 | `str(i)` is canonical decimal: digits without a leading zero (just "0" for zero), with a "-" before the digits of a negative number |
| TextSplitter.ChunkCountBound | src/vectorstore/text_splitter.py:38 | there are at most as many chunks as blocks; tables and page text give none |
| TextSplitter.EntriesOnTheirPage | src/vectorstore/text_splitter.py:38 | every chunked entry's block sits on a page with the entry's index |
| Text.Strip | src/vectorstore/text_splitter.py:39 | `str.strip()` leaves no whitespace at either end, and gives "" exactly for all-whitespace text |
| Text.StripIsInfix | src/vectorstore/text_splitter.py:39 | the stripped text is the original with an all-whitespace prefix and suffix cut off |
| Text.IntRoundTrip | src/vectorstore/text_splitter.py:50 | `int(str(i)) == i` for every integer |
| Text.IntToStringInjective | src/processing/normalizer.py:89 | distinct integers render as distinct decimal strings |
| Text.FirstIndexOf | src/ingestion/pdf_loader.py:52 | the position of the first occurrence of a character, or none exactly when it does not occur |
| Text.CutAtFirst | src/ingestion/pdf_loader.py:52 | cutting at the first separator is unambiguous when the left part holds no separator |
| PageSpans.HasTextIsStripTruthy | src/pdf_ingestion/extractors/pdfplumber_extractor.py:19-20 | a page "has text" exactly when `(text or "").strip()` is truthy |
| PageSpans.Spans | src/pdf_ingestion/extractors/pdfplumber_extractor.py:18-28 | each span comes from a page with text: its page is that page's 1-based number, its text is the page text, bbox None and source the tool. Pages strictly increase |
| PageSpans.SpanForEveryTextPage | src/pdf_ingestion/extractors/pdfplumber_extractor.py:18-28 | every page with text has a span with its 1-based number |
| PageSpans.LastSpanPage | src/pdf_ingestion/extractors/pdfplumber_extractor.py:56 | the largest span page, or 0 when there are no spans |
| PageSpans.LastSpanPageIsLastTextPage | src/pdf_ingestion/extractors/pdfplumber_extractor.py:56 | the largest span page is the number of the last page with text, or 0 when no page has text |
| PdfplumberExtractor.RowCells | src/pdf_ingestion/extractors/pdfplumber_extractor.py:35-44 | only non-None entries of a row become cells, each keeping its original column, in column order |
| PdfplumberExtractor.SparseCells | src/pdf_ingestion/extractors/pdfplumber_extractor.py:34-44 | a grid's cells are its non-None entries, as many as there are, each at its original row and column, in row-major order |
| PdfplumberExtractor.PageTables | src/pdf_ingestion/extractors/pdfplumber_extractor.py:32-52 | every table of a page has the page's 1-based number, at least one cell and source "pdfplumber", and its cells are the sparse cells of one of the page's grids |
| PdfplumberExtractor.PageTablesCount | src/pdf_ingestion/extractors/pdfplumber_extractor.py:45-52 | a page has as many tables as grids with at least one non-None entry |
| PdfplumberExtractor.PageTablesFrom | src/pdf_ingestion/extractors/pdfplumber_extractor.py:32-52 | a page's tables correspond one to one, in grid order, to its grids with a non-None entry: table j holds the sparse cells of grid f[j], with f strictly increasing and covering every such grid |
| PdfplumberExtractor.PageTableOfGrid | src/pdf_ingestion/extractors/pdfplumber_extractor.py:45-52 | a grid with a non-None entry yields a table of the page with its sparse cells |
| PdfplumberExtractor.TablesComplete | src/pdf_ingestion/extractors/pdfplumber_extractor.py:18-52 | every grid with a non-None entry, on any page, yields a document table with that page's 1-based number, the grid's sparse cells and source "pdfplumber" |
| PdfplumberExtractor.TablesCount | src/pdf_ingestion/extractors/pdfplumber_extractor.py:18-52 | the document has exactly as many tables as grids with a non-None entry, over all pages |
| PdfplumberExtractor.Tables | src/pdf_ingestion/extractors/pdfplumber_extractor.py:18-52 | tables lie within the document's pages, are non-empty, come in page order, and each holds the sparse cells of one of its own page's grids |
| PdfplumberExtractor.Extract | src/pdf_ingestion/extractors/pdfplumber_extractor.py:13-61 | the payload names pdfplumber, and its spans and tables are those of the pages |
| PdfplumberExtractor.PageCountIsLastTextPage | src/pdf_ingestion/extractors/pdfplumber_extractor.py:56 | `num_pages` is the number of the last page with text, so trailing blank pages are not counted. It is 0 exactly when no page has text |
| PymupdfExtractor.Extract | src/pdf_ingestion/extractors/pymupdf_extractor.py:13-35 | the payload names pymupdf and has no tables; its spans are those of the pages and `num_pages` counts every page |
| PymupdfExtractor.PageCountCoversSpans | src/pdf_ingestion/extractors/pymupdf_extractor.py:30 | every span page is within `num_pages`, and the last span page falls short of it exactly when the last page is blank |
| SpanSchema.IntField | src/models/super_json_schema.py:8 | an `int` field accepts integers as they are, booleans as 0 and 1, floats exactly when they have no fractional part (as that integer), and strings exactly when they parse as an integer (as that integer); it rejects None, lists and dicts |
| SpanSchema.StrField | src/models/super_json_schema.py:9 | a `str` field accepts exactly strings, unchanged |
| SpanSchema.FloatItem | src/models/super_json_schema.py:10 | a `float` list item accepts exactly integers, floats and booleans, as their real values |
| SpanSchema.BoxField | src/models/super_json_schema.py:10 | an optional float list accepts None as no box; a list is accepted exactly when every item is a number, and then gives each item's value in order; any other value is rejected |
| SpanSchema.Required | src/models/super_json_schema.py:11 | a required field is present exactly when its key is |
| SpanSchema.ValidateTextSpan | src/models/super_json_schema.py:7-11 | `TextSpan(**d)` succeeds exactly when page, text and source are present and well typed and any bbox is valid. The span holds those values, with bbox None when absent |
| SpanSchema.ValidateCell | src/models/super_json_schema.py:14-17 | `TableCell(**d)` succeeds exactly when row, col and text are present and well typed, and holds those values |
| SpanPayload.SpanRoundTrip | src/pdf_ingestion/extractors/pdfplumber_extractor.py:22-27 | a span written as the extractors' dictionary validates back to the same span |
| SpanPayload.CellRoundTrip | src/pdf_ingestion/extractors/pdfplumber_extractor.py:39-43 | a cell written as the extractor's dictionary validates back to the same cell |
| ExtractionMerging.Items | src/pdf_ingestion/normalizer/merging.py:19-20 | a missing span or table list counts as empty, and a present list is taken as it is |
| ExtractionMerging.Meta | src/pdf_ingestion/normalizer/merging.py:24 | a missing `meta` counts as empty, and a present one must be a dictionary |
| ExtractionMerging.Candidate | src/pdf_ingestion/normalizer/merging.py:25-26 | a payload offers its `num_pages` exactly when it is present and truthy |
| ExtractionMerging.Candidates | src/pdf_ingestion/normalizer/merging.py:22-26 | at most one candidate per payload, and every candidate is truthy |
| ExtractionMerging.Greater | src/pdf_ingestion/normalizer/merging.py:28 | `max` compares numbers by value and strings lexicographically; other pairs raise |
| ExtractionMerging.MaxOfNumbers | src/pdf_ingestion/normalizer/merging.py:28 | over numbers, `max` picks the first of the largest candidates |
| ExtractionMerging.PageCount | src/pdf_ingestion/normalizer/merging.py:28 | 0 without candidates, the only candidate when there is one, otherwise the candidate `max` picks |
| ExtractionMerging.GatherMetas | src/pdf_ingestion/normalizer/merging.py:23-24 | one meta per payload, failing exactly when some payload's meta is not a dictionary |
| ExtractionMerging.Tools | src/pdf_ingestion/normalizer/merging.py:31 | one entry per payload: its meta's tool, or None when it has none |
| ExtractionMerging.MergeExtractions | src/pdf_ingestion/normalizer/merging.py:6-39 | the merged payload has exactly the keys meta, text_spans and tables; its meta has exactly tools_used (three entries) and num_pages |
| ExtractionMerging.GatherWellShaped | src/pdf_ingestion/normalizer/merging.py:18-24 | for well-shaped payloads, the gathered lists are the payloads' lists joined in order, and the metas are theirs |
| ExtractionMerging.MergeWellShaped | src/pdf_ingestion/normalizer/merging.py:15-33 | for well-shaped payloads, the merge fails only in `max`. Otherwise spans and tables are the payloads' own, joined in order, with the tools and page count of their metas |
| ExtractionMerging.MergeSucceeds | src/pdf_ingestion/normalizer/merging.py:22-28 | well-shaped payloads whose counts are numbers always merge |
| ExtractionMerging.MaxBounds | src/pdf_ingestion/normalizer/merging.py:28 | the page count of numeric candidates is a number at least as large as each of them |
| ExtractionMerging.PageCountIsMax | src/pdf_ingestion/normalizer/merging.py:22-28 | every truthy count is at most the merged page count |
| ExtractionMerging.NoCandidates | src/pdf_ingestion/normalizer/merging.py:22-28 | there are no candidates exactly when no payload has a truthy count |
| ExtractionMerging.CandidateListed | src/pdf_ingestion/normalizer/merging.py:22-26 | every truthy count is among the candidates |
| ExtractionMerging.FalsyCountIgnored | src/pdf_ingestion/normalizer/merging.py:25 | a payload whose count is absent or falsy (a skipped tool's 0) adds no candidate |
| ExtractionMerging.SkippedDocAiAddsNothing | src/pdf_ingestion/normalizer/merging.py:18-31 | appending the skipped Document AI payload changes only `tools_used`, which gains "docai" |
| ExtractionMerging.MergeExtractionsThree | src/pdf_ingestion/normalizer/merging.py:18-33 | three well-shaped payloads with numeric counts merge into their spans and tables in order pdfplumber, PyMuPDF, Document AI, with their three tools and the page count their counts give |
| SuperJsonBuilder.IntOf | src/pdf_ingestion/normalizer/builders.py:15 | `int(v)` keeps integers, maps booleans to 0 and 1, truncates floats toward zero and parses decimal strings; other values raise |
| SuperJsonBuilder.SpanOf | src/pdf_ingestion/normalizer/builders.py:18 | a span dictionary is validated as a `TextSpan`; a non-dictionary raises |
| SuperJsonBuilder.CellOf | src/pdf_ingestion/normalizer/builders.py:23 | a cell dictionary is validated as a `TableCell`; a non-dictionary raises |
| SuperJsonBuilder.TableOf | src/pdf_ingestion/normalizer/builders.py:22-30 | a table succeeds exactly when the value is a dictionary, its cells iterate and each validates, the page is a valid `int` field and the source a string; a non-dictionary raises AttributeError. It takes page 0 and source "unknown" when they are missing, a present page as the `int` field reads it, no cells when `cells` is missing, and otherwise one cell per cell dictionary, in order |
| SuperJsonBuilder.BuildSuperJson | src/pdf_ingestion/normalizer/builders.py:8-41 | the build succeeds exactly when `meta` is a dictionary (else AttributeError), `int()` accepts its `num_pages` (0 when absent), and every span and every table converts. The document copies doc_id, filename and source path. Its metadata is the merged meta, its page count is `int(meta["num_pages"])` (0 when absent), and it has one validated span and one table per input item, in order |
| PyValue.Get | src/storage/contract_metadata_repository.py:86-87 | `dict.get(key)`: the bound value, or None for a missing key |
| PyValue.GetOr | src/pdf_ingestion/normalizer/builders.py:14 | `dict.get(key, default)`: the bound value, or the default for a missing key |
| PyValue.Iterate | src/pdf_ingestion/normalizer/builders.py:18 | a list iterates over its items, a string over its characters as one-character strings, and an empty dictionary over nothing; None, booleans and numbers raise |
| PyValue.Collect | src/pdf_ingestion/normalizer/builders.py:17-19 | a list comprehension over a validator succeeds exactly when every item validates, and then yields each item's record in order |
| PyValue.CollectEach | src/pdf_ingestion/normalizer/builders.py:17-19 | when each item validates to a given record, the comprehension yields exactly those records |
| PyValue.CollectFirstError | src/pdf_ingestion/normalizer/builders.py:17-19 | a failing comprehension raises the error of its first failing item, and all items before it validate |
| SpanPipeline.CellsRoundTrip | src/pdf_ingestion/normalizer/builders.py:23 | cells written as dictionaries rebuild to the same cells |
| SpanPipeline.TableRoundTrip | src/pdf_ingestion/normalizer/builders.py:22-30 | a table written as the extractor's dictionary rebuilds to the same table |
| SpanPipeline.SpansRoundTrip | src/pdf_ingestion/normalizer/builders.py:17-19 | spans written as dictionaries rebuild to the same spans |
| SpanPipeline.TablesRoundTrip | src/pdf_ingestion/normalizer/builders.py:21-30 | tables written as dictionaries rebuild to the same tables |
| SpanPipeline.PayloadWellShaped | src/pdf_ingestion/extractors/pdfplumber_extractor.py:54-61 | an extractor payload has list-valued spans and tables and a dictionary meta holding its page count and tool |
| SpanPipeline.IntCountsAreNumbers | src/pdf_ingestion/normalizer/merging.py:26 | integer page counts give integer candidates |
| SpanPipeline.CandidateFrom | src/pdf_ingestion/normalizer/merging.py:22-26 | every candidate is the count of some payload |
| SpanPipeline.ThreeCounts | src/pdf_ingestion/normalizer/merging.py:22-28 | from three integer counts, the merged count is 0 exactly when all are 0. Otherwise it is one of them, and no smaller than any non-zero one |
| SpanPipeline.BuildRendered | src/pdf_ingestion/normalizer/builders.py:14-41 | a merged payload of written-out records builds back into exactly those records, with the merged meta as metadata |
| SpanPipeline.MergedPayloads | src/pdf_ingestion/normalizer/merging.py:18-33 | three extractor payloads merge into their records in tool order, with their three tools and a page count that is 0 exactly when all counts are 0 and otherwise the largest |
| SpanPipeline.MergePayloads | src/pdf_ingestion/normalizer/merging.py:18-39 | `merge_extractions` on three extractor payloads writes out their spans and tables concatenated in tool order |
| SpanPipeline.PipelineKeepsContent | src/pdf_ingestion/normalizer/merging.py:6-39 | merging three extractor payloads and building the document succeeds. The document's spans and tables are the extractors' own, in order pdfplumber, PyMuPDF, Document AI; its metadata names the three tools; its page count is 0 exactly when all counts are 0, and otherwise at least each non-zero count |
| GcsUri.SplitGcsUri | src/ingestion/pdf_loader.py:48-52 | a URI is accepted exactly when it starts with "gs://" and has a "/" after the scheme. Without the prefix it raises "Invalid GCS URI". On success the bucket has no "/" and `gs://bucket/blob` is the URI |
| GcsUri.SplitUriOf | src/ingestion/pdf_loader.py:51-52 | writing a location whose bucket has no "/" as a URI and splitting it gives the location back; the blob may hold "/" |
| GcsUri.LoadFromGcs | src/ingestion/pdf_loader.py:44-63 | loading succeeds exactly when the split does. The document keeps doc_id and URI verbatim, holds the fetched bytes of that bucket and blob, and has metadata exactly source "gcs", bucket and blob, which spell the URI |
| ContractRow.PyStr | src/storage/contract_metadata_repository.py:94-96 | `str(x)`: strings unchanged, integers in canonical decimal (`IntToString`) that parses back, True/False, None; other values by their repr |
| ContractRow.CoerceRecipients | src/storage/contract_metadata_repository.py:89-96 | absent or None recipients stay None. A list becomes the list of its items' `str`, same length and order. Any other value becomes a one-element list of its `str` |
| ContractRow.RecipientsValue | src/storage/contract_metadata_repository.py:132 | the recipients column holds None or the list of strings |
| ContractRow.StringListKept | src/storage/contract_metadata_repository.py:93-94 | a list of strings passes the recipients coercion unchanged |
| ContractRow.RecipientsIdempotent | src/storage/contract_metadata_repository.py:89-96 | coercing coerced recipients changes nothing |
| ContractRow.InFourLiterals | src/storage/contract_metadata_repository.py:102-105 | membership in a tuple of three strings and a number is equality with one of the strings or numeric equality with the number |
| ContractRow.CoerceEvergreen | src/storage/contract_metadata_repository.py:98-110 | a boolean passes unchanged. "true", "True", "TRUE" and 1 (integer or float) give true; "false", "False", "FALSE" and 0 give false; every other value, None included, gives None |
| ContractRow.EvergreenIdempotent | src/storage/contract_metadata_repository.py:98-110 | coercing a coerced `is_evergreen` changes nothing |
| ContractRow.BuildRow | src/storage/contract_metadata_repository.py:112-136 | the row copies doc_id, filename, model and timestamp. It has exactly the fifteen pass-through columns, each the metadata's value or None when absent, plus the two coerced columns and the JSON dump of the metadata |
| ContractRow.OnlyReadKeysMatter | src/storage/contract_metadata_repository.py:112-136 | metadata that agree on the keys the row reads give the same row, up to the raw JSON |

## Left out

- PDF library calls (`pdfplumber.open`, `extract_text`, `extract_tables`, `fitz.open`, `get_text`): their results are the input sequences of the extractor models.
- Cloud Storage, BigQuery, Chroma and Document AI calls: the blob download is the `fetch` parameter of `GcsUri.LoadFromGcs`. The BigQuery insert, its `RuntimeError` on insert errors, and the table creation are not modelled, because they are network I/O.
- `load_from_local`: filesystem I/O.
- `uuid4()`: serials drawn from a counter, as described above; real UUIDs are random.
- `datetime.utcnow().isoformat()` and `json.dumps`: parameters of `ContractRow.BuildRow`.
- `ContractRow.PyStr`: `repr` of floats, lists and dictionaries is the parameter `reprOf`, because Python's float formatting is not modelled.
- Python object identity: the merger's `existing.blocks.extend` mutates the page object the normalizer returned. The fold is modelled functionally, so that aliasing is not visible.
- Bounding-box coordinates are opaque reals: nothing computes on them.
- SpanSchema.BoxField: pydantic's lax `float` also accepts a string holding a number (such as "1.5"); such items are rejected here, because Python's float syntax is not modelled. `SpanSchema.FloatItem` and `PageNormalizer.Coordinate` (the `BoundingBox` fields) reject them likewise.
- The Document AI extractor: it is a network call. Its place in `merge_extractions` is an arbitrary payload, and `SkippedDocAi` stands for its skipped form.
- ExtractionMerging.Greater: `max` over other mixed candidate types (lists, tuples, None against numbers) is modelled as raising, which is what Python does for all but list/tuple comparisons; ordering between lists or tuples is not modelled.
- SuperJsonBuilder.IntOf: `int()` on strings does not accept underscores between digits or non-ASCII digits here.
- SpanSchema.IntField: strings are assumed to follow the decimal grammar of `IntOf` (surrounding whitespace, a sign, ASCII digits); pydantic's own string-to-int grammar is not modelled.
- ExtractionMerging.Meta: a non-dictionary `meta` makes `merge_extractions` raise, as here, but Python's exception depends on the value: the count loop raises TypeError for None, booleans and numbers (whose `in` test fails) and for a string or list holding "num_pages" (which cannot be indexed by a string); any other meta passes that loop and `meta.get` raises AttributeError. Because the count loop visits every payload before the tools loop, the raising payload may be a later one. The model reports TypeError for the first non-dictionary meta.
- SpanSchema.ValidateTextSpan: pydantic reports every failing field, while the model reports the first. The same holds for `SpanSchema.ValidateCell`.
- PyValue.Iterate: iterating a non-empty dictionary yields its keys in insertion order, which maps do not keep; it is reported as an error here. In `build_super_json` this changes only the error, since each key is then passed to `TextSpan(**key)` or `key.get` and raises. In `merge_extractions` it is a divergence: `list.extend` on a dictionary appends its keys without raising, so `ExtractionMerging.Items` and `ExtractionMerging.MergeExtractions` fail where Python returns the keys as items (a later `build_super_json` on that result raises).
- The pydantic defaults that no modelled construction relies on (an empty page, metadata without `source`, an empty span document) have no constructor of their own.
- Page and span validation is limited to the fields the code reads: pydantic's type checks on `TextBlock.extra` and `DocumentMetadata.extra` always pass for dictionaries and are not modelled.
