/** The post-processing half of `extract_with_pymupdf`: the text fitz reads
    from each page is the input; the function turns it into 1-based text
    spans and reports every page, blank or not, in the page count. Tables
    are not extracted. */
module PymupdfExtractor {
  import opened Wrappers
  import opened PyValue
  import opened SpanSchema
  import opened SpanPayload
  import opened PageSpans

  /** `extract_with_pymupdf` after the library calls; `texts[k]` is what
      `page.get_text("text")` returned for the page at 0-based position `k`. */
  function Extract(texts: seq<Option<string>>): (e: Extraction)
    ensures e.tool == "pymupdf" && e.tables == []
    ensures e.spans == Spans(texts, "pymupdf")
    ensures e.numPages == |texts|
  {
    Extraction(|texts|, "pymupdf", Spans(texts, "pymupdf"), [])
  }

  /** Unlike pdfplumber's, this page count includes blank pages: it is never
      below the largest span page, and exceeds it exactly when the document
      ends in blank pages. */
  lemma PageCountCoversSpans(texts: seq<Option<string>>)
    ensures var e := Extract(texts);
      && (forall j :: 0 <= j < |e.spans| ==> e.spans[j].page <= e.numPages)
      && (LastSpanPage(e.spans) < e.numPages <==> texts != [] && !HasText(texts[|texts| - 1]))
  {
    LastSpanPageIsLastTextPage(texts, "pymupdf");
  }

  /** `extract_with_pymupdf`'s result dictionary. */
  function ExtractPayload(texts: seq<Option<string>>): map<string, Value> {
    Payload(Extract(texts))
  }
}
