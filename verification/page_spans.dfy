/** The loop both `pdf_ingestion` extractors share: walk the pages in order
    and emit one span, with the 1-based page number and the page's full
    text, for every page whose text is not all whitespace. The page texts
    are the input; `None` stands for a library call that returned nothing. */
module PageSpans {
  import opened Wrappers
  import opened Text
  import opened SpanSchema

  /** The text of a page as the extractor sees it: `extract_text() or ""`
      for pdfplumber, `get_text("text") or ""` for PyMuPDF. */
  function PageText(t: Option<string>): string {
    t.GetOr("")
  }

  /** `page_text.strip()` is truthy: the text is not all whitespace
      (`HasTextIsStripTruthy`). */
  predicate HasText(t: Option<string>) {
    !IsBlank(PageText(t))
  }

  lemma HasTextIsStripTruthy(t: Option<string>)
    ensures HasText(t) <==> Strip(PageText(t)) != []
  {
  }

  /** The span of the page at 1-based position `page`. */
  predicate SpanOfPage(s: TextSpan, texts: seq<Option<string>>, source: string)
  {
    && 1 <= s.page <= |texts|
    && HasText(texts[s.page - 1])
    && s == NewTextSpan(s.page, PageText(texts[s.page - 1]), source)
  }

  /** One span per page with text, pages in strictly increasing order. */
  function Spans(texts: seq<Option<string>>, source: string): (sp: seq<TextSpan>)
    ensures |sp| <= |texts|
    ensures forall j :: 0 <= j < |sp| ==> SpanOfPage(sp[j], texts, source)
    ensures forall a, b :: 0 <= a < b < |sp| ==> sp[a].page < sp[b].page
  {
    if texts == [] then []
    else
      var n := |texts| - 1;
      var init := Spans(texts[..n], source);
      var last := if HasText(texts[n]) then [NewTextSpan(n + 1, PageText(texts[n]), source)] else [];
      SpansStep(texts, source, init, last);
      init + last
  }

  lemma SpansStep(texts: seq<Option<string>>, source: string, init: seq<TextSpan>, last: seq<TextSpan>)
    requires texts != []
    requires forall j :: 0 <= j < |init| ==> SpanOfPage(init[j], texts[..|texts| - 1], source)
    requires forall a, b :: 0 <= a < b < |init| ==> init[a].page < init[b].page
    requires last == if HasText(texts[|texts| - 1]) then [NewTextSpan(|texts|, PageText(texts[|texts| - 1]), source)] else []
    ensures forall j :: 0 <= j < |init + last| ==> SpanOfPage((init + last)[j], texts, source)
    ensures forall a, b :: 0 <= a < b < |init + last| ==> (init + last)[a].page < (init + last)[b].page
  {
    var n := |texts| - 1;
    var sp := init + last;
    forall j | 0 <= j < |sp|
      ensures SpanOfPage(sp[j], texts, source)
    {
      if j < |init| {
        assert sp[j] == init[j];
        assert texts[..n][init[j].page - 1] == texts[init[j].page - 1];
      }
    }
    forall a, b | 0 <= a < b < |sp|
      ensures sp[a].page < sp[b].page
    {
      assert sp[a] == init[a];
      if b < |init| {
        assert sp[b] == init[b];
      } else {
        assert SpanOfPage(init[a], texts[..n], source);
      }
    }
  }

  lemma SpansUnfold(texts: seq<Option<string>>, source: string)
    requires texts != []
    ensures Spans(texts, source) == Spans(texts[..|texts| - 1], source)
      + (if HasText(texts[|texts| - 1]) then [NewTextSpan(|texts|, PageText(texts[|texts| - 1]), source)] else [])
  {
  }

  /** Every page with text has its span, at position `j`. */
  lemma {:induction false} SpanForEveryTextPage(texts: seq<Option<string>>, source: string, k: nat) returns (j: nat)
    requires k < |texts| && HasText(texts[k])
    ensures j < |Spans(texts, source)| && Spans(texts, source)[j].page == k + 1
    decreases |texts|
  {
    var n := |texts| - 1;
    var init := Spans(texts[..n], source);
    SpansUnfold(texts, source);
    if k < n {
      assert texts[..n][k] == texts[k];
      j := SpanForEveryTextPage(texts[..n], source, k);
      assert Spans(texts, source)[j] == init[j];
    } else {
      j := |init|;
    }
  }

  /** `len(text_spans) and max(ts["page"] for ts in text_spans) or 0`: the
      largest page of the spans, or 0 when there is none. */
  function LastSpanPage(sp: seq<TextSpan>): (n: int)
    ensures sp == [] ==> n == 0
    ensures forall j :: 0 <= j < |sp| ==> sp[j].page <= n
    ensures sp != [] ==> exists j :: 0 <= j < |sp| && sp[j].page == n
  {
    if sp == [] then 0
    else
      var m := LastSpanPage(sp[..|sp| - 1]);
      var p := sp[|sp| - 1].page;
      assert forall j :: 0 <= j < |sp| - 1 ==> sp[..|sp| - 1][j] == sp[j];
      if |sp| == 1 then p else if m < p then p else m
  }

  /** The largest span page is the 1-based position of the last page with
      text, or 0 when no page has text: blank pages after it do not count. */
  lemma LastSpanPageIsLastTextPage(texts: seq<Option<string>>, source: string)
    ensures var n := LastSpanPage(Spans(texts, source));
      && 0 <= n <= |texts|
      && (n == 0 <==> forall k :: 0 <= k < |texts| ==> !HasText(texts[k]))
      && (n > 0 ==> HasText(texts[n - 1]))
      && forall k :: n <= k < |texts| ==> !HasText(texts[k])
  {
    var sp := Spans(texts, source);
    var n := LastSpanPage(sp);
    forall k | n <= k < |texts|
      ensures !HasText(texts[k])
    {
      if HasText(texts[k]) {
        var j := SpanForEveryTextPage(texts, source, k);
      }
    }
    if sp != [] {
      var j :| 0 <= j < |sp| && sp[j].page == n;
      assert SpanOfPage(sp[j], texts, source);
    }
  }
}
