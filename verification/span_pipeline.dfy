/** The span pipeline end to end: three extractor payloads merged by
    `merge_extractions` and rebuilt by `build_super_json` give back the
    extractors' own spans and tables, concatenated in tool order, with the
    largest reported page count. */
module SpanPipeline {
  import opened Wrappers
  import opened PyValue
  import opened SpanSchema
  import opened SpanPayload
  import opened ExtractionMerging
  import opened SuperJsonBuilder

  // ------------------------------------------------- records survive rendering

  /** Cells rendered as dictionaries validate back to the same cells. */
  lemma CellsRoundTrip(cs: seq<SpanCell>)
    ensures Collect(CellValues(cs), CellOf) == Ok(cs)
  {
    forall k | 0 <= k < |cs|
      ensures CellOf(CellValues(cs)[k]) == Ok(cs[k])
    {
      CellRoundTrip(cs[k]);
    }
    CollectEach(CellValues(cs), CellOf, cs);
  }

  /** A table rendered as a dictionary rebuilds to the same table. */
  lemma TableRoundTrip(t: SpanTable)
    ensures TableOf(Object(TableDict(t))) == Ok(t)
  {
    CellsRoundTrip(t.cells);
  }

  /** Spans rendered as dictionaries validate back to the same spans. */
  lemma SpansRoundTrip(ss: seq<TextSpan>)
    ensures Collect(SpanValues(ss), SpanOf) == Ok(ss)
  {
    forall k | 0 <= k < |ss|
      ensures SpanOf(SpanValues(ss)[k]) == Ok(ss[k])
    {
      SpanRoundTrip(ss[k]);
    }
    CollectEach(SpanValues(ss), SpanOf, ss);
  }

  /** Tables rendered as dictionaries rebuild to the same tables. */
  lemma TablesRoundTrip(ts: seq<SpanTable>)
    ensures Collect(TableValues(ts), TableOf) == Ok(ts)
  {
    forall k | 0 <= k < |ts|
      ensures TableOf(TableValues(ts)[k]) == Ok(ts[k])
    {
      TableRoundTrip(ts[k]);
    }
    CollectEach(TableValues(ts), TableOf, ts);
  }

  lemma SpanValuesAppend(a: seq<TextSpan>, b: seq<TextSpan>)
    ensures SpanValues(a + b) == SpanValues(a) + SpanValues(b)
  {
  }

  lemma TableValuesAppend(a: seq<SpanTable>, b: seq<SpanTable>)
    ensures TableValues(a + b) == TableValues(a) + TableValues(b)
  {
  }

  // ------------------------------------------------------ payload shape

  /** The `meta` an extractor reports. */
  function ExtractorMeta(e: Extraction): map<string, Value> {
    map["num_pages" := Int(e.numPages), "tool" := Str(e.tool)]
  }

  /** An extractor payload is accepted by the merge as it is. */
  lemma PayloadWellShaped(e: Extraction)
    ensures WellShaped(Payload(e))
    ensures MetaOf(Payload(e)) == ExtractorMeta(e)
    ensures ListOf(Payload(e), "text_spans") == SpanValues(e.spans)
    ensures ListOf(Payload(e), "tables") == TableValues(e.tables)
  {
  }

  /** The candidates drawn from integer counts are numbers. */
  lemma {:induction false} IntCountsAreNumbers(metas: seq<map<string, Value>>)
    requires forall k :: 0 <= k < |metas| ==> "num_pages" in metas[k] && metas[k]["num_pages"].Int?
    ensures forall j :: 0 <= j < |Candidates(metas)| ==> Candidates(metas)[j].Int?
    ensures AllNumbers(Candidates(metas))
    decreases |metas|
  {
    if metas != [] {
      var n := |metas| - 1;
      assert forall k :: 0 <= k < n ==> metas[..n][k] == metas[k];
      IntCountsAreNumbers(metas[..n]);
    }
  }

  /** Every candidate is the count of some tool. */
  lemma {:induction false} CandidateFrom(metas: seq<map<string, Value>>, j: nat) returns (k: nat)
    requires j < |Candidates(metas)|
    ensures k < |metas| && Candidate(metas[k]) == Some(Candidates(metas)[j])
    decreases |metas|
  {
    var n := |metas| - 1;
    var init := Candidates(metas[..n]);
    if j < |init| {
      k := CandidateFrom(metas[..n], j);
      assert metas[..n][k] == metas[k];
    } else {
      k := n;
    }
  }

  // ---------------------------------------------------------- page count

  /** The page count `merge_extractions` computes from three extractors' counts:
      0 when all are 0, otherwise the first of the largest non-zero ones. */
  lemma ThreeCounts(pl: Extraction, mu: Extraction, da: Extraction)
    ensures var metas := [ExtractorMeta(pl), ExtractorMeta(mu), ExtractorMeta(da)];
      var (a, b, c) := (pl.numPages, mu.numPages, da.numPages);
      var r := PageCount(Candidates(metas));
      && AllNumbers(Candidates(metas))
      && r.Ok? && r.value.Int?
      && (r.value.i == 0 <==> a == 0 && b == 0 && c == 0)
      && (r.value.i == 0 || r.value.i == a || r.value.i == b || r.value.i == c)
      && (a != 0 ==> a <= r.value.i) && (b != 0 ==> b <= r.value.i) && (c != 0 ==> c <= r.value.i)
  {
    var metas := [ExtractorMeta(pl), ExtractorMeta(mu), ExtractorMeta(da)];
    var (a, b, c) := (pl.numPages, mu.numPages, da.numPages);
    var cs := Candidates(metas);
    IntCountsAreNumbers(metas);
    NoCandidates(metas);
    if cs != [] {
      MaxBounds(cs);
      var j := MaxAt(cs).value;
      var k := CandidateFrom(metas, j);
      assert metas[k]["num_pages"] == cs[j];
      if a != 0 { PageCountIsMax(metas, 0); }
      if b != 0 { PageCountIsMax(metas, 1); }
      if c != 0 { PageCountIsMax(metas, 2); }
    } else {
      assert Candidate(metas[0]).None? && Candidate(metas[1]).None? && Candidate(metas[2]).None?;
    }
  }

  // ------------------------------------------------------------ pipeline

  /** A merged dictionary whose lists hold rendered records builds back to
      exactly those records, with the merged `meta` as metadata. */
  lemma BuildRendered(spans: seq<TextSpan>, tables: seq<SpanTable>, tools: seq<Value>, n: int,
                      docId: string, filename: string, sourcePath: string)
    ensures BuildSuperJson(Render(Merged(SpanValues(spans), TableValues(tables), tools, Int(n))), docId, filename, sourcePath)
      == Ok(SpanDocument(docId, filename, sourcePath, n, map["tools_used" := List(tools), "num_pages" := Int(n)], spans, tables))
  {
    var merged := Render(Merged(SpanValues(spans), TableValues(tables), tools, Int(n)));
    var meta := map["tools_used" := List(tools), "num_pages" := Int(n)];
    assert GetOr(merged, "meta", Object(map[])) == Object(meta);
    assert GetOr(meta, "num_pages", Int(0)) == Int(n);
    assert GetOr(merged, "text_spans", List([])) == List(SpanValues(spans));
    assert GetOr(merged, "tables", List([])) == List(TableValues(tables));
    SpansRoundTrip(spans);
    TablesRoundTrip(tables);
  }

  /** The merge of three extractor payloads: their rendered records in tool
      order, the three tool names, and the page count `PageCount` picks from
      the three counts. */
  lemma MergedPayloads(pl: Extraction, mu: Extraction, da: Extraction) returns (n: int)
    ensures Merge([Payload(pl), Payload(mu), Payload(da)])
      == Ok(Merged(SpanValues(pl.spans) + SpanValues(mu.spans) + SpanValues(da.spans),
                   TableValues(pl.tables) + TableValues(mu.tables) + TableValues(da.tables),
                   [Str(pl.tool), Str(mu.tool), Str(da.tool)], Int(n)))
    ensures (n == 0 <==> pl.numPages == 0 && mu.numPages == 0 && da.numPages == 0)
    ensures n == 0 || n == pl.numPages || n == mu.numPages || n == da.numPages
    ensures (pl.numPages != 0 ==> pl.numPages <= n) && (mu.numPages != 0 ==> mu.numPages <= n) && (da.numPages != 0 ==> da.numPages <= n)
  {
    var p1, p2, p3 := Payload(pl), Payload(mu), Payload(da);
    PayloadWellShaped(pl);
    PayloadWellShaped(mu);
    PayloadWellShaped(da);
    ThreeCounts(pl, mu, da);
    MergeExtractionsThree(p1, p2, p3);
    n := Merge([p1, p2, p3]).value.numPages.i;
  }

  /** `merge_extractions` over three extractor payloads renders their
      records concatenated in tool order. */
  lemma MergePayloads(pl: Extraction, mu: Extraction, da: Extraction) returns (n: int)
    ensures MergeExtractions(Payload(pl), Payload(mu), Payload(da))
      == Ok(Render(Merged(SpanValues(pl.spans + mu.spans + da.spans), TableValues(pl.tables + mu.tables + da.tables),
                          [Str(pl.tool), Str(mu.tool), Str(da.tool)], Int(n))))
    ensures (n == 0 <==> pl.numPages == 0 && mu.numPages == 0 && da.numPages == 0)
    ensures (pl.numPages != 0 ==> pl.numPages <= n) && (mu.numPages != 0 ==> mu.numPages <= n) && (da.numPages != 0 ==> da.numPages <= n)
  {
    n := MergedPayloads(pl, mu, da);
    SpanValuesAppend(pl.spans, mu.spans);
    SpanValuesAppend(pl.spans + mu.spans, da.spans);
    TableValuesAppend(pl.tables, mu.tables);
    TableValuesAppend(pl.tables + mu.tables, da.tables);
  }

  /** Merging three extractor payloads and building the document succeeds;
      the document's spans and tables are the extractors' own, concatenated
      pdfplumber first, then PyMuPDF, then Document AI; its page count is 0
      when every extractor reports 0 and otherwise the largest non-zero
      count; its metadata names the three tools. */
  lemma PipelineKeepsContent(pl: Extraction, mu: Extraction, da: Extraction, docId: string, filename: string, sourcePath: string)
    ensures var merged := MergeExtractions(Payload(pl), Payload(mu), Payload(da));
      && merged.Ok?
      && var doc := BuildSuperJson(merged.value, docId, filename, sourcePath);
      && doc.Ok?
      && doc.value.textSpans == pl.spans + mu.spans + da.spans
      && doc.value.tables == pl.tables + mu.tables + da.tables
      && doc.value.metadata["tools_used"] == List([Str(pl.tool), Str(mu.tool), Str(da.tool)])
      && (doc.value.numPages == 0 <==> pl.numPages == 0 && mu.numPages == 0 && da.numPages == 0)
      && (pl.numPages != 0 ==> pl.numPages <= doc.value.numPages)
      && (mu.numPages != 0 ==> mu.numPages <= doc.value.numPages)
      && (da.numPages != 0 ==> da.numPages <= doc.value.numPages)
  {
    var n := MergePayloads(pl, mu, da);
    BuildRendered(pl.spans + mu.spans + da.spans, pl.tables + mu.tables + da.tables,
                  [Str(pl.tool), Str(mu.tool), Str(da.tool)], n, docId, filename, sourcePath);
  }
}
