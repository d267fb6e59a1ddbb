/** `merge_extractions` of the `pdf_ingestion` pipeline: the three extractor
    payloads, in the order pdfplumber, PyMuPDF, Document AI, are
    concatenated span list after span list and table list after table list;
    the page count is the largest truthy count any tool reports, and the
    tools' own names are collected. */
module ExtractionMerging {
  import opened Wrappers
  import opened PyValue

  /** `data.get("text_spans", [])` (or "tables") as the items it contributes. */
  function Items(data: map<string, Value>, key: string): (r: Result<seq<Value>, Error>)
    ensures key !in data ==> r == Ok([])
    ensures key in data && data[key].List? ==> r == Ok(data[key].items)
  {
    Iterate(GetOr(data, key, List([])))
  }

  /** `data.get("meta", {})`, which must be a dictionary: every other value
      makes `meta.get("tool")` raise. */
  function Meta(data: map<string, Value>): (r: Result<map<string, Value>, Error>)
    ensures r.Ok? <==> "meta" !in data || data["meta"].Object?
    ensures r.Ok? && "meta" !in data ==> r.value == map[]
    ensures r.Ok? && "meta" in data ==> r.value == data["meta"].fields
  {
    var m := GetOr(data, "meta", Object(map[]));
    if m.Object? then Ok(m.fields) else Err(TypeError("meta is not a dict"))
  }

  /** The page count a tool contributes: `meta["num_pages"]` when that key
      is present and its value truthy. */
  function Candidate(meta: map<string, Value>): (c: Option<Value>)
    ensures c.Some? <==> "num_pages" in meta && Truthy(meta["num_pages"])
    ensures c.Some? ==> c.value == meta["num_pages"]
  {
    if "num_pages" in meta && Truthy(meta["num_pages"]) then Some(meta["num_pages"]) else None
  }

  /** The contributed counts, in tool order. */
  function Candidates(metas: seq<map<string, Value>>): (cs: seq<Value>)
    ensures |cs| <= |metas|
    ensures forall k :: 0 <= k < |cs| ==> Truthy(cs[k])
  {
    if metas == [] then []
    else
      var n := |metas| - 1;
      var c := Candidate(metas[n]);
      Candidates(metas[..n]) + (if c.Some? then [c.value] else [])
  }

  // ------------------------------------------------------------ comparison

  /** Values Python orders numerically: `bool`, `int` and `float`. */
  predicate IsNumber(v: Value) {
    v.Bool? || v.Int? || v.Float?
  }

  /** The numeric value of a number (`True` is 1). */
  function Num(v: Value): real
    requires IsNumber(v)
  {
    match v
    case Bool(b) => if b then 1.0 else 0.0
    case Int(i) => i as real
    case Float(r) => r
  }

  /** Python's `<` on strings: code point by code point, a proper prefix first. */
  predicate StrLess(x: string, y: string)
    decreases |x|
  {
    if y == [] then false
    else if x == [] then true
    else if x[0] != y[0] then x[0] < y[0]
    else StrLess(x[1..], y[1..])
  }

  /** `a > b` as `max` evaluates it: numbers compare numerically, strings
      lexicographically, and any other pairing raises. */
  function Greater(a: Value, b: Value): (r: Result<bool, Error>)
    ensures IsNumber(a) && IsNumber(b) ==> r == Ok(Num(a) > Num(b))
    ensures a.Str? && b.Str? ==> r == Ok(StrLess(b.s, a.s))
    ensures r.Ok? <==> (IsNumber(a) && IsNumber(b)) || (a.Str? && b.Str?)
  {
    if IsNumber(a) && IsNumber(b) then Ok(Num(a) > Num(b))
    else if a.Str? && b.Str? then Ok(StrLess(b.s, a.s))
    else Err(TypeError("'>' not supported"))
  }

  /** The position of `max(cs)`: the running maximum is replaced only by a
      strictly greater item, so a single candidate is returned without any
      comparison and the first of several equal maxima is kept. */
  function MaxAt(cs: seq<Value>): (r: Result<nat, Error>)
    requires cs != []
    ensures r.Ok? ==> r.value < |cs|
  {
    if |cs| == 1 then Ok(0)
    else
      var n := |cs| - 1;
      var m :- MaxAt(cs[..n]);
      var gt :- Greater(cs[n], cs[m]);
      Ok(if gt then n else m)
  }

  /** Every value is a number. */
  predicate AllNumbers(cs: seq<Value>) {
    forall k :: 0 <= k < |cs| ==> IsNumber(cs[k])
  }

  /** `cs[j]` is the first of the largest numbers of `cs`. */
  predicate FirstLargest(cs: seq<Value>, j: nat)
    requires AllNumbers(cs) && j < |cs|
  {
    && (forall k :: 0 <= k < |cs| ==> Num(cs[k]) <= Num(cs[j]))
    && (forall k :: 0 <= k < j ==> Num(cs[k]) < Num(cs[j]))
  }

  /** Over numbers `max` cannot fail, and it picks the first of the largest
      candidates. */
  lemma {:induction false} MaxOfNumbers(cs: seq<Value>)
    requires cs != [] && AllNumbers(cs)
    ensures MaxAt(cs).Ok? && FirstLargest(cs, MaxAt(cs).value)
    decreases |cs|
  {
    if |cs| > 1 {
      var n := |cs| - 1;
      var init := cs[..n];
      assert forall k :: 0 <= k < n ==> init[k] == cs[k];
      MaxOfNumbers(init);
      MaxStep(cs, MaxAt(init).value);
    }
  }

  lemma MaxStep(cs: seq<Value>, m: nat)
    requires |cs| > 1 && AllNumbers(cs) && m < |cs| - 1
    requires AllNumbers(cs[..|cs| - 1]) && FirstLargest(cs[..|cs| - 1], m)
    requires MaxAt(cs[..|cs| - 1]) == Ok(m)
    ensures MaxAt(cs).Ok? && FirstLargest(cs, MaxAt(cs).value)
  {
    var n := |cs| - 1;
    assert forall k :: 0 <= k < n ==> cs[..n][k] == cs[k];
    assert Greater(cs[n], cs[m]) == Ok(Num(cs[n]) > Num(cs[m]));
  }

  /** `max(candidates) if candidates else 0`. */
  function PageCount(cs: seq<Value>): (r: Result<Value, Error>)
    ensures cs == [] ==> r == Ok(Int(0))
    ensures |cs| == 1 ==> r == Ok(cs[0])
    ensures cs != [] && r.Ok? ==> MaxAt(cs).Ok? && r.value == cs[MaxAt(cs).value]
  {
    if cs == [] then Ok(Int(0))
    else
      var j :- MaxAt(cs);
      Ok(cs[j])
  }

  // ----------------------------------------------------------------- merge

  /** The span and table lists of the payloads, in payload order: the first
      loop of `merge_extractions`. */
  function GatherLists(ds: seq<map<string, Value>>): (r: Result<(seq<Value>, seq<Value>), Error>)
  {
    if ds == [] then Ok(([], []))
    else
      var n := |ds| - 1;
      var acc :- GatherLists(ds[..n]);
      var spans :- Items(ds[n], "text_spans");
      var tables :- Items(ds[n], "tables");
      Ok((acc.0 + spans, acc.1 + tables))
  }

  /** The `meta` dictionaries of the payloads, in payload order. */
  function GatherMetas(ds: seq<map<string, Value>>): (r: Result<seq<map<string, Value>>, Error>)
    ensures r.Ok? <==> forall k :: 0 <= k < |ds| ==> Meta(ds[k]).Ok?
    ensures r.Ok? ==> |r.value| == |ds| && forall k :: 0 <= k < |ds| ==> Meta(ds[k]) == Ok(r.value[k])
  {
    if ds == [] then Ok([])
    else
      var n := |ds| - 1;
      var init := GatherMetas(ds[..n]);
      assert forall k :: 0 <= k < n ==> ds[..n][k] == ds[k];
      if init.Err? then init
      else
        var m :- Meta(ds[n]);
        Ok(init.value + [m])
  }

  /** `[d.get("meta", {}).get("tool") for d in ...]`: one entry per payload,
      `None` where the tool is not named. */
  function Tools(metas: seq<map<string, Value>>): (ts: seq<Value>)
    ensures |ts| == |metas|
    ensures forall k :: 0 <= k < |metas| ==> ts[k] == Get(metas[k], "tool")
  {
    seq(|metas|, k requires 0 <= k < |metas| => Get(metas[k], "tool"))
  }

  /** The content of the merged payload. */
  datatype Merged = Merged(spans: seq<Value>, tables: seq<Value>, toolsUsed: seq<Value>, numPages: Value)

  /** `merge_extractions` over the payloads in the order given. */
  function Merge(ds: seq<map<string, Value>>): (r: Result<Merged, Error>)
    ensures r.Ok? ==> |r.value.toolsUsed| == |ds|
  {
    var lists :- GatherLists(ds);
    var metas :- GatherMetas(ds);
    var numPages :- PageCount(Candidates(metas));
    Ok(Merged(lists.0, lists.1, Tools(metas), numPages))
  }

  /** The merged payload as a dictionary. */
  function Render(m: Merged): map<string, Value> {
    map[
      "meta" := Object(map["tools_used" := List(m.toolsUsed), "num_pages" := m.numPages]),
      "text_spans" := List(m.spans),
      "tables" := List(m.tables)]
  }

  /** `merge_extractions(pdfplumber_data, pymupdf_data, docai_data)`. */
  function MergeExtractions(pdfplumber: map<string, Value>, pymupdf: map<string, Value>, docai: map<string, Value>)
    : (r: Result<map<string, Value>, Error>)
    ensures r.Ok? ==> r.value.Keys == {"meta", "text_spans", "tables"}
    ensures r.Ok? ==> r.value["meta"].Object? && r.value["meta"].fields.Keys == {"tools_used", "num_pages"}
    ensures r.Ok? ==> r.value["meta"].fields["tools_used"].List? && |r.value["meta"].fields["tools_used"].items| == 3
    ensures r.Ok? <==> Merge([pdfplumber, pymupdf, docai]).Ok?
    ensures r.Ok? ==> r.value == Render(Merge([pdfplumber, pymupdf, docai]).value)
  {
    var m :- Merge([pdfplumber, pymupdf, docai]);
    Ok(Render(m))
  }

  // ------------------------------------------------------------ properties

  /** A payload every step of the merge accepts: list-valued (or absent)
      span and table entries and a dictionary (or absent) `meta`. */
  predicate WellShaped(d: map<string, Value>) {
    && ("text_spans" !in d || d["text_spans"].List?)
    && ("tables" !in d || d["tables"].List?)
    && ("meta" !in d || d["meta"].Object?)
  }

  predicate AllWellShaped(ds: seq<map<string, Value>>) {
    forall k :: 0 <= k < |ds| ==> WellShaped(ds[k])
  }

  /** The `meta` of a well-shaped payload. */
  function MetaOf(d: map<string, Value>): map<string, Value>
    requires WellShaped(d)
  {
    if "meta" in d then d["meta"].fields else map[]
  }

  /** The `meta` dictionaries of well-shaped payloads. */
  function MetasOf(ds: seq<map<string, Value>>): (ms: seq<map<string, Value>>)
    requires AllWellShaped(ds)
    ensures |ms| == |ds| && forall k :: 0 <= k < |ds| ==> ms[k] == MetaOf(ds[k])
  {
    seq(|ds|, k requires 0 <= k < |ds| => MetaOf(ds[k]))
  }

  /** The span (or table) list of a payload whose entry is a list or absent. */
  function ListOf(d: map<string, Value>, key: string): seq<Value>
    requires key in d ==> d[key].List?
  {
    if key in d then d[key].items else []
  }

  /** The lists of all payloads, one after the other. */
  function Joined(ds: seq<map<string, Value>>, key: string): (xs: seq<Value>)
    requires key == "text_spans" || key == "tables"
    requires AllWellShaped(ds)
  {
    if ds == [] then [] else Joined(ds[..|ds| - 1], key) + ListOf(ds[|ds| - 1], key)
  }

  /** On well-shaped payloads the first loop cannot fail and concatenates
      every span list and every table list in payload order. */
  lemma {:induction false} GatherWellShaped(ds: seq<map<string, Value>>)
    requires AllWellShaped(ds)
    ensures GatherLists(ds) == Ok((Joined(ds, "text_spans"), Joined(ds, "tables")))
    ensures GatherMetas(ds) == Ok(MetasOf(ds))
    decreases |ds|
  {
    if ds != [] {
      var n := |ds| - 1;
      assert AllWellShaped(ds[..n]) by {
        forall k | 0 <= k < n ensures WellShaped(ds[..n][k]) { assert ds[..n][k] == ds[k]; }
      }
      GatherWellShaped(ds[..n]);
      assert MetasOf(ds) == MetasOf(ds[..n]) + [MetaOf(ds[n])];
    }
  }

  /** With well-shaped payloads the merge fails exactly when `max` cannot
      compare the truthy counts; otherwise spans and tables are the
      payloads' lists concatenated in payload order, `tools_used` holds every
      payload's `meta.tool` (None where absent) and `num_pages` is the page
      count of the truthy counts. */
  lemma MergeWellShaped(ds: seq<map<string, Value>>)
    requires AllWellShaped(ds)
    ensures Merge(ds).Ok? <==> PageCount(Candidates(MetasOf(ds))).Ok?
    ensures Merge(ds).Ok? ==> Merge(ds).value == Merged(
      Joined(ds, "text_spans"), Joined(ds, "tables"), Tools(MetasOf(ds)), PageCount(Candidates(MetasOf(ds))).value)
  {
    GatherWellShaped(ds);
  }

  /** When the truthy counts are numbers the merge of well-shaped payloads
      succeeds. */
  lemma MergeSucceeds(ds: seq<map<string, Value>>)
    requires AllWellShaped(ds) && AllNumbers(Candidates(MetasOf(ds)))
    ensures Merge(ds).Ok?
  {
    MergeWellShaped(ds);
    var cs := Candidates(MetasOf(ds));
    if cs != [] {
      MaxOfNumbers(cs);
    }
  }

  /** The three payloads' lists, concatenated in the order pdfplumber,
      PyMuPDF, Document AI. */
  lemma JoinedThree(a: map<string, Value>, b: map<string, Value>, c: map<string, Value>, key: string)
    requires key == "text_spans" || key == "tables"
    requires WellShaped(a) && WellShaped(b) && WellShaped(c)
    ensures Joined([a, b, c], key) == ListOf(a, key) + ListOf(b, key) + ListOf(c, key)
  {
    assert [a, b, c][..2] == [a, b];
    assert [a, b][..1] == [a];
    assert [a][..0] == [];
    assert Joined([a], key) == ListOf(a, key);
    assert Joined([a, b], key) == ListOf(a, key) + ListOf(b, key);
  }

  /** Over numbers, `max` returns one of the candidates and none is larger. */
  lemma MaxBounds(cs: seq<Value>)
    requires cs != [] && AllNumbers(cs)
    ensures PageCount(cs).Ok? && IsNumber(PageCount(cs).value)
    ensures forall i :: 0 <= i < |cs| ==> Num(cs[i]) <= Num(PageCount(cs).value)
  {
    MaxOfNumbers(cs);
  }

  /** The merged page count is at least every truthy count a tool reports
      (and, by `PageCount`, one of them). */
  lemma PageCountIsMax(metas: seq<map<string, Value>>, k: nat)
    requires AllNumbers(Candidates(metas)) && k < |metas| && Candidate(metas[k]).Some?
    ensures PageCount(Candidates(metas)).Ok?
    ensures CountAtMost(Candidate(metas[k]).value, PageCount(Candidates(metas)).value)
  {
    var i := CandidateListed(metas, k);
    MaxBoundAt(Candidates(metas), i);
  }

  lemma MaxBoundAt(cs: seq<Value>, i: nat)
    requires AllNumbers(cs) && i < |cs|
    ensures PageCount(cs).Ok? && CountAtMost(cs[i], PageCount(cs).value)
  {
    MaxBounds(cs);
  }

  /** `a` and `b` are numbers and `a <= b`. */
  predicate CountAtMost(a: Value, b: Value) {
    IsNumber(a) && IsNumber(b) && Num(a) <= Num(b)
  }

  /** The page count is 0 exactly when no tool reports a truthy count. */
  lemma {:induction false} NoCandidates(metas: seq<map<string, Value>>)
    ensures Candidates(metas) == [] <==> forall k :: 0 <= k < |metas| ==> Candidate(metas[k]).None?
    decreases |metas|
  {
    if metas != [] {
      var n := |metas| - 1;
      NoCandidates(metas[..n]);
      assert forall k :: 0 <= k < n ==> metas[..n][k] == metas[k];
    }
  }

  /** A tool's truthy count is among the candidates, at position `j`. */
  lemma {:induction false} CandidateListed(metas: seq<map<string, Value>>, k: nat) returns (j: nat)
    requires k < |metas| && Candidate(metas[k]).Some?
    ensures j < |Candidates(metas)| && Candidates(metas)[j] == Candidate(metas[k]).value
    decreases |metas|
  {
    var n := |metas| - 1;
    var init := Candidates(metas[..n]);
    if k < n {
      assert metas[..n][k] == metas[k];
      j := CandidateListed(metas[..n], k);
      assert Candidates(metas)[j] == init[j];
    } else {
      j := |init|;
    }
  }

  /** A tool reporting a falsy count (a skipped tool reports 0) contributes
      no candidate, so it cannot change the merged page count. */
  lemma FalsyCountIgnored(metas: seq<map<string, Value>>, meta: map<string, Value>)
    requires "num_pages" in meta ==> !Truthy(meta["num_pages"])
    ensures Candidates(metas + [meta]) == Candidates(metas)
  {
    assert (metas + [meta])[..|metas|] == metas;
  }

  lemma AppendWellShaped(ds: seq<map<string, Value>>, d: map<string, Value>)
    requires AllWellShaped(ds) && WellShaped(d)
    ensures AllWellShaped(ds + [d])
    ensures (ds + [d])[..|ds|] == ds
    ensures MetasOf(ds + [d]) == MetasOf(ds) + [MetaOf(d)]
  {
    var es := ds + [d];
    assert es[..|ds|] == ds;
    assert AllWellShaped(es) by {
      forall k | 0 <= k < |es| ensures WellShaped(es[k]) {
        if k < |ds| { assert es[k] == ds[k]; }
      }
    }
  }

  /** The payload Document AI returns when it is not configured. */
  function SkippedDocAi(): map<string, Value> {
    map[
      "meta" := Object(map["num_pages" := Int(0), "tool" := Str("docai"), "skipped" := Bool(true)]),
      "text_spans" := List([]),
      "tables" := List([])]
  }

  /** Appending a skipped Document AI payload changes nothing but
      `tools_used`, which gains "docai": the merge succeeds exactly when it
      did without it, with the same spans, tables and page count. */
  lemma SkippedDocAiAddsNothing(ds: seq<map<string, Value>>)
    requires AllWellShaped(ds)
    ensures var with := Merge(ds + [SkippedDocAi()]);
      var without := Merge(ds);
      && (with.Ok? <==> without.Ok?)
      && (with.Ok? ==>
        && with.value.spans == without.value.spans
        && with.value.tables == without.value.tables
        && with.value.numPages == without.value.numPages
        && with.value.toolsUsed == without.value.toolsUsed + [Str("docai")])
  {
    var d := SkippedDocAi();
    var es := ds + [d];
    var docaiMeta := map["num_pages" := Int(0), "tool" := Str("docai"), "skipped" := Bool(true)];
    assert WellShaped(d) && MetaOf(d) == docaiMeta;
    AppendWellShaped(ds, d);
    MergeWellShaped(ds);
    MergeWellShaped(es);
    FalsyCountIgnored(MetasOf(ds), docaiMeta);
    assert Tools(MetasOf(es)) == Tools(MetasOf(ds)) + [Str("docai")];
    var s := Joined(ds, "text_spans");
    var t := Joined(ds, "tables");
    assert s + [] == s;
    assert t + [] == t;
  }

  /** `merge_extractions` of three payloads in the fixed tool order: spans
      and tables are concatenated pdfplumber first, then PyMuPDF, then
      Document AI, and `tools_used` lists the three `meta.tool` values. */
  lemma MergeExtractionsThree(pdfplumber: map<string, Value>, pymupdf: map<string, Value>, docai: map<string, Value>)
    requires WellShaped(pdfplumber) && WellShaped(pymupdf) && WellShaped(docai)
    requires AllNumbers(Candidates([MetaOf(pdfplumber), MetaOf(pymupdf), MetaOf(docai)]))
    ensures var r := Merge([pdfplumber, pymupdf, docai]);
      && r.Ok?
      && r.value.spans == ListOf(pdfplumber, "text_spans") + ListOf(pymupdf, "text_spans") + ListOf(docai, "text_spans")
      && r.value.tables == ListOf(pdfplumber, "tables") + ListOf(pymupdf, "tables") + ListOf(docai, "tables")
      && r.value.toolsUsed == [Get(MetaOf(pdfplumber), "tool"), Get(MetaOf(pymupdf), "tool"), Get(MetaOf(docai), "tool")]
      && PageCount(Candidates([MetaOf(pdfplumber), MetaOf(pymupdf), MetaOf(docai)])) == Ok(r.value.numPages)
  {
    var ds := [pdfplumber, pymupdf, docai];
    MetasThree(pdfplumber, pymupdf, docai);
    MergeSucceeds(ds);
    MergeWellShaped(ds);
    ToolsThree(MetaOf(pdfplumber), MetaOf(pymupdf), MetaOf(docai));
    JoinedThree(pdfplumber, pymupdf, docai, "text_spans");
    JoinedThree(pdfplumber, pymupdf, docai, "tables");
  }

  lemma MetasThree(a: map<string, Value>, b: map<string, Value>, c: map<string, Value>)
    requires WellShaped(a) && WellShaped(b) && WellShaped(c)
    ensures AllWellShaped([a, b, c])
    ensures MetasOf([a, b, c]) == [MetaOf(a), MetaOf(b), MetaOf(c)]
  {
  }

  lemma ToolsThree(a: map<string, Value>, b: map<string, Value>, c: map<string, Value>)
    ensures Tools([a, b, c]) == [Get(a, "tool"), Get(b, "tool"), Get(c, "tool")]
  {
  }
}
