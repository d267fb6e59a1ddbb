/** `build_super_json` of the `pdf_ingestion` pipeline: the merged payload
    becomes a typed span document. Every span and cell dictionary is
    validated as its record; a table takes its page and source from its
    dictionary, with 0 and "unknown" when they are missing. */
module SuperJsonBuilder {
  import opened Wrappers
  import opened PyValue
  import opened Text
  import opened SpanSchema

  /** `n` is `x` with its fractional part dropped, toward zero. */
  predicate Truncates(x: real, n: int) {
    if x >= 0.0 then n as real <= x < n as real + 1.0
    else n as real - 1.0 < x <= n as real
  }

  /** Python's `int(v)`: integers as they are, booleans as 0 or 1, floats
      truncated toward zero, strings holding a decimal integer parsed; any
      other value raises. */
  function IntOf(v: Value): (r: Result<int, Error>)
    ensures v.Int? ==> r == Ok(v.i)
    ensures v.Bool? ==> r == Ok(if v.b then 1 else 0)
    ensures v.Float? ==> r.Ok? && Truncates(v.r, r.value)
    ensures v.Str? ==> (r.Ok? <==> ParseInt(v.s).Some?) && (r.Ok? ==> r.value == ParseInt(v.s).value)
    ensures v.Null? || v.List? || v.Object? ==> r.Err?
  {
    match v
    case Int(i) => Ok(i)
    case Bool(b) => Ok(if b then 1 else 0)
    case Float(x) => Ok(if x >= 0.0 then x.Floor else -((-x).Floor))
    case Str(s) =>
      var p := ParseInt(s);
      if p.Some? then Ok(p.value) else Err(ValueError("invalid literal for int()"))
    case _ => Err(TypeError("int() argument"))
  }

  /** `TextSpan(**v)`: `v` must be a dictionary. */
  function SpanOf(v: Value): (r: Result<TextSpan, Error>)
    ensures !v.Object? ==> r.Err?
    ensures v.Object? ==> r == ValidateTextSpan(v.fields)
  {
    if v.Object? then ValidateTextSpan(v.fields) else Err(TypeError(NotAMapping))
  }

  /** `TableCell(**v)`: `v` must be a dictionary. */
  function CellOf(v: Value): (r: Result<SpanCell, Error>)
    ensures !v.Object? ==> r.Err?
    ensures v.Object? ==> r == ValidateCell(v.fields)
  {
    if v.Object? then ValidateCell(v.fields) else Err(TypeError(NotAMapping))
  }

  /** One table of the loop: `cells` from `table_dict.get("cells", [])`,
      `page` and `source` from the dictionary with the defaults 0 and
      "unknown". `v` must be a dictionary (`table_dict.get` is called). It
      succeeds exactly when the cells iterate and each validates, the page
      is a valid `int` field and the source a string. */
  function TableOf(v: Value): (r: Result<SpanTable, Error>)
    ensures !v.Object? ==> r == Err(AttributeError(NoGet))
    ensures r.Ok? <==>
      && v.Object?
      && AllConvert(GetOr(v.fields, "cells", List([])), CellOf)
      && IntField(GetOr(v.fields, "page", Int(0)), "page").Ok?
      && GetOr(v.fields, "source", Str("unknown")).Str?
    ensures r.Ok? && "page" !in v.fields ==> r.value.page == 0
    ensures r.Ok? && "page" in v.fields ==> IntField(v.fields["page"], "page") == Ok(r.value.page)
    ensures r.Ok? && "source" !in v.fields ==> r.value.source == "unknown"
    ensures r.Ok? && "source" in v.fields ==> v.fields["source"] == Str(r.value.source)
    ensures r.Ok? && "cells" !in v.fields ==> r.value.cells == []
    ensures r.Ok? && "cells" in v.fields && v.fields["cells"].List? ==>
      |r.value.cells| == |v.fields["cells"].items|
      && forall k :: 0 <= k < |r.value.cells| ==> CellOf(v.fields["cells"].items[k]) == Ok(r.value.cells[k])
  {
    if !v.Object? then Err(AttributeError(NoGet))
    else
      var d := v.fields;
      var cellValues :- Iterate(GetOr(d, "cells", List([])));
      var cells :- Collect(cellValues, CellOf);
      var page :- IntField(GetOr(d, "page", Int(0)), "page");
      var source :- StrField(GetOr(d, "source", Str("unknown")), "source");
      Ok(SpanTable(page, cells, source))
  }

  /** `build_super_json(merged_data, doc_id, filename, source_path)`. It
      succeeds exactly when `meta` is a dictionary whose `num_pages` (0 by
      default) converts with `int()`, and every span and every table
      converts. */
  function BuildSuperJson(merged: map<string, Value>, docId: string, filename: string, sourcePath: string)
    : (r: Result<SpanDocument, Error>)
    ensures !GetOr(merged, "meta", Object(map[])).Object? ==> r == Err(AttributeError(NoGet))
    ensures r.Ok? <==>
      && GetOr(merged, "meta", Object(map[])).Object?
      && IntOf(GetOr(GetOr(merged, "meta", Object(map[])).fields, "num_pages", Int(0))).Ok?
      && AllConvert(GetOr(merged, "text_spans", List([])), SpanOf)
      && AllConvert(GetOr(merged, "tables", List([])), TableOf)
    ensures r.Ok? ==> r.value.docId == docId && r.value.filename == filename && r.value.sourcePath == sourcePath
    ensures r.Ok? && "meta" in merged ==> merged["meta"] == Object(r.value.metadata)
    ensures r.Ok? && "meta" !in merged ==> r.value.metadata == map[] && r.value.numPages == 0
    ensures r.Ok? && "meta" in merged && "num_pages" in merged["meta"].fields ==>
      IntOf(merged["meta"].fields["num_pages"]) == Ok(r.value.numPages)
    ensures r.Ok? && "meta" in merged && "num_pages" !in merged["meta"].fields ==> r.value.numPages == 0
    ensures r.Ok? && "text_spans" !in merged ==> r.value.textSpans == []
    ensures r.Ok? && "text_spans" in merged && merged["text_spans"].List? ==>
      Collect(merged["text_spans"].items, SpanOf) == Ok(r.value.textSpans)
    ensures r.Ok? && "tables" !in merged ==> r.value.tables == []
    ensures r.Ok? && "tables" in merged && merged["tables"].List? ==>
      Collect(merged["tables"].items, TableOf) == Ok(r.value.tables)
  {
    var metaValue := GetOr(merged, "meta", Object(map[]));
    if !metaValue.Object? then Err(AttributeError(NoGet))
    else
      var meta := metaValue.fields;
      var numPages :- IntOf(GetOr(meta, "num_pages", Int(0)));
      var spanValues :- Iterate(GetOr(merged, "text_spans", List([])));
      var spans :- Collect(spanValues, SpanOf);
      var tableValues :- Iterate(GetOr(merged, "tables", List([])));
      var tables :- Collect(tableValues, TableOf);
      Ok(SpanDocument(docId, filename, sourcePath, numPages, meta, spans, tables))
  }
}
