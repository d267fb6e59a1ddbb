/** `src/models/super_json_schema.py`: the span-based canonical document of
    the `pdf_ingestion` pipeline, and the validation the pydantic models
    apply when a record is built from a dictionary (`Model(**d)`). */
module SpanSchema {
  import opened Wrappers
  import opened PyValue
  import opened Text

  /** `TextSpan`: `bbox` is `[x0, y0, x1, y1]` when known; `source` names
      the extractor and is required. */
  datatype TextSpan = TextSpan(page: int, text: string, bbox: Option<seq<real>>, source: string)

  /** `TableCell` of this pipeline: position and text, no geometry. */
  datatype SpanCell = SpanCell(row: int, col: int, text: string)

  datatype SpanTable = SpanTable(page: int, cells: seq<SpanCell>, source: string)

  datatype SpanDocument = SpanDocument(
    docId: string,
    filename: string,
    sourcePath: string,
    numPages: int,
    metadata: map<string, Value>,
    textSpans: seq<TextSpan>,
    tables: seq<SpanTable>)

  /** A span with the declared default: no bounding box. */
  function NewTextSpan(page: int, text: string, source: string): TextSpan {
    TextSpan(page, text, None, source)
  }

  // ------------------------------------------------------ field validation

  /** An `int` field in pydantic's lax mode: integers, booleans, floats
      without a fractional part and strings holding an integer. */
  function IntField(v: Value, field: string): (r: Result<int, Error>)
    ensures v.Int? ==> r == Ok(v.i)
    ensures v.Bool? ==> r == Ok(if v.b then 1 else 0)
    ensures v.Float? ==> (r.Ok? <==> v.r == v.r.Floor as real) && (r.Ok? ==> r.value as real == v.r)
    ensures v.Str? ==> (r.Ok? <==> ParseInt(v.s).Some?) && (r.Ok? ==> ParseInt(v.s) == Some(r.value))
    ensures v.Null? || v.List? || v.Object? ==> r == Err(ValidationError(field))
  {
    match v
    case Int(i) => Ok(i)
    case Bool(b) => Ok(if b then 1 else 0)
    case Float(x) => if x == x.Floor as real then Ok(x.Floor) else Err(ValidationError(field))
    case Str(s) => if ParseInt(s).Some? then Ok(ParseInt(s).value) else Err(ValidationError(field))
    case _ => Err(ValidationError(field))
  }

  /** A `str` field: only strings are accepted. */
  function StrField(v: Value, field: string): (r: Result<string, Error>)
    ensures r.Ok? <==> v.Str?
    ensures r.Ok? ==> r.value == v.s
  {
    if v.Str? then Ok(v.s) else Err(ValidationError(field))
  }

  /** A number inside a `List[float]`: integers, floats and booleans, as
      their real values. */
  function FloatItem(v: Value): (x: Option<real>)
    ensures x.Some? <==> v.Int? || v.Float? || v.Bool?
    ensures v.Int? ==> x == Some(v.i as real)
    ensures v.Float? ==> x == Some(v.r)
    ensures v.Bool? ==> x == Some(if v.b then 1.0 else 0.0)
  {
    match v
    case Int(i) => Some(i as real)
    case Float(x) => Some(x)
    case Bool(b) => Some(if b then 1.0 else 0.0)
    case _ => None
  }

  /** An `Optional[List[float]]` field. */
  function BoxField(v: Value): (r: Result<Option<seq<real>>, Error>)
    ensures v.Null? ==> r == Ok(None)
    ensures !v.Null? && !v.List? ==> r.Err?
    ensures v.List? ==> (r.Ok? <==> forall k :: 0 <= k < |v.items| ==> FloatItem(v.items[k]).Some?)
    ensures r.Ok? && r.value.Some? ==>
      && v.List? && |r.value.value| == |v.items|
      && forall k :: 0 <= k < |v.items| ==> FloatItem(v.items[k]) == Some(r.value.value[k])
  {
    match v
    case Null => Ok(None)
    case List(items) =>
      if forall k :: 0 <= k < |items| ==> FloatItem(items[k]).Some? then
        Ok(Some(seq(|items|, k requires 0 <= k < |items| => FloatItem(items[k]).value)))
      else Err(ValidationError("bbox"))
    case _ => Err(ValidationError("bbox"))
  }

  /** A required field: a missing key fails validation. */
  function Required(d: map<string, Value>, key: string): (r: Result<Value, Error>)
    ensures r.Ok? <==> key in d
    ensures r.Ok? ==> r.value == d[key]
  {
    if key in d then Ok(d[key]) else Err(ValidationError(key))
  }

  /** `TextSpan(**d)`: `page`, `text` and `source` are required, `bbox` is
      optional (None when absent); other keys are ignored. */
  function ValidateTextSpan(d: map<string, Value>): (r: Result<TextSpan, Error>)
    ensures r.Ok? <==>
      && "page" in d && IntField(d["page"], "page").Ok?
      && "text" in d && d["text"].Str?
      && ("bbox" in d ==> BoxField(d["bbox"]).Ok?)
      && "source" in d && d["source"].Str?
    ensures r.Ok? ==> IntField(d["page"], "page") == Ok(r.value.page)
    ensures r.Ok? ==> Str(r.value.text) == d["text"] && Str(r.value.source) == d["source"]
    ensures r.Ok? && "bbox" !in d ==> r.value.bbox == None
    ensures r.Ok? && "bbox" in d ==> BoxField(d["bbox"]) == Ok(r.value.bbox)
  {
    var page :- Required(d, "page");
    var page :- IntField(page, "page");
    var text :- Required(d, "text");
    var text :- StrField(text, "text");
    var bbox :- if "bbox" in d then BoxField(d["bbox"]) else Ok(None);
    var source :- Required(d, "source");
    var source :- StrField(source, "source");
    Ok(TextSpan(page, text, bbox, source))
  }

  /** `TableCell(**d)`: `row`, `col` and `text` are required. */
  function ValidateCell(d: map<string, Value>): (r: Result<SpanCell, Error>)
    ensures r.Ok? <==>
      && "row" in d && IntField(d["row"], "row").Ok?
      && "col" in d && IntField(d["col"], "col").Ok?
      && "text" in d && d["text"].Str?
    ensures r.Ok? ==>
      && IntField(d["row"], "row") == Ok(r.value.row)
      && IntField(d["col"], "col") == Ok(r.value.col)
      && Str(r.value.text) == d["text"]
  {
    var row :- Required(d, "row");
    var row :- IntField(row, "row");
    var col :- Required(d, "col");
    var col :- IntField(col, "col");
    var text :- Required(d, "text");
    var text :- StrField(text, "text");
    Ok(SpanCell(row, col, text))
  }
}
