/** The dictionaries the `pdf_ingestion` extractors return: a `meta` map
    with the page count and the tool name, the text spans and the tables,
    every record in its plain-dictionary form. An extraction is built as a
    typed value and then rendered into that form. */
module SpanPayload {
  import opened Wrappers
  import opened PyValue
  import opened SpanSchema

  /** The content of an extractor's result before it is put in dictionaries. */
  datatype Extraction = Extraction(numPages: int, tool: string, spans: seq<TextSpan>, tables: seq<SpanTable>)

  function BoxValue(bbox: Option<seq<real>>): (v: Value)
    ensures bbox.None? <==> v == Null
  {
    match bbox
    case None => Null
    case Some(xs) => List(seq(|xs|, k requires 0 <= k < |xs| => Float(xs[k])))
  }

  /** `{"page": .., "text": .., "bbox": .., "source": ..}`. */
  function SpanDict(s: TextSpan): map<string, Value> {
    map["page" := Int(s.page), "text" := Str(s.text), "bbox" := BoxValue(s.bbox), "source" := Str(s.source)]
  }

  /** `{"row": .., "col": .., "text": ..}`. */
  function CellDict(c: SpanCell): map<string, Value> {
    map["row" := Int(c.row), "col" := Int(c.col), "text" := Str(c.text)]
  }

  function CellValues(cs: seq<SpanCell>): (vs: seq<Value>)
    ensures |vs| == |cs|
    ensures forall k :: 0 <= k < |cs| ==> vs[k] == Object(CellDict(cs[k]))
  {
    seq(|cs|, k requires 0 <= k < |cs| => Object(CellDict(cs[k])))
  }

  /** `{"page": .., "cells": [..], "source": ..}`. */
  function TableDict(t: SpanTable): map<string, Value> {
    map["page" := Int(t.page), "cells" := List(CellValues(t.cells)), "source" := Str(t.source)]
  }

  function SpanValues(ss: seq<TextSpan>): (vs: seq<Value>)
    ensures |vs| == |ss|
    ensures forall k :: 0 <= k < |ss| ==> vs[k] == Object(SpanDict(ss[k]))
  {
    seq(|ss|, k requires 0 <= k < |ss| => Object(SpanDict(ss[k])))
  }

  function TableValues(ts: seq<SpanTable>): (vs: seq<Value>)
    ensures |vs| == |ts|
    ensures forall k :: 0 <= k < |ts| ==> vs[k] == Object(TableDict(ts[k]))
  {
    seq(|ts|, k requires 0 <= k < |ts| => Object(TableDict(ts[k])))
  }

  /** `{"meta": {"num_pages": .., "tool": ..}, "text_spans": [..], "tables": [..]}`. */
  function Payload(e: Extraction): map<string, Value> {
    map[
      "meta" := Object(map["num_pages" := Int(e.numPages), "tool" := Str(e.tool)]),
      "text_spans" := List(SpanValues(e.spans)),
      "tables" := List(TableValues(e.tables))]
  }

  /** A span in dictionary form validates back to the same span. */
  lemma SpanRoundTrip(s: TextSpan)
    ensures ValidateTextSpan(SpanDict(s)) == Ok(s)
  {
    var d := SpanDict(s);
    if s.bbox.Some? {
      var xs := s.bbox.value;
      var v := BoxValue(s.bbox);
      assert forall k :: 0 <= k < |xs| ==> FloatItem(v.items[k]) == Some(xs[k]);
      var ys := seq(|v.items|, k requires 0 <= k < |v.items| => FloatItem(v.items[k]).value);
      assert ys == xs;
    }
  }

  /** A cell in dictionary form validates back to the same cell. */
  lemma CellRoundTrip(c: SpanCell)
    ensures ValidateCell(CellDict(c)) == Ok(c)
  {
  }
}
