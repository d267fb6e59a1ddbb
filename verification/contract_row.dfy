/** The row `insert_contract_metadata_row` builds from an extracted metadata
    dictionary before handing it to BigQuery: most columns are looked up as
    they are, `expiration_email_recipients` is coerced to a list of strings
    (or None) and `is_evergreen` to a boolean (or None). The insert itself,
    the creation timestamp and the JSON rendering are outside the model;
    the last two are parameters. */
module ContractRow {
  import opened Wrappers
  import opened PyValue
  import opened Text

  // -------------------------------------------------------------- str(x)

  /** Python's `str(v)`. Strings are themselves, integers their decimal
      digits, booleans and None their names; floats, lists and dicts use
      Python's `repr`, which is the parameter `reprOf`. */
  function PyStr(v: Value, reprOf: Value -> string): (r: string)
    ensures v.Str? ==> r == v.s
    ensures v.Int? ==> r == IntToString(v.i) && ParseInt(r) == Some(v.i)
    ensures v.Bool? ==> r == (if v.b then "True" else "False")
    ensures v.Null? ==> r == "None"
    ensures v.Float? || v.List? || v.Object? ==> r == reprOf(v)
  {
    match v
    case Str(s) => s
    case Int(i) => IntRoundTrip(i); IntToString(i)
    case Bool(b) => if b then "True" else "False"
    case Null => "None"
    case _ => reprOf(v)
  }

  // ---------------------------------------------------------- recipients

  /** The recipients coercion: None (absent or bound to None) stays None, a
      list becomes the list of its items' `str`, and any other value becomes
      a one-element list of its `str`. */
  function CoerceRecipients(v: Value, reprOf: Value -> string): (r: Option<seq<string>>)
    ensures r.None? <==> v.Null?
    ensures v.List? ==>
      r.Some? && |r.value| == |v.items| && forall k :: 0 <= k < |v.items| ==> r.value[k] == PyStr(v.items[k], reprOf)
    ensures !v.Null? && !v.List? ==> r == Some([PyStr(v, reprOf)])
  {
    if v.Null? then None
    else if v.List? then Some(seq(|v.items|, k requires 0 <= k < |v.items| => PyStr(v.items[k], reprOf)))
    else Some([PyStr(v, reprOf)])
  }

  /** The value a coerced recipients column holds: None or a list of strings. */
  function RecipientsValue(r: Option<seq<string>>): (v: Value)
    ensures r.None? <==> v.Null?
    ensures r.Some? ==>
      v.List? && |v.items| == |r.value| && forall k :: 0 <= k < |r.value| ==> v.items[k] == Str(r.value[k])
  {
    match r
    case None => Null
    case Some(xs) => List(seq(|xs|, k requires 0 <= k < |xs| => Str(xs[k])))
  }

  /** A list of strings is kept exactly as it is. */
  lemma StringListKept(xs: seq<string>, reprOf: Value -> string)
    ensures CoerceRecipients(RecipientsValue(Some(xs)), reprOf) == Some(xs)
  {
    var v := RecipientsValue(Some(xs));
    var r := CoerceRecipients(v, reprOf);
    assert r.Some? && |r.value| == |xs|;
    forall k | 0 <= k < |xs|
      ensures r.value[k] == xs[k]
    {
      assert v.items[k] == Str(xs[k]);
      assert r.value[k] == PyStr(v.items[k], reprOf);
    }
    assert r.value == xs;
  }

  /** Coercing an already coerced value changes nothing. */
  lemma RecipientsIdempotent(v: Value, reprOf: Value -> string)
    ensures var r := CoerceRecipients(v, reprOf);
      CoerceRecipients(RecipientsValue(r), reprOf) == r
  {
    var r := CoerceRecipients(v, reprOf);
    if r.Some? {
      StringListKept(r.value, reprOf);
    }
  }

  // --------------------------------------------------------- is_evergreen

  /** `v == n` in Python for a number `n`: integers, floats and booleans
      compare by numeric value. */
  predicate NumEquals(v: Value, n: int) {
    match v
    case Int(i) => i == n
    case Float(x) => x == n as real
    case Bool(b) => (if b then 1 else 0) == n
    case _ => false
  }

  /** `v == lit` in Python for a string or integer literal. */
  predicate LiteralMatch(v: Value, lit: Value) {
    if lit.Int? then NumEquals(v, lit.i) else v == lit
  }

  /** `v in literals` for a tuple of string and integer literals. */
  predicate InLiterals(v: Value, literals: seq<Value>) {
    exists k :: 0 <= k < |literals| && LiteralMatch(v, literals[k])
  }

  /** Membership in a tuple of three strings and an integer. */
  lemma InFourLiterals(v: Value, a: string, b: string, c: string, n: int)
    ensures InLiterals(v, [Str(a), Str(b), Str(c), Int(n)]) <==> v == Str(a) || v == Str(b) || v == Str(c) || NumEquals(v, n)
  {
    var lits := [Str(a), Str(b), Str(c), Int(n)];
    if v == Str(a) { assert LiteralMatch(v, lits[0]); }
    if v == Str(b) { assert LiteralMatch(v, lits[1]); }
    if v == Str(c) { assert LiteralMatch(v, lits[2]); }
    if NumEquals(v, n) { assert LiteralMatch(v, lits[3]); }
  }

  const TrueLiterals: seq<Value> := [Str("true"), Str("True"), Str("TRUE"), Int(1)]
  const FalseLiterals: seq<Value> := [Str("false"), Str("False"), Str("FALSE"), Int(0)]

  /** The `is_evergreen` coercion. A boolean passes; the three spellings of
      "true" and the number 1 (as an integer or a float) give true; those of
      "false" and 0 give false; anything else, None included, gives None. */
  function CoerceEvergreen(v: Value): (r: Option<bool>)
    ensures v.Bool? ==> r == Some(v.b)
    ensures r == Some(true) <==>
      v == Bool(true) || v == Str("true") || v == Str("True") || v == Str("TRUE") || v == Int(1) || v == Float(1.0)
    ensures r == Some(false) <==>
      v == Bool(false) || v == Str("false") || v == Str("False") || v == Str("FALSE") || v == Int(0) || v == Float(0.0)
  {
    InFourLiterals(v, "true", "True", "TRUE", 1);
    InFourLiterals(v, "false", "False", "FALSE", 0);
    if v.Bool? then Some(v.b)
    else if InLiterals(v, TrueLiterals) then Some(true)
    else if InLiterals(v, FalseLiterals) then Some(false)
    else if v.Null? then None
    else None
  }

  /** The value a coerced `is_evergreen` column holds. */
  function EvergreenValue(r: Option<bool>): Value {
    if r.Some? then Bool(r.value) else Null
  }

  /** Coercing an already coerced value changes nothing. */
  lemma EvergreenIdempotent(v: Value)
    ensures CoerceEvergreen(EvergreenValue(CoerceEvergreen(v))) == CoerceEvergreen(v)
  {
  }

  // ----------------------------------------------------------------- row

  /** The columns copied from the metadata as they are, in table order. */
  const PassthroughKeys: seq<string> := [
    "supplier_legal_name", "supplier_names", "sap_contract_number", "scipartner",
    "effective_date", "agreement_type", "agreement_names", "parent_document",
    "document_type", "expiration_date", "sap_supplier", "document_url",
    "file_name", "mime_type", "file_source_url"]

  /** The row `insert_contract_metadata_row` inserts. */
  datatype Row = Row(
    docId: string,
    filename: string,
    llmModel: string,
    createdAt: string,
    columns: map<string, Value>,
    isEvergreen: Option<bool>,
    recipients: Option<seq<string>>,
    rawMetadataJson: string)

  /** `insert_contract_metadata_row` up to the insert call. `createdAt` is
      the UTC timestamp taken when the row is built, and `dumps` stands for
      `json.dumps(metadata, ensure_ascii=False)`. Every copied column is the
      metadata's value, or None when the key is absent. */
  function BuildRow(docId: string, filename: string, llmModel: string, metadata: map<string, Value>,
                    createdAt: string, dumps: map<string, Value> -> string, reprOf: Value -> string): (row: Row)
    ensures row.docId == docId && row.filename == filename && row.llmModel == llmModel && row.createdAt == createdAt
    ensures row.columns.Keys == set k | k in PassthroughKeys
    ensures forall k :: k in PassthroughKeys && k in metadata ==> row.columns[k] == metadata[k]
    ensures forall k :: k in PassthroughKeys && k !in metadata ==> row.columns[k] == Null
    ensures row.isEvergreen == CoerceEvergreen(Get(metadata, "is_evergreen"))
    ensures row.recipients == CoerceRecipients(Get(metadata, "expiration_email_recipients"), reprOf)
    ensures row.rawMetadataJson == dumps(metadata)
  {
    Row(docId, filename, llmModel, createdAt,
      map k | k in PassthroughKeys :: Get(metadata, k),
      CoerceEvergreen(Get(metadata, "is_evergreen")),
      CoerceRecipients(Get(metadata, "expiration_email_recipients"), reprOf),
      dumps(metadata))
  }

  /** The keys the row reads. */
  predicate ReadKey(k: string) {
    k in PassthroughKeys || k == "is_evergreen" || k == "expiration_email_recipients"
  }

  /** Keys the row does not read do not matter: two metadata dictionaries
      that agree on every read key give the same row up to the raw JSON. */
  lemma OnlyReadKeysMatter(docId: string, filename: string, llmModel: string, m1: map<string, Value>, m2: map<string, Value>,
                           createdAt: string, dumps: map<string, Value> -> string, reprOf: Value -> string)
    requires forall k :: ReadKey(k) ==> Get(m1, k) == Get(m2, k)
    ensures BuildRow(docId, filename, llmModel, m1, createdAt, dumps, reprOf).(rawMetadataJson := "")
         == BuildRow(docId, filename, llmModel, m2, createdAt, dumps, reprOf).(rawMetadataJson := "")
  {
    var r1 := BuildRow(docId, filename, llmModel, m1, createdAt, dumps, reprOf);
    var r2 := BuildRow(docId, filename, llmModel, m2, createdAt, dumps, reprOf);
    assert r1.columns == r2.columns by {
      forall k | k in PassthroughKeys
        ensures r1.columns[k] == r2.columns[k]
      {
        assert ReadKey(k);
      }
    }
    assert ReadKey("is_evergreen") && ReadKey("expiration_email_recipients");
  }
}
