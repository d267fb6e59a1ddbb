/** The Python runtime notions the loosely-typed dictionaries of the pipeline
    depend on: a dynamic JSON-like value, the difference between an absent
    key and a key bound to `None`, `dict.get`, and truthiness. */
module PyValue {
  import opened Wrappers

  /** A value of type `Any` as it occurs in metadata dictionaries. Python
      floats are kept as reals: nothing in the modelled code computes on them. */
  datatype Value =
    | Null
    | Bool(b: bool)
    | Int(i: int)
    | Float(r: real)
    | Str(s: string)
    | List(items: seq<Value>)
    | Object(fields: map<string, Value>)

  /** Python's truth value of `v`: `None`, `False`, zero and empty containers are falsy. */
  predicate Truthy(v: Value) {
    match v
    case Null => false
    case Bool(b) => b
    case Int(i) => i != 0
    case Float(r) => r != 0.0
    case Str(s) => s != []
    case List(items) => items != []
    case Object(fields) => fields != map[]
  }

  /** The exceptions the modelled code can raise, by Python class. */
  datatype Error =
    | KeyError(key: string)
    | AttributeError(reason: string)
    | TypeError(reason: string)
    | ValueError(reason: string)
    | ValidationError(field: string)

  /** The messages of the errors raised in more than one place. */
  const NotIterable: string := "'NoneType' object is not iterable"
  const CannotUnpack: string := "not enough values to unpack"
  const NotAMapping: string := "argument after ** must be a mapping"
  const NoGet: string := "object has no attribute 'get'"

  /** One key of a dictionary read by the code: absent, present and bound to
      `None`, or present with a value of the expected type. */
  datatype Slot<+T> = Absent | NoneBound | Given(value: T) {

    /** The key is in the dictionary (whatever it is bound to). */
    predicate Present() {
      !Absent?
    }
  }

  /** `d.get(key)`: the bound value, or `None` when the key is absent. An
      explicit `None` and an absent key read the same. */
  function Get(d: map<string, Value>, key: string): (v: Value)
    ensures key !in d ==> v == Null
    ensures key in d ==> v == d[key]
  {
    if key in d then d[key] else Null
  }

  /** `d.get(key, default)`: the default only when the key is absent, so a
      key bound to `None` reads as `None`. */
  function GetOr(d: map<string, Value>, key: string, default: Value): (v: Value)
    ensures key in d ==> v == d[key]
    ensures key !in d ==> v == default
  {
    if key in d then d[key] else default
  }

  /** The items `for x in v` (and `list.extend(v)`) goes through: a list's
      elements, a string's characters as one-character strings. `None`,
      numbers and booleans are not iterable and raise. An empty dict yields
      nothing; the keys of a non-empty one are not modelled (maps keep no
      insertion order) and it raises here too. */
  function Iterate(v: Value): (r: Result<seq<Value>, Error>)
    ensures v.List? ==> r == Ok(v.items)
    ensures v.Str? ==> r.Ok? && |r.value| == |v.s| && forall k :: 0 <= k < |v.s| ==> r.value[k] == Str([v.s[k]])
    ensures v.Object? ==> (r.Ok? <==> v.fields == map[]) && (r.Ok? ==> r.value == [])
    ensures v.Null? || v.Bool? || v.Int? || v.Float? ==> r.Err?
  {
    match v
    case List(items) => Ok(items)
    case Str(s) => Ok(seq(|s|, k requires 0 <= k < |s| => Str([s[k]])))
    case Object(fields) => if fields == map[] then Ok([]) else Err(TypeError("dict iteration"))
    case _ => Err(TypeError("not iterable"))
  }

  /** `[f(x) for x in v]` runs to its end: `v` is iterable and every item
      converts. */
  predicate AllConvert<T>(v: Value, f: Value -> Result<T, Error>) {
    Iterate(v).Ok? && forall k :: 0 <= k < |Iterate(v).value| ==> f(Iterate(v).value[k]).Ok?
  }

  /** `[f(v) for v in vs]` where `f` may raise: the items are converted in
      order and the first conversion that raises ends the comprehension. */
  function Collect<T>(vs: seq<Value>, f: Value -> Result<T, Error>): (r: Result<seq<T>, Error>)
    ensures r.Ok? <==> forall k :: 0 <= k < |vs| ==> f(vs[k]).Ok?
    ensures r.Ok? ==> |r.value| == |vs| && forall k :: 0 <= k < |vs| ==> f(vs[k]) == Ok(r.value[k])
  {
    if vs == [] then Ok([])
    else
      var n := |vs| - 1;
      var init := Collect(vs[..n], f);
      assert forall k :: 0 <= k < n ==> vs[..n][k] == vs[k];
      if init.Err? then init
      else
        var x :- f(vs[n]);
        Ok(init.value + [x])
  }

  /** Items that each convert make the comprehension yield exactly their
      conversions. */
  lemma CollectEach<T>(vs: seq<Value>, f: Value -> Result<T, Error>, xs: seq<T>)
    requires |vs| == |xs| && forall k :: 0 <= k < |vs| ==> f(vs[k]) == Ok(xs[k])
    ensures Collect(vs, f) == Ok(xs)
  {
    var r := Collect(vs, f);
    forall k | 0 <= k < |vs|
      ensures f(vs[k]).Ok?
    {
      assert f(vs[k]) == Ok(xs[k]);
    }
    assert r.Ok?;
    forall k | 0 <= k < |xs|
      ensures r.value[k] == xs[k]
    {
      assert f(vs[k]) == Ok(r.value[k]) && f(vs[k]) == Ok(xs[k]);
    }
    assert r.value == xs;
  }

  /** A comprehension that raises raises the error of its first item that
      does not convert; every item before it converts. */
  lemma {:induction false} CollectFirstError<T>(vs: seq<Value>, f: Value -> Result<T, Error>) returns (k: nat)
    requires Collect(vs, f).Err?
    ensures k < |vs| && f(vs[k]) == Err(Collect(vs, f).error)
    ensures forall j :: 0 <= j < k ==> f(vs[j]).Ok?
    decreases |vs|
  {
    var n := |vs| - 1;
    var init := Collect(vs[..n], f);
    if init.Err? {
      k := CollectFirstError(vs[..n], f);
      assert vs[..n][k] == vs[k];
      assert forall j :: 0 <= j < k ==> vs[..n][j] == vs[j];
    } else {
      k := n;
      assert forall j :: 0 <= j < n ==> vs[..n][j] == vs[j];
    }
  }
}
