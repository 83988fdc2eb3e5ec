/** The plain key-value trees that `to_dict` produces and `from_dict`
    reads: the Python `dict`, `list`, `str` and `bool` values that are
    later written out as JSON. */
module Values {
  import opened Text

  datatype Value =
    | Str(s: string)
    | Bool(b: bool)
    | List(items: seq<Value>)
    | Object(fields: map<string, Value>)

  /** A Python `list[str]` as a plain value. */
  function StrList(ss: seq<string>): (v: Value)
    ensures v.List? && |v.items| == |ss|
    ensures forall i :: 0 <= i < |ss| ==> v.items[i] == Str(ss[i])
  {
    List(seq(|ss|, i requires 0 <= i < |ss| => Str(ss[i])))
  }

  /** A value that is a list of strings. */
  predicate IsStrList(v: Value) {
    v.List? && forall i :: 0 <= i < |v.items| ==> v.items[i].Str?
  }

  /** The list of strings a value holds, if it is a list of strings. */
  function AsStrings(v: Value): (r: Option<seq<string>>)
    ensures r.Some? ==> v == StrList(r.value)
    ensures r.None? <==> !IsStrList(v)
  {
    if IsStrList(v) then
      var ss := seq(|v.items|, i requires 0 <= i < |v.items| => v.items[i].s);
      assert v.items == StrList(ss).items;
      Some(ss)
    else None
  }

  lemma AsStringsStrList(ss: seq<string>)
    ensures AsStrings(StrList(ss)) == Some(ss)
  {
    var v := StrList(ss);
    assert forall i :: 0 <= i < |v.items| ==> v.items[i].Str?;
    var r := AsStrings(v);
    assert r.Some?;
    assert |r.value| == |ss|;
    forall i | 0 <= i < |ss|
      ensures r.value[i] == ss[i]
    {
      assert StrList(r.value).items[i] == v.items[i];
    }
    assert r.value == ss;
  }

  /** Python's `d[key]` on a value that should be a `dict`: `None` stands
      for the `KeyError` (or `TypeError`) it raises otherwise. */
  function Lookup(v: Value, key: string): (r: Option<Value>)
    ensures r.Some? <==> v.Object? && key in v.fields
    ensures r.Some? ==> r.value == v.fields[key]
  {
    if v.Object? && key in v.fields then Some(v.fields[key]) else None
  }

  /** `d[key]` read as a string. */
  function LookupStr(v: Value, key: string): (r: Option<string>)
    ensures r.Some? <==> v.Object? && key in v.fields && v.fields[key].Str?
    ensures r.Some? ==> v.fields[key] == Str(r.value)
  {
    match Lookup(v, key)
    case Some(Str(s)) => Some(s)
    case _ => None
  }

  /** `d[key]` read as a boolean. */
  function LookupBool(v: Value, key: string): (r: Option<bool>)
    ensures r.Some? <==> v.Object? && key in v.fields && v.fields[key].Bool?
    ensures r.Some? ==> v.fields[key] == Bool(r.value)
  {
    match Lookup(v, key)
    case Some(Bool(b)) => Some(b)
    case _ => None
  }

  /** `d[key]` read as a list of strings. */
  function LookupStrings(v: Value, key: string): (r: Option<seq<string>>)
    ensures r.Some? <==> v.Object? && key in v.fields && IsStrList(v.fields[key])
    ensures r.Some? ==> v.fields[key] == StrList(r.value)
  {
    match Lookup(v, key)
    case Some(w) => AsStrings(w)
    case None => None
  }
}
