/**
 * Values of the JSON-like dictionaries the service passes around: the parsed language-model
 * response, the partial-update dictionaries of the record store and the serialised place.
 */
module Json {

  import opened Wrappers

  /** One JSON value. A nested object is `Obj`; no operation here looks inside one. */
  datatype Value =
    | Null
    | Bool(b: bool)
    | Int(i: int)
    | Num(r: real)
    | Str(s: string)
    | Arr(items: seq<Value>)
    | Obj

  /** A JSON object: field name to value. */
  type Object = map<string, Value>

  /** True when `v` is a list all of whose elements are strings. */
  predicate IsStrList(v: Value) {
    v.Arr? && forall i :: 0 <= i < |v.items| ==> v.items[i].Str?
  }

  /** The JSON list holding the strings of `s`, in order. */
  function StrList(s: seq<string>): (v: Value)
    ensures IsStrList(v)
    ensures |v.items| == |s|
    ensures forall i :: 0 <= i < |s| ==> v.items[i] == Str(s[i])
  {
    Arr(seq(|s|, i requires 0 <= i < |s| => Str(s[i])))
  }

  /** The strings of a list of strings; the inverse of `StrList`. */
  function Strings(v: Value): (s: seq<string>)
    requires IsStrList(v)
    ensures StrList(s) == v
  {
    seq(|v.items|, i requires 0 <= i < |v.items| => v.items[i].s)
  }

  /** `Strings` undoes `StrList`. */
  lemma StringsOfStrList(s: seq<string>)
    ensures Strings(StrList(s)) == s
  {
  }

  /** A nullable string column as a JSON value: null or the string. */
  function OptStr(o: Option<string>): (v: Value)
    ensures v.Null? <==> o.None?
    ensures o.Some? ==> v == Str(o.value)
  {
    match o
    case None => Null
    case Some(s) => Str(s)
  }

}
