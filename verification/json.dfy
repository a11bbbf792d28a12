/**
  JSON values as `json.loads` produces them, and the decoder itself as an
  abstract parameter.
 */
module Json {
  import opened Outcomes

  /** A decoded JSON value. Numbers are integers; objects map keys to values
      (with duplicate keys, `json.loads` keeps the last, which a map expresses). */
  datatype Json =
    | Null
    | Bool(b: bool)
    | Num(n: int)
    | Str(s: string)
    | Arr(items: seq<Json>)
    | Obj(fields: map<string, Json>)

  /** `json.loads` applied to a text that the scripts expect to hold an array:
      either the decoded elements, or `None` when decoding raises. */
  type Decoder = string -> Option<seq<Json>>

  /** The one fact about `json.loads` the model relies on: neither the empty
      text nor a lone closing bracket is a JSON document. */
  predicate RejectsDegenerate(decode: Decoder)
  {
    decode("").None? && decode("]").None?
  }

  /** Every element is a dict, so `.get` can be called on each. */
  predicate AllObjects(xs: seq<Json>)
  {
    forall k :: 0 <= k < |xs| ==> xs[k].Obj?
  }

  /** `v.get(key, default)`: `None` when `v` is not a dict, because only
      dicts have a `get` method and the call raises `AttributeError`. */
  function Get(v: Json, key: string, default: Json): (r: Option<Json>)
    ensures r.None? <==> !v.Obj?
    ensures v.Obj? && key in v.fields ==> r == Some(v.fields[key])
    ensures v.Obj? && key !in v.fields ==> r == Some(default)
  {
    match v
    case Obj(fields) => Some(if key in fields then fields[key] else default)
    case _ => None
  }
}
