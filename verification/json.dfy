/**
 * Decoded JSON values, as `json.loads` hands them to the backend.
 *
 * `json.loads` itself is not modelled: every operation that decodes receives
 * a `Decoder`, an arbitrary partial function from text to a value, where
 * `None` stands for `JSONDecodeError`. The helpers below give the Python
 * meaning of the few operations the backend applies to decoded values.
 */
module Json {
  import opened Base

  datatype Json =
    | JNull
    | JBool(b: bool)
    | JNum(n: real)
    | JStr(s: string)
    | JArr(items: seq<Json>)
    | JObj(fields: map<string, Json>)

  type Decoder = string -> Option<Json>

  /** Python `len(v)`: defined on strings, lists and dicts; anything else raises TypeError. */
  function PyLen(v: Json): (r: Option<nat>)
    ensures r.Some? <==> (v.JStr? || v.JArr? || v.JObj?)
  {
    match v
    case JStr(s) => Some(|s|)
    case JArr(items) => Some(|items|)
    case JObj(fields) => Some(|fields|)
    case _ => None
  }

  /** Python truthiness of a decoded value. */
  predicate Truthy(v: Json) {
    match v
    case JNull => false
    case JBool(b) => b
    case JNum(n) => n != 0.0
    case JStr(s) => |s| > 0
    case JArr(items) => |items| > 0
    case JObj(fields) => |fields| > 0
  }

  /** Python `d.get(k)`: a missing key reads as None, which is what JSON null decodes to. */
  function Get(d: map<string, Json>, k: string): Json {
    if k in d then d[k] else JNull
  }

  /** True when `v` is one of the three confidence label strings. */
  predicate IsLabel(v: Json) {
    v.JStr? && IsConfidenceLabel(v.s)
  }
}
