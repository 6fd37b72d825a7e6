/**
 * The JSON values that `JSON.parse` produces and `JSON.stringify` consumes.
 * Numbers are integers here; the text form and its parsing are not modelled.
 */
module Json {
  import opened Common

  datatype Json =
    | JNull
    | JBool(b: bool)
    | JNum(n: int)
    | JStr(s: string)
    | JArr(elems: seq<Json>)
    | JObj(fields: map<string, Json>)

  /** `v?.[key]`: a property of an object; `None` stands for `undefined`. */
  function Get(v: Json, key: string): (r: Option<Json>)
    ensures r.Some? <==> v.JObj? && key in v.fields
    ensures r.Some? ==> r.value == v.fields[key]
  {
    match v
    case JObj(f) => if key in f then Some(f[key]) else None
    case _ => None
  }

  /** JavaScript truthiness of a present value. */
  predicate Truthy(v: Json) {
    match v
    case JNull => false
    case JBool(b) => b
    case JNum(n) => n != 0
    case JStr(s) => s != []
    case _ => true
  }

  /** `typeof v === "string"` on a possibly missing value. */
  predicate IsStr(v: Option<Json>) { v.Some? && v.value.JStr? }

  /** `typeof v === "number"` */
  predicate IsNum(v: Option<Json>) { v.Some? && v.value.JNum? }

  /** `Array.isArray(v)` */
  predicate IsArr(v: Option<Json>) { v.Some? && v.value.JArr? }
}
