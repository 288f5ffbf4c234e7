/**
 * Decoded JSON documents as the Python scripts see them after `json.load`:
 * `null`, booleans, numbers, strings, lists and dicts with string keys.
 */
module JsonValue {

  /** JSON numbers are kept as reals, so `1` and `1.0` compare equal as in Python. */
  datatype Json =
    | JNull
    | JBool(b: bool)
    | JNum(n: real)
    | JStr(s: string)
    | JArr(elems: seq<Json>)
    | JObj(fields: map<string, Json>)

  /** Python truthiness of a decoded JSON value (`bool(value)`). */
  predicate Truthy(j: Json) {
    match j
    case JNull => false
    case JBool(b) => b
    case JNum(n) => n != 0.0
    case JStr(s) => s != []
    case JArr(a) => a != []
    case JObj(m) => m != map[]
  }

  /** `d.get(key, default)` on a dict. */
  function Get(d: map<string, Json>, key: string, default: Json): Json {
    if key in d then d[key] else default
  }

  /** Values Python can put in a `set`: lists and dicts are unhashable. */
  predicate Hashable(j: Json) {
    !j.JArr? && !j.JObj?
  }

  predicate AllHashable(s: seq<Json>) {
    forall i :: 0 <= i < |s| ==> Hashable(s[i])
  }

  const EmptyObject: Json := JObj(map[])
  const EmptyArray: Json := JArr([])
}
