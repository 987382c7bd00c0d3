/** JSON values as the remote service and the fetchers exchange them. Numbers
    are integers only: no field this core touches carries a fraction. */
module JsonValues {

  datatype Json =
    | JNull
    | JBool(b: bool)
    | JInt(i: int)
    | JStr(s: string)
    | JArr(items: seq<Json>)
    | JObj(fields: map<string, Json>)

  /** A JSON object, i.e. a Python `dict` with string keys. */
  type Object = map<string, Json>

  /** Python truthiness of a decoded JSON value (`if value:`). */
  predicate Truthy(v: Json) {
    match v
    case JNull => false
    case JBool(b) => b
    case JInt(i) => i != 0
    case JStr(s) => |s| > 0
    case JArr(xs) => |xs| > 0
    case JObj(m) => |m| > 0
  }

  /** `o.get(key, default)`. */
  function GetOr(o: Object, key: string, default: Json): Json {
    if key in o then o[key] else default
  }

  /** The entry under `key` is a list whenever it is present, as the remote
      service's documented responses guarantee for their record lists. */
  predicate ListOrAbsent(o: Object, key: string) {
    key in o ==> o[key].JArr?
  }

  /** `o.get(key, [])` for a list-valued entry. */
  function ListAt(o: Object, key: string): seq<Json>
    requires ListOrAbsent(o, key)
  {
    if key in o then o[key].items else []
  }

  /** A list of JSON objects, as the fetchers build their cached payloads. */
  function ObjectsToJson(xs: seq<Object>): (v: Json)
    ensures v.JArr? && |v.items| == |xs|
    ensures forall i | 0 <= i < |xs| :: v.items[i] == JObj(xs[i])
  {
    JArr(seq(|xs|, i requires 0 <= i < |xs| => JObj(xs[i])))
  }
}
