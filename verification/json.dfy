/** Decoded JSON values as Python sees them after `json.loads`: objects are
    dicts, and `d.get(k)` yields `None` both for a missing key and for `null`. */
module Json {

  datatype JsonValue =
    | JNull
    | JBool(b: bool)
    | JInt(n: int)
    | JStr(s: string)
    | JArray(items: seq<JsonValue>)
    | JObject(fields: map<string, JsonValue>)

  /** Python truthiness (`if v:`) of a decoded value. */
  predicate Truthy(v: JsonValue) {
    match v
    case JNull => false
    case JBool(b) => b
    case JInt(n) => n != 0
    case JStr(s) => |s| > 0
    case JArray(items) => |items| > 0
    case JObject(fields) => |fields| > 0
  }

  /** `d.get(key)`. */
  function Get(d: map<string, JsonValue>, key: string): JsonValue {
    if key in d then d[key] else JNull
  }

  /** Whether a value can be a dict key: lists and dicts raise `TypeError: unhashable type`. */
  predicate Hashable(v: JsonValue) {
    !v.JArray? && !v.JObject?
  }
}
