/**
 * A decoded JSON value, as Python's `json.loads` hands it to the release watcher
 * (the classification oracle's reply, a webhook payload), together with the Python
 * behaviours the watcher applies to such values: truthiness, `dict.get`, `str()`
 * in an f-string, hashing and slicing.
 */
module JsonValue {
  import Text

  /** Numbers are kept as integers; objects as maps from key to value. */
  datatype Json =
    | JNull
    | JBool(b: bool)
    | JNumber(n: int)
    | JString(s: string)
    | JArray(items: seq<Json>)
    | JObject(fields: map<string, Json>)

  /** Python's `bool(value)`. */
  predicate Truthy(j: Json) {
    match j
    case JNull => false
    case JBool(b) => b
    case JNumber(n) => n != 0
    case JString(s) => s != ""
    case JArray(a) => |a| > 0
    case JObject(m) => |m| > 0
  }

  /** `d.get(key, default)`. */
  function Get(d: map<string, Json>, key: string, default: Json): Json {
    if key in d then d[key] else default
  }

  /** Lists and dicts cannot be dictionary keys: looking one up raises `TypeError`. */
  predicate Hashable(j: Json) {
    !j.JArray? && !j.JObject?
  }

  /** Only strings and lists support `value[:n]`; anything else raises `TypeError`. */
  predicate Sliceable(j: Json) {
    j.JString? || j.JArray?
  }

  /** `str(value)`, as an f-string places it in text. */
  function Str(j: Json): string {
    match j
    case JNull => "None"
    case JBool(b) => if b then "True" else "False"
    case JNumber(n) => Text.IntToString(n)
    case JString(s) => s
    case JArray(_) => "[...]"
    case JObject(_) => "{...}"
  }
}
