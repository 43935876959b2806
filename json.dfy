/**
 * The JSON values that `json.loads` produces and `json.dump` writes, with
 * Python's truthiness. The parser itself is not modelled: callers receive it
 * as a function `parse: string -> Option<Payload>` that answers `None` where
 * `json.loads` raises `JSONDecodeError`.
 */
module Json {
  import opened Wrappers

  /** A JSON number is kept as a `real`; NaN and the infinities are not. */
  datatype Json =
    | JNull
    | JBool(b: bool)
    | JNumber(n: real)
    | JString(s: string)
    | JArray(items: seq<Json>)
    | JObject(fields: map<string, Json>)

  /** A decoded top-level object: the structured payload of a reply. */
  type Payload = map<string, Json>

  /** The uninterpreted `json.loads`. */
  type Parser = string -> Option<Payload>

  /** Python's `bool(v)` on a decoded value: `None`, `False`, zero and empty
      containers are false, everything else is true. */
  predicate Truthy(v: Json) {
    match v
    case JNull => false
    case JBool(b) => b
    case JNumber(n) => n != 0.0
    case JString(s) => s != []
    case JArray(items) => items != []
    case JObject(fields) => fields != map[]
  }

  /** `payload.get(key)` as a condition: a missing key reads as `None`. */
  predicate KeyTruthy(p: Payload, key: string) {
    key in p && Truthy(p[key])
  }
}
