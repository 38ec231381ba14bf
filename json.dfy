/**
 * A JSON document as Python's `json` module hands it over: the parsed value,
 * not its text.  Objects are maps from keys to values (key order is not kept).
 */
module Json {

  datatype Json =
    | JNull
    | JBool(b: bool)
    | JNum(n: real)
    | JStr(s: string)
    | JArr(items: seq<Json>)
    | JObj(fields: map<string, Json>)

  /** Python truthiness of the value (`not v` is `!Truthy(v)`). */
  predicate Truthy(v: Json)
  {
    match v
    case JNull => false
    case JBool(b) => b
    case JNum(n) => n != 0.0
    case JStr(s) => s != ""
    case JArr(items) => items != []
    case JObj(fields) => fields != map[]
  }

  /** `d.get(key)` on a dict: `None` (JSON null) when the key is missing. */
  function Get(d: map<string, Json>, key: string): (v: Json)
    ensures key in d ==> v == d[key]
    ensures key !in d ==> v == JNull
  {
    if key in d then d[key] else JNull
  }
}
