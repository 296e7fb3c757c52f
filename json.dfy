/**
 * Decoded JSON values, as `json.loads` hands them to the code: objects are
 * Python dicts keyed by strings, arrays are lists. Floating-point numbers are
 * not part of the model; every JSON number is an integer here.
 */
module Json {
  import opened Wrappers

  datatype Json =
    | JNull
    | JBool(b: bool)
    | JInt(i: int)
    | JStr(s: string)
    | JArr(items: seq<Json>)
    | JObj(fields: map<string, Json>)

  /** Python truthiness of a decoded value (`if value:`). */
  predicate Truthy(j: Json) {
    match j
    case JNull => false
    case JBool(b) => b
    case JInt(i) => i != 0
    case JStr(s) => s != ""
    case JArr(a) => a != []
    case JObj(m) => m != map[]
  }

  /** `obj.get(key)`: the value under `key`, or `None` when absent. */
  function Get(obj: map<string, Json>, key: string): (r: Option<Json>)
    ensures r.Some? <==> key in obj
    ensures r.Some? ==> r.value == obj[key]
  {
    if key in obj then Some(obj[key]) else None
  }

  /** `obj.get(key)` where a missing key reads as JSON null. */
  function GetOrNull(obj: map<string, Json>, key: string): (r: Json)
    ensures key !in obj ==> r == JNull
    ensures key in obj ==> r == obj[key]
  {
    if key in obj then obj[key] else JNull
  }

  /**
   * The text of a string-typed field: `Some(s)` for a JSON string, `None`
   * for anything else (absent, null, or a value of another JSON type).
   */
  function Text(j: Option<Json>): (r: Option<string>)
    ensures r.Some? <==> j.Some? && j.value.JStr?
  {
    match j
    case Some(JStr(s)) => Some(s)
    case _ => None
  }
}
