/** Decoded JSON values as the Python code sees them after `json.load` / `response.json()`. */
module JsonValues {

  datatype Json =
    | JNull
    | JBool(b: bool)
    | JInt(n: int)
    | JString(s: string)
    | JArray(items: seq<Json>)
    | JObject(fields: map<string, Json>)

  /** Python truthiness (`if x:`): None, False, 0 and empty containers are false. */
  predicate Truthy(j: Json) {
    match j
    case JNull => false
    case JBool(b) => b
    case JInt(n) => n != 0
    case JString(s) => s != []
    case JArray(xs) => xs != []
    case JObject(m) => m != map[]
  }

  /** `d.get(key, default)`. */
  function Get(m: map<string, Json>, key: string, default: Json): (r: Json)
    ensures key in m ==> r == m[key]
    ensures key !in m ==> r == default
  {
    if key in m then m[key] else default
  }
}
