/**
 * JSON values as Python's json module reads and writes them, and the two
 * dictionary operations the handlers rely on: `dict.get` with a default and
 * truthiness (`if value:`).
 */
module JsonValues {

  /** A JSON value; floats are modelled as reals. */
  datatype Json =
    | JNull
    | JBool(b: bool)
    | JInt(i: int)
    | JReal(r: real)
    | JStr(s: string)
    | JArray(items: seq<Json>)
    | JObj(fields: map<string, Json>)

  /** One stored entry: a JSON object (a Python dict). */
  type Record = map<string, Json>

  /** The contents of urls.json: entry id to entry. */
  type Table = map<string, Record>

  /** `r.get(key, default)` */
  function Get(r: Record, key: string, default: Json): Json
  {
    if key in r then r[key] else default
  }

  /** Python truthiness of a decoded JSON value. */
  predicate Truthy(v: Json)
  {
    match v
    case JNull => false
    case JBool(b) => b
    case JInt(i) => i != 0
    case JReal(r) => r != 0.0
    case JStr(s) => s != ""
    case JArray(items) => items != []
    case JObj(fields) => fields != map[]
  }
}
