/**
 * Values produced by decoding a JSON request body, and the truthiness test
 * that the route handlers apply to them (`not data[field]`).
 */
module JsonValues {

  datatype Json =
    | JNull
    | JBool(b: bool)
    | JInt(i: int)
    | JFloat(f: real)
    | JString(s: string)
    | JArray(items: seq<Json>)
    | JObject(fields: map<string, Json>)

  /** The decoded values Python treats as false in `not v`. */
  const FalsyValues: set<Json> :=
    {JNull, JBool(false), JInt(0), JFloat(0.0), JString(""), JArray([]), JObject(map[])}

  /** Truthiness of a decoded value: exactly null, false, zero, "", [] and {} are falsy. */
  function Truthy(v: Json): (r: bool)
    ensures r <==> v !in FalsyValues
  {
    match v
    case JNull => false
    case JBool(b) => b
    case JInt(i) => i != 0
    case JFloat(f) => f != 0.0
    case JString(s) => s != ""
    case JArray(items) => items != []
    case JObject(fields) => fields != map[]
  }
}
