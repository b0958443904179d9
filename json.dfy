/** Decoded JSON, as `json.loads` hands it to the event and webhook code.
    Floating-point numbers are not modelled. */
module Json {

  datatype Json =
    | JNull
    | JBool(b: bool)
    | JInt(i: int)
    | JStr(s: string)
    | JList(items: seq<Json>)
    | JObj(fields: map<string, Json>)

  /** Python truthiness: None, False, 0, "" and empty containers are false. */
  predicate Truthy(j: Json) {
    match j
    case JNull => false
    case JBool(b) => b
    case JInt(i) => i != 0
    case JStr(s) => s != ""
    case JList(items) => items != []
    case JObj(fields) => fields != map[]
  }

  /** Python `j == 0`: `False == 0` holds as well, since bool is an int. */
  predicate EqualsZero(j: Json) {
    j == JInt(0) || j == JBool(false)
  }
}
