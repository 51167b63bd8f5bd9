/** Shared value types: an optional value, and the JSON values that travel
    between the browser, the server and the generative provider. */
module Values {

  datatype Option<+T> = None | Some(value: T)

  /** A JSON value as `JSON.parse` produces it; numbers are modelled as reals. */
  datatype Json =
    | JNull
    | JBool(b: bool)
    | JNum(n: real)
    | JStr(s: string)
    | JArr(items: seq<Json>)
    | JObj(fields: map<string, Json>)

  /** A parsed JSON object: the shape every stage result has. */
  type Object = map<string, Json>

  /** Reading `o.key`; an absent key reads as `undefined`, modelled as None. */
  function Field(o: Object, key: string): (r: Option<Json>)
    ensures r.Some? <==> key in o
    ensures r.Some? ==> r.value == o[key]
  {
    if key in o then Some(o[key]) else None
  }

  /** JavaScript truthiness of a value that may be `undefined` (None). */
  predicate Truthy(v: Option<Json>) {
    match v
    case None => false
    case Some(JNull) => false
    case Some(JBool(b)) => b
    case Some(JNum(n)) => n != 0.0
    case Some(JStr(s)) => s != ""
    case Some(_) => true
  }

  /** JavaScript truthiness of a string that may be `undefined` or `null` (None). */
  predicate Present(v: Option<string>) {
    v.Some? && v.value != ""
  }
}
