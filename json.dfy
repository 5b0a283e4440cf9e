/**
 * Parsed JSON values, as the request and response bodies arrive after
 * `JSON.parse`. Numbers are kept as integers: no rule of the core looks
 * at a number beyond its truthiness.
 */
module Json {
  import opened Wrappers

  datatype JsonValue =
    | JNull
    | JBool(b: bool)
    | JNumber(n: int)
    | JString(s: string)
    | JArray(items: seq<JsonValue>)
    | JObject(fields: map<string, JsonValue>)

  /** `v?.key`: the member `key` of an object; absent (undefined) otherwise. */
  function Get(v: JsonValue, key: string): (r: Option<JsonValue>)
    ensures r.Some? <==> v.JObject? && key in v.fields
    ensures r.Some? ==> r.value == v.fields[key]
  {
    match v
    case JObject(fields) => if key in fields then Some(fields[key]) else None
    case _ => None
  }

  /** JavaScript truthiness of a parsed value; `undefined` is falsy. */
  predicate Truthy(v: Option<JsonValue>): (r: bool)
    ensures !r <==> v == None || v == Some(JNull) || v == Some(JBool(false)) || v == Some(JNumber(0)) || v == Some(JString(""))
  {
    match v
    case None => false
    case Some(JNull) => false
    case Some(JBool(b)) => b
    case Some(JNumber(n)) => n != 0
    case Some(JString(s)) => s != ""
    case Some(_) => true
  }
}
