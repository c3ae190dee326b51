/** A JSON request body, as Express's JSON parser hands it to a controller. */
module Json {
  import opened Js

  datatype JsonValue =
    | JNull
    | JBool(b: bool)
    | JNumber(n: real)
    | JString(s: string)
    | JArray(items: seq<JsonValue>)
    | JObject(fields: map<string, JsonValue>)

  /** `body[name]`: undefined unless `body` is an object with that key. */
  function Field(body: JsonValue, name: string): (r: Opt<JsonValue>)
    ensures r.Defined? <==> body.JObject? && name in body.fields
    ensures r.Defined? ==> r.value == body.fields[name]
  {
    if body.JObject? && name in body.fields then Defined(body.fields[name]) else Undefined
  }

  /** The object `fields`, plus `name` when `v` is defined: how an optional
      property is written into a request body. */
  function WithOptional(fields: map<string, JsonValue>, name: string, v: Opt<JsonValue>): (r: map<string, JsonValue>)
    ensures v.Defined? ==> r == fields[name := v.value]
    ensures v.Undefined? ==> r == fields
  {
    if v.Defined? then fields[name := v.value] else fields
  }
}
