/** A response body as `response.json()` hands it back: a decoded JSON value.
    An object is a map from key to value (a repeated key keeps its last value,
    as `JSON.parse` does). Numbers keep their mathematical value; nothing in
    this model inspects one. */
module Json {
  import opened Wrappers

  datatype Json =
    | JNull
    | JBool(b: bool)
    | JNumber(n: real)
    | JString(s: string)
    | JArray(items: seq<Json>)
    | JObject(fields: map<string, Json>)

  /** The property read `value[key]`: the member's value on an object, and
      `undefined` (None) for a missing member or a non-object value. Reading a
      property of `null` throws instead, so it is left to the caller. */
  function Member(value: Json, key: string): (r: Option<Json>)
    requires !value.JNull?
    ensures !value.JObject? ==> r.None?
    ensures r.Some? ==> r.value in value.fields.Values
    ensures value.JObject? ==> (r.Some? <==> key in value.fields)
    ensures r.Some? ==> value.JObject? && r.value == value.fields[key]
  {
    if value.JObject? && key in value.fields then Some(value.fields[key]) else None
  }

  /** Reading a member after setting it gives the value set, and setting one
      member leaves every other member's reading as it was. */
  lemma MemberAfterSet(fields: map<string, Json>, key: string, value: Json, other: string)
    ensures Member(JObject(fields[key := value]), key) == Some(value)
    ensures other != key ==> Member(JObject(fields[key := value]), other) == Member(JObject(fields), other)
    ensures Member(JObject(fields - {key}), key) == None
  {
  }
}
