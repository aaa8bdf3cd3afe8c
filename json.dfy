/** The part of `org.json` the store relies on: a tree of JSON values, the
    accessors that throw `JSONException` (here: return `None`) and the text
    kept in the preference file. */
module Json {
  import opened Wrappers

  datatype Json =
    | JString(str: string)
    | JArray(items: seq<Json>)
    | JObject(fields: map<string, Json>)

  /** `JSONObject.put(key, value)`: a `null` value removes the key. */
  function Put(fields: map<string, Json>, key: string, value: Option<Json>): (r: map<string, Json>)
    ensures value.None? ==> key !in r
    ensures value.Some? ==> key in r && r[key] == value.value
    ensures r.Keys == if value.None? then fields.Keys - {key} else fields.Keys + {key}
  {
    if value.None? then fields - {key} else fields[key := value.value]
  }

  /** `JSONObject.getString(key)`: fails when the key is absent or its value
      is not a string. */
  function GetString(fields: map<string, Json>, key: string): (r: Option<string>)
    ensures r.Some? <==> key in fields && fields[key].JString?
    ensures r.Some? ==> fields[key] == JString(r.value)
  {
    if key in fields && fields[key].JString? then Some(fields[key].str) else None
  }

  /** `JSONObject.getJSONArray(key)`. */
  function GetArray(fields: map<string, Json>, key: string): (r: Option<seq<Json>>)
    ensures r.Some? <==> key in fields && fields[key].JArray?
    ensures r.Some? ==> fields[key] == JArray(r.value)
  {
    if key in fields && fields[key].JArray? then Some(fields[key].items) else None
  }

  /** `JSONArray.getJSONObject(i)`, once the index is known to be in range. */
  function AsObject(j: Json): (r: Option<map<string, Json>>)
    ensures r.Some? <==> j.JObject?
    ensures r.Some? ==> j == JObject(r.value)
  {
    if j.JObject? then Some(j.fields) else None
  }

  /** A string stored in the preference file: either the serialized text of
      a JSON value (`toString()` of it) or text that does not parse. */
  datatype Text = Serialized(doc: Json) | Malformed

  /** `new JSONArray(text)`: succeeds only on the text of an array. */
  function ParseArray(t: Text): (r: Option<seq<Json>>)
    ensures r.Some? <==> t.Serialized? && t.doc.JArray?
    ensures r.Some? ==> t == Serialized(JArray(r.value))
  {
    if t.Serialized? && t.doc.JArray? then Some(t.doc.items) else None
  }
}
