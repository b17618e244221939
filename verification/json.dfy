/** Decoded JSON values, as the question pipeline receives them from the
    chat model and the Bloom classifier and hands them back to its caller. */
module JsonValues {

  /** A value that may be absent: `None` stands for a JSON decode that raised. */
  datatype Option<+T> = None | Some(value: T)

  /** A decoded JSON document. Numbers keep their decimal text, since the
      pipeline only passes them through; an object maps each key to its value. */
  datatype Json =
    | JNull
    | JBool(b: bool)
    | JNumber(text: string)
    | JString(s: string)
    | JArray(items: seq<Json>)
    | JObject(fields: map<string, Json>)

  /** Python's `d.get(key, default)` on a dict. */
  function Get(fields: map<string, Json>, key: string, default: Json): Json
  {
    if key in fields then fields[key] else default
  }
}
