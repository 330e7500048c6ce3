/** Decoded JSON values. */
module JsonModel {
  datatype Json =
    | Null | Bool(b: bool) | Int(i: int) | Float(digits: string)
    | Str(s: string) | List(items: seq<Json>) | Object(fields: map<string, Json>)

  type JsonObject = map<string, Json>

  /** `dict.get`: an absent key reads as null. */
  function Get(o: JsonObject, key: string): Json {
    if key in o then o[key] else Null
  }
}
