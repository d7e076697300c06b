/** Decoded JSON values. Numbers are integers only: the caption format never
    carries a fractional number in a field the core reads. */
module Json {

  datatype Json =
    | JNull
    | JBool(b: bool)
    | JInt(n: int)
    | JString(s: string)
    | JArray(items: seq<Json>)
    | JObject(fields: map<string, Json>)
}
