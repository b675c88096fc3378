/** The already-parsed JSON value that `json.load` hands to the extractor. */
module JsonValues {

  /** A JSON value. Objects are maps from keys to values; a repeated key keeps
      its last value, as Python's dict does. Numbers never influence the
      extractor beyond "not a string", so one real-valued case suffices. */
  datatype Json =
    | Null
    | Bool(b: bool)
    | Num(n: real)
    | Str(s: string)
    | Arr(items: seq<Json>)
    | Obj(fields: map<string, Json>)

  /** Python's `d.get(key)`: a missing key reads as `None`, i.e. JSON null. */
  function Field(fields: map<string, Json>, key: string): Json
  {
    if key in fields then fields[key] else Null
  }
}
