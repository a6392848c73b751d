/** The abstract value `json.loads` produces and `json.dumps` consumes.
    Objects are maps from keys to values, so key order is not modelled;
    numbers are integers, which covers every number the campaign encoders
    emit (size ordinals). */
module JsonValue {
  datatype Json =
    | JNull
    | JBool(b: bool)
    | JNum(n: int)
    | JStr(s: string)
    | JArr(items: seq<Json>)
    | JObj(fields: map<string, Json>)
}
