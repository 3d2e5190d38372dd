/** The JSON values through which the session passes IPP attributes (Qt's QJsonValue and
    QJsonObject), with the conversions the session applies to them. */
module Json {

  /** A JSON value. Qt tells Null from Undefined; every conversion below (toObject, toArray,
      toString, toInt) treats the two alike, so one constructor stands for both. Numbers
      carried by the session are integers. */
  datatype JsonValue =
    | JNull
    | JBool(b: bool)
    | JNum(n: int)
    | JStr(s: string)
    | JArr(items: seq<JsonValue>)
    | JObj(fields: map<string, JsonValue>)

  /** A JSON object: each name maps to one value. */
  type JsonObject = map<string, JsonValue>

  /** QJsonValue::toObject: the object, or the empty object for any other value. */
  function AsObject(v: JsonValue): JsonObject {
    if v.JObj? then v.fields else map[]
  }

  /** QJsonValue::toArray: the array, or the empty array for any other value. */
  function AsArray(v: JsonValue): seq<JsonValue> {
    if v.JArr? then v.items else []
  }

  /** QJsonValue::toString: the string, or "" for any other value. */
  function AsString(v: JsonValue): string {
    if v.JStr? then v.s else ""
  }

  predicate IsInt32(n: int) {
    -0x8000_0000 <= n < 0x8000_0000
  }

  /** QJsonValue::toInt: a number that fits a 32-bit int, otherwise 0. */
  function AsInt(v: JsonValue): (n: int)
    ensures IsInt32(n)
  {
    if v.JNum? && IsInt32(v.n) then v.n else 0
  }

  /** Reading `key` of an object: its value, or null when it is absent. */
  function Field(o: JsonObject, key: string): JsonValue {
    if key in o then o[key] else JNull
  }
}
