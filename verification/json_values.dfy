/**
 The parsed JSON values that the player lookup consumes: whatever a JSON
 decoder hands back for a response body.  Objects are maps from field name
 to value; the order of an object's fields is not kept, because nothing in
 the lookup depends on it.
 */
module JsonValues {

  /** A JSON value.  Numbers are kept as integers: a number is never equal to
      a string, so its exact representation does not affect a name lookup. */
  datatype Json =
    | JNull
    | JBool(b: bool)
    | JNumber(n: int)
    | JString(s: string)
    | JArray(items: seq<Json>)
    | JObject(fields: map<string, Json>)

  /** One player's record: a loosely typed mapping of field name to value. */
  type Record = map<string, Json>
}
