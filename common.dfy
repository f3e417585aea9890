/** Values shared by the server view and the page script. */
module Common {

  datatype Option<+T> = None | Some(value: T)

  /** A JSON value as chat_api writes it and the page reads it back: the view only ever
      emits strings and integers. */
  datatype JsonValue = JStr(str: string) | JNum(num: int)

  /** A JSON object: the dictionary the view builds, the object `response.json()` yields. */
  type JsonObject = map<string, JsonValue>

  /** Looking up a property of a JSON object; `None` stands for JavaScript's `undefined`. */
  function Lookup(obj: JsonObject, key: string): (r: Option<JsonValue>)
    ensures r.Some? <==> key in obj
    ensures r.Some? ==> r.value == obj[key]
  {
    if key in obj then Some(obj[key]) else None
  }
}
