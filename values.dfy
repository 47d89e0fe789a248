/** The values an update mapping may assign. */
module Values {

  /**
   * A JSON-like value. `Undefined` is JavaScript's `undefined`, which an
   * update mapping may hold but the value table never stores.
   */
  datatype Value =
    | Undefined
    | Null
    | Bool(b: bool)
    | Number(n: int)
    | Str(s: string)
    | List(items: seq<Value>)
    | Obj(fields: seq<(string, Value)>)

  /**
   * What the value table stores for an update value: an absent value is
   * written as `null`, every other value (the empty string and arrays
   * included) exactly as given.
   */
  function StoredValue(v: Value): (r: Value)
    ensures r != Undefined
    ensures v != Undefined ==> r == v
    ensures v == Undefined ==> r == Null
  {
    if v.Undefined? then Null else v
  }
}
