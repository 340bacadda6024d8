/** JSON values as the backend and the web client see them after parsing, plus the
    optional value used throughout the project. */
module Json {
  datatype Option<+T> = None | Some(value: T)

  /** A parsed number keeps the lexical family it was read in: an unsigned integer, a negative
      integer, or a floating-point value (here its exact real value; rounding is not modelled). */
  datatype Number = PosInt(n: nat) | NegInt(i: int) | Float(x: real)

  /** Object fields form a map: the parsers used here keep one value per key. */
  datatype Value =
    | JNull
    | JBool(b: bool)
    | JNumber(number: Number)
    | JString(text: string)
    | JArray(items: seq<Value>)
    | JObject(fields: map<string, Value>)

  function Get(v: Value, key: string): (r: Option<Value>)
  {
    if v.JObject? && key in v.fields then Some(v.fields[key]) else None
  }
}
