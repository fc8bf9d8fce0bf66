/** The JSON documents exchanged with WiZ devices, as values rather than text. */
module Json {

  /** A JSON value; numbers are kept as integers, which is all the protocol uses here. */
  datatype Value =
    | Null
    | Bool(b: bool)
    | Number(n: int)
    | Str(s: string)
    | Array(items: seq<Value>)
    | Object(fields: map<string, Value>)
}
