/**
  A `serde_json::Value` tree. It is the type of the per-item bag of unknown
  keys and of the response envelopes; numbers are kept as `real`.
 */
module Json {

  datatype Value =
    | Null
    | Bool(b: bool)
    | Number(n: real)
    | Str(s: string)
    | Array(elements: seq<Value>)
    | Object(fields: map<string, Value>)
}
