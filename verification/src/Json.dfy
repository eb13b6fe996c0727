/** JSON values, and an encoder/decoder pair known only by the laws the stream code relies on. */
module Json {
  import opened Wrappers

  datatype Value =
    | Null
    | Bool(b: bool)
    | Num(n: int)
    | Str(s: string)
    | Arr(items: seq<Value>)
    | Obj(fields: map<string, Value>)

  function Get(v: Value, key: string): Option<Value> {
    if v.Obj? && key in v.fields then Some(v.fields[key]) else None
  }

  function GetArray(v: Value, key: string): Option<seq<Value>> {
    match Get(v, key)
    case Some(Arr(items)) => Some(items)
    case _ => None
  }

  function GetString(v: Value, key: string): Option<string> {
    match Get(v, key)
    case Some(Str(s)) => Some(s)
    case _ => None
  }

  datatype Codec = Codec(encode: Value -> string, decode: string -> Option<Value>)

  /** The text of an object: one line, from brace to brace. */
  predicate ObjectText(s: string) {
    |s| >= 2 && s[0] == '{' && s[|s| - 1] == '}' && '\n' !in s
  }

  /** On the given objects decoding undoes encoding. */
  ghost predicate Faithful(c: Codec, v: Value) {
    c.decode(c.encode(v)) == Some(v) && ObjectText(c.encode(v))
  }
}
