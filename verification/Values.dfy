/** Values shared by every module: optional results and JSON-like data. */
module Values {

  datatype Option<+T> = None | Some(value: T)

  /** The dynamic values that flow through inputs, outputs and templates. */
  datatype Value =
    | Null
    | Bool(b: bool)
    | Num(n: real)
    | Str(s: string)
    | Arr(items: seq<Value>)
    | Obj(fields: map<string, Value>)

  type Scope = map<string, Value>

  /** How the engine prints a non-string value inside a longer string. */
  type Printer = Value -> string
}
