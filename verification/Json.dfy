/** JSON values as the runtime holds them: an object's members by name, numbers integral or not. */
module Json {
  datatype Number = Integral(i: int) | Fractional(f: real)

  datatype Value =
    | Null
    | Bool(b: bool)
    | Num(n: Number)
    | String(s: string)
    | Array(items: seq<Value>)
    | Object(members: map<string, Value>)
}
