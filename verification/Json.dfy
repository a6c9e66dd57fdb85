/** JSON values, as every part of the model sees them after text parsing. */
module Json {
  datatype Option<+T> = None | Some(value: T)

  /** Object member order is not part of a value; numbers are integers. */
  datatype Json =
    | Null
    | Bool(b: bool)
    | Num(n: int)
    | Str(s: string)
    | Arr(items: seq<Json>)
    | Obj(fields: map<string, Json>)

  type Fields = map<string, Json>

  function Get(m: Fields, key: string): Json {
    if key in m then m[key] else Null
  }

  /** The string under `key`, when there is one. */
  function StrAt(m: Fields, key: string): Option<string> {
    if key in m && m[key].Str? then Some(m[key].s) else None
  }

  /** The object under `key`, when there is one. */
  function ObjAt(m: Fields, key: string): Option<Fields> {
    if key in m && m[key].Obj? then Some(m[key].fields) else None
  }

  function OrElse<T>(o: Option<T>, default: T): T {
    if o.Some? then o.value else default
  }
}
