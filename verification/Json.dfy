/**
 * JSON values as trees. A number is seen by two readers: one keeps the literal
 * and accepts only a plain 64-bit integer (exact), the other goes through a
 * float and truncates (trunc); both views are part of the value.
 */
module Json {
  import opened Common

  type Object = map<string, Json>

  datatype Json =
    | Null
    | Bool(b: bool)
    | Num(exact: Option<int>, trunc: int)
    | Str(s: string)
    | Arr(items: seq<Json>)
    | Obj(fields: Object)

  function Get(o: Object, key: string): Json {
    if key in o then o[key] else Null
  }

  /** The string under a key; None when it is absent or not a string. */
  function GetStr(o: Object, key: string): Option<string> {
    match Get(o, key)
    case Str(s) => Some(s)
    case _ => None
  }

  /** A string member, left out when the source value is not a string or is empty. */
  function StrMember(name: string, value: Option<string>): Object {
    if value.Some? && value.value != "" then map[name := Str(value.value)] else map[]
  }

  /** An integer member, left out when zero. */
  function IntMember(name: string, n: int): Object {
    if n == 0 then map[] else map[name := Num(Some(n), n)]
  }
}
