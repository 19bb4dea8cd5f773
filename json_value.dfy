/** The JSON/YAML value tree that Python's json and yaml modules produce:
    dicts, lists, strings, numbers, booleans and None. Python float is
    represented by a mathematical real. */
module JsonValue {

  datatype Option<+T> = None | Some(value: T)

  datatype Result<+T, +E> = Ok(value: T) | Err(error: E)

  datatype Val =
    | Null
    | Bool(b: bool)
    | Int(i: int)
    | Float(f: real)
    | Str(s: string)
    | Arr(items: seq<Val>)
    | Obj(fields: map<string, Val>)

  /** `d.get(key, default)`: a present key gives its value even when that
      value is null; only an absent key gives the default. */
  function GetOr(d: map<string, Val>, key: string, default: Val): (v: Val)
    ensures key in d ==> v == d[key]
    ensures key !in d ==> v == default
  {
    if key in d then d[key] else default
  }

  /** Python truthiness of a value (`if value:`). */
  predicate Truthy(v: Val) {
    match v
    case Null => false
    case Bool(b) => b
    case Int(i) => i != 0
    case Float(f) => f != 0.0
    case Str(s) => s != ""
    case Arr(xs) => xs != []
    case Obj(m) => m != map[]
  }
}
