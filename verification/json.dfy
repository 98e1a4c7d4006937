/** The loosely typed values a host requirement dict carries, with Python's
    notion of truth: the provider tests every optional field with `if x:`. */
module Json {
  import opened Wrappers

  datatype Json =
    | Null
    | Bool(b: bool)
    | Int(i: int)
    | Str(s: string)
    | List(items: seq<Json>)
    | Object(fields: map<string, Json>)

  /** A Python dict with string keys, such as a host requirement. */
  type Dict = map<string, Json>

  /** Python truth value: None, False, 0, "", [] and {} are falsy. */
  predicate Truthy(v: Json) {
    match v
    case Null => false
    case Bool(b) => b
    case Int(i) => i != 0
    case Str(s) => s != ""
    case List(xs) => xs != []
    case Object(m) => m != map[]
  }

  /** `d.get(key)`: a missing key reads as None. */
  function Get(d: Dict, key: string): Json {
    if key in d then d[key] else Null
  }

  /** The string a value can match in a string-keyed index; any other value
      (None included) matches no key. */
  function AsKey(v: Json): Option<string> {
    if v.Str? then Some(v.s) else None
  }
}
