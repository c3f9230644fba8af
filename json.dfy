/**
 * Decoded JSON values, as `json.loads` hands them to the checkers, and
 * Python's truthiness test on them.
 */
module Json {
  /** JSON numbers (Python int or float) are kept as reals. */
  datatype Value =
    | Null
    | Bool(b: bool)
    | Number(n: real)
    | Str(s: string)
    | Array(items: seq<Value>)
    | Object(fields: map<string, Value>)

  /** Python's `bool(v)`: None, False, 0, 0.0, "", [] and {} are false, everything else true. */
  predicate Truthy(v: Value) {
    match v
    case Null => false
    case Bool(b) => b
    case Number(n) => n != 0.0
    case Str(s) => s != ""
    case Array(items) => items != []
    case Object(fields) => fields != map[]
  }
}
