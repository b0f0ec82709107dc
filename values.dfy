/**
 * Decoded JSON values as the Python services see them after `json.loads`:
 * objects are dictionaries keyed by strings. Floating-point numbers are not
 * part of this model.
 */
module Values {
  datatype Value =
    | Null
    | Bool(b: bool)
    | Int(i: int)
    | Str(s: string)
    | List(items: seq<Value>)
    | Object(fields: map<string, Value>)

  /** A JSON object: one stored document, one request, one filter. */
  type Record = map<string, Value>

  /** `d.get(k)`: the field's value, None when the field is absent. */
  function Get(r: Record, k: string): Value {
    if k in r then r[k] else Null
  }

  /** Python truthiness: None, False, 0, and empty strings, lists and dictionaries are false. */
  predicate Truthy(v: Value) {
    match v
    case Null => false
    case Bool(b) => b
    case Int(i) => i != 0
    case Str(s) => s != []
    case List(xs) => xs != []
    case Object(m) => m != map[]
  }

  /** Whether the value can be a dictionary key: lists and dictionaries raise TypeError. */
  predicate Hashable(v: Value) {
    !v.List? && !v.Object?
  }
}
