/**
 * Scalar JSON values as the Python handlers see them after `json.loads`,
 * with Python's truthiness and `str()` rendering.
 */
module JsonValues {
  import opened Strings

  /** A scalar JSON value: null, true/false, an integer or a string. */
  datatype Value = Null | Bool(b: bool) | Int(n: int) | Str(s: string)

  /** Python truthiness: None, False, 0 and "" are falsy. */
  predicate Truthy(v: Value) {
    match v
    case Null => false
    case Bool(b) => b
    case Int(n) => n != 0
    case Str(s) => s != ""
  }

  /** `d.get(key)`: the value under the key, or None when it is absent. */
  function Get(d: map<string, Value>, key: string): Value
  {
    if key in d then d[key] else Null
  }

  /** Python's `str(v)` (also what an f-string placeholder produces). */
  function Render(v: Value): string
  {
    match v
    case Null => "None"
    case Bool(b) => if b then "True" else "False"
    case Int(n) => IntToString(n)
    case Str(s) => s
  }
}
