/**
 * The Python values the ETW events carry once their JSON is loaded: None,
 * booleans, integers and strings, with Python's truthiness, the text an
 * f-string renders, and `dict.get` on a string-keyed dictionary.
 */
module PyValues {
  import opened Text

  datatype PyValue = PyNone | PyBool(b: bool) | PyInt(i: int) | PyStr(s: string)

  /** `bool(v)`. */
  predicate Truthy(v: PyValue) {
    match v
    case PyNone => false
    case PyBool(b) => b
    case PyInt(i) => i != 0
    case PyStr(s) => |s| > 0
  }

  /** `f"{v}"`. */
  function Format(v: PyValue): string
  {
    match v
    case PyNone => "None"
    case PyBool(b) => if b then "True" else "False"
    case PyInt(i) => IntToDecimal(i)
    case PyStr(s) => s
  }

  /** `d.get(k)`: None for a missing key. */
  function Get(d: map<string, PyValue>, k: string): PyValue
  {
    if k in d then d[k] else PyNone
  }

  /** `d.get(k, default)`. */
  function GetOr(d: map<string, PyValue>, k: string, default: PyValue): PyValue
  {
    if k in d then d[k] else default
  }
}
