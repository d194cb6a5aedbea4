/** A decoded JSON document as Python's json module hands it over, and the Python operators the
    trading rules apply to it. */
module PyJson {
  import opened Wrappers

  /** JSON numbers, integral or not, are one variant: the rules only compare them with constants. */
  datatype Json =
    | Null
    | Bool(b: bool)
    | Num(n: real)
    | Str(s: string)
    | Arr(items: seq<Json>)
    | Obj(fields: map<string, Json>)

  /** `v[key]`: the entry of a dict; None for the KeyError of a missing key and for the TypeError
      any other kind of value raises. */
  function Subscript(v: Json, key: string): Option<Json> {
    if v.Obj? && key in v.fields then Some(v.fields[key]) else None
  }

  /** The numeric value of `v`; `bool` is a subclass of `int` in Python, so True is 1. */
  function AsNumber(v: Json): Option<real> {
    match v
    case Num(n) => Some(n)
    case Bool(b) => Some(if b then 1.0 else 0.0)
    case _ => None
  }

  /** `v == c`: never raises; a value that is not a number is unequal to every number. */
  predicate NumberEquals(v: Json, c: real) {
    AsNumber(v) == Some(c)
  }

  /** `v <= c`: None for the TypeError ordering a non-number against a number raises. */
  function AtMost(v: Json, c: real): Option<bool> {
    var n :- AsNumber(v);
    Some(n <= c)
  }

  /** `v > c`, raising like AtMost. */
  function Above(v: Json, c: real): Option<bool> {
    var n :- AsNumber(v);
    Some(n > c)
  }

  /** Python truthiness: None, False, zero and empty strings, lists and dicts are false. */
  predicate Truthy(v: Json) {
    match v
    case Null => false
    case Bool(b) => b
    case Num(n) => n != 0.0
    case Str(s) => s != []
    case Arr(items) => items != []
    case Obj(fields) => fields != map[]
  }

  /** `s[:n]`: the first `n` characters, or all of `s` when it is shorter. */
  function Take(s: string, n: nat): (r: string)
    ensures |r| <= n && r <= s
    ensures |s| >= n ==> |r| == n
    ensures |s| <= n ==> r == s
  {
    if |s| <= n then s else s[..n]
  }
}
