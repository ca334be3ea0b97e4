/** Values shared by every page and route: an optional value and the JSON
    values a request body or a local-storage entry can hold, with JavaScript's
    notion of "falsy" (what `!x` and `x || default` test). */
module Values {

  datatype Option<+T> = None | Some(value: T) {
    function GetOr(default: T): T
    {
      match this
      case Some(v) => v
      case None => default
    }
  }

  /** The outcome of a handler that either succeeds with a value or shows an error message. */
  datatype Result<+T> = Ok(value: T) | Err(error: string)

  /** A JSON value as it arrives from `request.json()` or `JSON.parse`.
      Numbers are kept as reals; arrays and objects are `Composite`. */
  datatype Value = Str(s: string) | Num(n: real) | Bool(b: bool) | Null | Composite

  /** `!v` in JavaScript: the empty string, 0, false and null are falsy;
      arrays and objects are truthy. (NaN is not modelled.) */
  predicate FalsyValue(v: Value)
  {
    match v
    case Str(s) => s == ""
    case Num(n) => n == 0.0
    case Bool(b) => !b
    case Null => true
    case Composite => false
  }

  /** A field read from a JSON object: a missing key reads as `undefined`, which is falsy. */
  predicate FalsyField(m: map<string, Value>, key: string)
  {
    key !in m || FalsyValue(m[key])
  }

  /** `m[key] || default` */
  function FieldOr(m: map<string, Value>, key: string, default: Value): (r: Value)
    ensures FalsyField(m, key) ==> r == default
    ensures !FalsyField(m, key) ==> key in m && r == m[key]
  {
    if FalsyField(m, key) then default else m[key]
  }

  /** A request field that is a string or absent; `!x` holds when it is absent or "". */
  predicate FalsyString(x: Option<string>)
  {
    x.None? || x.value == ""
  }
}
