/** Request-body fields as the handlers see them after `await req.json()`. */
module Json {
  import opened Common
  import opened Text

  /** A JSON value read from a request body. `Absent` is a missing field (`undefined`);
      `Composite` is an object or array, carried with the text its `toString()` gives. */
  datatype Value = Absent | Null | Bool(b: bool) | Num(n: int) | Str(s: string) | Composite(text: string)

  /** JavaScript truthiness: `undefined`, `null`, `false`, `0` and `''` are falsy. */
  predicate Truthy(v: Value) {
    match v
    case Absent => false
    case Null => false
    case Bool(b) => b
    case Num(n) => n != 0
    case Str(s) => s != ""
    case Composite(_) => true
  }

  /** `v?.toString()`: no text for `undefined` and `null`. */
  function ToText(v: Value): (r: Option<string>)
    ensures r.None? <==> v.Absent? || v.Null?
    ensures v.Str? ==> r == Some(v.s)
  {
    match v
    case Absent => None
    case Null => None
    case Bool(b) => Some(if b then "true" else "false")
    case Num(n) => Some(IntToString(n))
    case Str(s) => Some(s)
    case Composite(t) => Some(t)
  }

  /** `typeof v === 'string'` together with a truthiness test: a non-empty string. */
  predicate NonEmptyString(v: Value) {
    v.Str? && v.s != ""
  }
}
