/**
  The few JavaScript value semantics the server's checks depend on: a request
  field can be missing, a string, or some other JSON value, and the checks only
  ever ask whether it is truthy, whether it is a string, and whether it is
  strictly equal to a stored string.
 */
module JsValues {

  /** `undefined`/`null`, a string, or any other value (number, boolean,
      array, object), the last kept only by its truthiness. */
  datatype JsValue = Nullish | Str(s: string) | Other(truthy: bool)

  /** JavaScript truthiness: the empty string is falsy, as are `null` and `undefined`. */
  predicate Truthy(v: JsValue) {
    match v
    case Nullish => false
    case Str(s) => s != ""
    case Other(t) => t
  }

  /** `a || b`: the first operand when it is truthy, otherwise the second. */
  function Or(a: JsValue, b: JsValue): (r: JsValue)
    ensures Truthy(r) <==> Truthy(a) || Truthy(b)
    ensures r == a || r == b
    ensures Truthy(a) ==> r == a
    ensures !Truthy(a) ==> r == b
  {
    if Truthy(a) then a else b
  }

  /** A non-empty string: what `!x || typeof x !== 'string'` lets through. */
  predicate IsFilledString(v: JsValue) {
    v.Str? && v.s != ""
  }

}
