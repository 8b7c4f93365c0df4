/** Small failure-carrying datatypes shared by the whole model. */
module Wrappers {

  datatype Option<+T> = None | Some(value: T) {
    function GetOr(default: T): T {
      match this
      case Some(v) => v
      case None => default
    }
  }

  /** A value thrown by a JavaScript operation: an `Error` object carries a message,
      anything else (a string, a plain object) does not. */
  datatype Thrown = JsError(message: string) | NonError

  /** The settled state of a promise: fulfilled with a value or rejected with a thrown value. */
  datatype Result<+T> = Ok(value: T) | Err(thrown: Thrown)

  /** The settled state of a `Promise<void>`. */
  datatype Outcome = Pass | Fail(thrown: Thrown)

  /** JavaScript truthiness of an optional string: `undefined` and `""` are falsy. */
  predicate Truthy(s: Option<string>) {
    s.Some? && s.value != ""
  }

  /** `a || b` for an optional string `a` and a string `b`. */
  function OrElse(a: Option<string>, b: string): (r: string)
    ensures Truthy(a) ==> r == a.value
    ensures !Truthy(a) ==> r == b
  {
    if Truthy(a) then a.value else b
  }

  /** The text JavaScript's `+` produces for an optional string: `undefined` prints as "undefined". */
  function ConcatText(a: Option<string>): string {
    match a
    case Some(s) => s
    case None => "undefined"
  }
}
