/** The optional-value and outcome types shared by the model: `Option` stands for a
    JavaScript value that may be `undefined`/`null`, `Result` for a call that
    either returns or throws. */
module Wrappers {

  datatype Option<+T> = None | Some(value: T)

  datatype Result<+T, +E> = Success(value: T) | Failure(error: E)

  /** JavaScript truthiness of an optional string: `undefined`, `null` and the
      empty string are falsy, every other string is truthy. */
  predicate Truthy(s: Option<string>) {
    s.Some? && s.value != []
  }

  /** The value of `a || b` for optional strings: `a` when truthy, else `b`. */
  function OrElse(a: Option<string>, b: string): (r: string)
    ensures Truthy(a) ==> r == a.value
    ensures !Truthy(a) ==> r == b
  {
    if Truthy(a) then a.value else b
  }
}
