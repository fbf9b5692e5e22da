/** Option and Result, used for the values the browser code leaves `null`
    or `undefined`, and for the operations that can throw. */
module Wrappers {

  /** A value that may be absent (`null` / `undefined` in the browser code). */
  datatype Option<+T> = None | Some(value: T)

  /** JavaScript truthiness of a string variable or field that may be
      `null` or `undefined`: both those and the empty string are falsy. */
  predicate Truthy(o: Option<string>) {
    o.Some? && o.value != ""
  }

  /** The outcome of an operation that either produces a value or throws. */
  datatype Result<+R, +E> = Success(value: R) | Failure(error: E)
}
