/** Failure-compatible wrappers standing in for JavaScript's null/undefined and for thrown errors. */
module Wrappers {

  /** `None` models a JavaScript `null` or `undefined`. */
  datatype Option<+T> = None | Some(value: T)

  /** The outcome of a call that either returns a value or throws an error of kind `E`. */
  datatype Result<+T, +E> = Ok(value: T) | Err(error: E)

  /** The outcome of a call that returns nothing or throws an error of kind `E`. */
  datatype Outcome<+E> = Pass | Fail(error: E)
}
