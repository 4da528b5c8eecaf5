/** Option, Result and Outcome values used for absent fields and error returns. */
module Wrappers {

  datatype Option<+T> = None | Some(value: T)

  /** A value or an error. */
  datatype Result<+R, +E> = Success(value: R) | Failure(error: E)

  /** Success without a value, or an error. */
  datatype Outcome<+E> = Pass | Fail(error: E)
}
