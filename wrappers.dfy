/** Failure-carrying values used in place of Python's None and exceptions. */
module Wrappers {

  /** A value that may be absent (Python's `None`). */
  datatype Option<+T> = None | Some(value: T)

  /** A value, or the error that replaced it (a raised exception). */
  datatype Result<+R, +E> = Success(value: R) | Failure(error: E)

  /** A check that passes, or fails with an error (a validator that may raise). */
  datatype Outcome<+E> = Pass | Fail(error: E)
}
