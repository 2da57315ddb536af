/** Failure-compatible result types shared by the credential strategies. */
module Wrappers {

  datatype Option<+T> = None | Some(value: T)

  /** A value, or the error a strategy throws instead of returning one. */
  datatype Result<+R, +E> = Success(value: R) | Failure(error: E)

  /** Completion of an operation that returns nothing, or the error it throws. */
  datatype Outcome<+E> = Pass | Fail(error: E)
}
