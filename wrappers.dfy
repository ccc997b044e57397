/** Failure-carrying result types used for the exceptions the modelled code throws. */
module Wrappers {

  /** A value, or the error the operation threw instead. */
  datatype Result<+T, +E> = Success(value: T) | Failure(error: E)

  /** Success without a value, or the error the operation threw instead. */
  datatype Outcome<+E> = Pass | Fail(error: E)

  datatype Option<+T> = None | Some(value: T)
}
