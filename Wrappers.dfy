/** Failure-carrying wrappers shared by the other modules. */
module Wrappers {

  /** A value that may be absent; in the configuration model `None` is JavaScript's `undefined`. */
  datatype Option<+T> = None | Some(value: T)

  /** The result of an operation that either produces a value or throws an error. */
  datatype Result<+R, +E> = Success(value: R) | Failure(error: E)

  /** The result of a check that either passes or throws an error. */
  datatype Outcome<+E> = Pass | Fail(error: E)
}
