/** Failure-carrying shapes returned by the operations of the model. */
module Wrappers {

  /** A value that may be missing. */
  datatype Option<+T> = None | Some(value: T)

  /** A computed value, or the error that stopped the computation. */
  datatype Result<+T, +E> = Success(value: T) | Failure(error: E)

  /** The result of an operation that computes nothing but may fail. */
  datatype Outcome<+E> = Pass | Fail(error: E)
}
