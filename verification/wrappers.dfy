/** Failure-carrying datatypes shared by the registry model. */
module Wrappers {

  /** A value that may be absent; Python's `None` is `None` here. */
  datatype Option<+T> = None | Some(value: T)

  /** The outcome of an operation that may raise: a value or an error. */
  datatype Result<+R, +E> = Success(value: R) | Failure(error: E)
}
