/** Failure-carrying datatypes used across the model. */
module Wrappers {

  /** A value that may be absent; `None` also stands for Python's `None`. */
  datatype Option<+T> = None | Some(value: T)

  /** The outcome of an operation that either yields a value or raises an error. */
  datatype Result<+R, +E> = Success(value: R) | Failure(error: E)
}
