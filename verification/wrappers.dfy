/** Option and Result, the two failure-carrying shapes used throughout the model. */
module Wrappers {

  /** A value that may be absent: a missing table cell, a Python `None` return. */
  datatype Option<+T> = None | Some(value: T)

  /** The outcome of an operation that can raise: the value, or the error it raised. */
  datatype Result<+R, +E> = Success(value: R) | Failure(error: E)
}
