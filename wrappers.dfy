/** Failure-compatible wrappers shared by the model. */
module Wrappers {

  datatype Option<+T> = None | Some(value: T)

  /** The outcome of an operation that can raise: a value, or the error that the source raises. */
  datatype Result<+T, +E> = Ok(value: T) | Err(error: E)
}
