/** Failure-compatible wrappers shared by every module of the model. */
module Wrappers {

  /** A value that may be absent: Go's nil pointer, a JavaScript `undefined`. */
  datatype Option<+T> = None | Some(value: T)

  /** The outcome of an operation that returns a value or an error. */
  datatype Result<+T, +E> = Ok(value: T) | Err(error: E)
}
