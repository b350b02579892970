/** Option and Result wrappers shared by the other modules. */
module Wrappers {

  /** A value that may be absent (PHP's null). */
  datatype Option<+T> = None | Some(value: T)

  /** The outcome of an operation that can fail. */
  datatype Result<+T, +E> = Ok(value: T) | Err(error: E)
}
