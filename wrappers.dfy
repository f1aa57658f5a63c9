/** Option and Result wrappers used for the configuration's nil values and error returns. */
module Wrappers {

  /** A value that may be absent (a nil pointer or nil slice in the configuration). */
  datatype Option<+T> = None | Some(value: T)

  /** The outcome of an operation that can fail with an error. */
  datatype Result<+T, +E> = Ok(value: T) | Err(error: E)
}
