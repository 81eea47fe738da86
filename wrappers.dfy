/** Optional values and results with an error, shared by every module. */
module Wrappers {

  /** A value that may be absent: SQL NULL, a missing JSON key, `undefined`. */
  datatype Option<+T> = None | Some(value: T)

  /** The outcome of a request handler: a value, or the error it throws. */
  datatype Result<+T, +E> = Ok(value: T) | Err(error: E)
}
