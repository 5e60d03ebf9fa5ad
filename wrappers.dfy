/** Optional values and results with an error message, shared by the whole model. */
module Wrappers {

  /** A value that may be absent: JavaScript's `undefined` result of `find`. */
  datatype Option<+T> = None | Some(value: T)

  /** The outcome of an operation that may throw an `Error` with a message. */
  datatype Result<+T> = Ok(value: T) | Err(error: string)
}
