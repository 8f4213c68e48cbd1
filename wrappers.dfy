/** Optional values and results with an error message, used across the model. */
module Wrappers {

  /** A value that may be missing: JavaScript's `null`/`undefined` for one field. */
  datatype Option<+T> = None | Some(value: T)

  /** The outcome of an operation that may throw: the value, or the error's message. */
  datatype Result<+T> = Ok(value: T) | Err(message: string)
}
