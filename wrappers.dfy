/** Optional values and results with an error, as used throughout the model. */
module Wrappers {

  /** A value that may be absent; `None` stands for Python's `None`. */
  datatype Option<+T> = None | Some(value: T)

  /** The outcome of an evaluation that may raise: a value, or the error raised. */
  datatype Result<+T, +E> = Ok(value: T) | Err(error: E)
}
