/** Optional values and results with an error, used across the model. */
module Wrappers {

  /** A value that may be absent; in a fixture row, None stands for a missing or NaN cell. */
  datatype Option<+T> = None | Some(value: T)

  /** The outcome of a computation that can raise. */
  datatype Result<+R, +E> = Ok(value: R) | Err(error: E)
}
