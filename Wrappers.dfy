/** Optional values and results with an error, used across the model. */
module Wrappers {

  /** `None` stands for JavaScript's `null`/`undefined`, and for `NaN` where a number is meant. */
  datatype Option<+T> = None | Some(value: T)

  /** The outcome of an operation that may throw. */
  datatype Result<+T, +E> = Ok(value: T) | Err(error: E)
}
