/** Optional values and results with an error, used throughout the model. */
module Wrappers {

  /** An absent (undefined) or present value. */
  datatype Option<+T> = None | Some(value: T)

  /** The outcome of a step that may throw: its value, or what was thrown. */
  datatype Result<+T, +E> = Success(value: T) | Failure(error: E)
}
