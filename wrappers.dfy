/** Optional values and error-carrying results used across the model. */
module Wrappers {

  datatype Option<+T> = None | Some(value: T)

  /** A whole-job result: either the produced value or a human-readable error message. */
  datatype Result<+T> = Success(value: T) | Failure(message: string)
}
