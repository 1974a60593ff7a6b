/** Failure-compatible wrappers used throughout the model. */
module Wrappers {

  /** A value that may be absent: PHP's `null` for an optional argument or a missing array key. */
  datatype Option<+T> = None | Some(value: T)

  /** Either a computed value or the error that a thrown exception stands for. */
  datatype Result<+R, +E> = Success(value: R) | Failure(error: E)
}
