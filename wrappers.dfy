/** Option and Result, the failure-carrying wrappers the rest of the model returns. */
module Wrappers {
  datatype Option<+T> = None | Some(value: T)

  datatype Result<+R, +E> = Success(value: R) | Failure(error: E)
}
