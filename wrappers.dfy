/** Optional values and error-carrying results shared by the model. */
module Wrappers {

  /** A value that may be absent: JavaScript's `undefined`/`null` in a typed slot. */
  datatype Option<+T> = None | Some(value: T)

  /** The outcome of a step that can fail with an error message or value. */
  datatype Result<+T, +E> = Success(value: T) | Failure(error: E)
}
