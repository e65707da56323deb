/** Option and Result shared by the crawler modules. */
module Wrappers {

  /** A value that may be absent: a missing HTML attribute or element, or a failed fetch. */
  datatype Option<+T> = None | Some(value: T)

  /** The outcome of an operation that can fail with an error value. */
  datatype Result<+R, +E> = Success(value: R) | Failure(error: E)
}
