/** Option and Result datatypes, for `None` and for an HTTP error result. */
module Wrappers {

  /** A value that may be absent (Python's `None`). */
  datatype Option<+T> = None | Some(value: T)

  /** Either a successful value or an error value (an HTTP error response). */
  datatype Result<+R, +E> = Success(value: R) | Failure(error: E)
}
