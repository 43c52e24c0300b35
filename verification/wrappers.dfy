/** The optional and failure-carrying values used by the aggregation model. */
module Wrappers {

  /** An optional value; `None` plays the role of Python's `None`. */
  datatype Option<+T> = None | Some(value: T)

  /** Either a value or the error that aborted the computation (a raised exception). */
  datatype Result<+R, +E> = Success(value: R) | Failure(error: E)
}
