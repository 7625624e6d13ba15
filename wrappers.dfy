/** Option and Result, the two failure-carrying values used throughout the model. */
module Wrappers {

  /** A value that may be absent; Python's `None` result of a lookup or a parse. */
  datatype Option<+T> = None | Some(value: T)

  /** Either a value or the exception the Python code raises instead of returning. */
  datatype Result<+T, +E> = Success(value: T) | Failure(error: E)
}
