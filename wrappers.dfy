/** Option and Result, the failure-carrying types the session's operations return. */
module Wrappers {

  /** An optional value: the session's `data` and `response` slots. */
  datatype Option<+T> = None | Some(value: T)

  /** The outcome of an operation that may fail with an error value. */
  datatype Result<+T, +E> = Success(value: T) | Failure(error: E)
}
