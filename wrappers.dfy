/** Option and Result, the failure-carrying values used throughout the model. */
module Wrappers {

  /** A value that may be absent: a SQL NULL, a missing JSON field, or NaN. */
  datatype Option<+T> = None | Some(value: T)

  /** The outcome of a database statement: the new value, or the error Postgres raises. */
  datatype Result<+R, +E> = Success(value: R) | Failure(error: E)
}
