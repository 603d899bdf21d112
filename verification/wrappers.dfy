/** Option and Result values for the lookups and geometry queries that can fail. */
module Wrappers {

  datatype Option<+T> = None | Some(value: T)

  /** A computation that either produces a value or stops with the error
      the C# code would have raised. */
  datatype Result<+T, +E> = Success(value: T) | Failure(error: E)
}
