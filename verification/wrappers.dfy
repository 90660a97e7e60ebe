/** Optional values and error-carrying results, standing in for C# nulls and exceptions. */
module Wrappers {

  /** A value that may be absent (a C# null reference). */
  datatype Option<+T> = None | Some(value: T)

  /** Either a value or the error that an operation raised instead. */
  datatype Result<+T, +E> = Success(value: T) | Failure(error: E)
}
