/** Failure-carrying results used to model the source's exceptions and nulls. */
module Wrappers {

  /** A value that may be absent (a C# null). */
  datatype Option<+T> = None | Some(value: T)

  /** Either a computed value or the exception that took its place. */
  datatype Result<+T, +E> = Success(value: T) | Failure(error: E)

  /** The outcome of a void operation: it returned normally, or it threw. */
  datatype Outcome<+E> = Pass | Fail(error: E)
}
