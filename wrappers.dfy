/** Failure-carrying results used where the generator raises or returns nothing. */
module Wrappers {

  /** A value that may be absent (a foreign call that raised, a regex with no match). */
  datatype Option<+T> = None | Some(value: T)

  /** The outcome of an operation that may raise an exception past its caller. */
  datatype Result<+R, +E> = Success(value: R) | Failure(error: E)
}
