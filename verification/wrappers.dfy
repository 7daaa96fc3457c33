/** Failure-carrying result types used in place of Java's null returns and exceptions. */
module Wrappers {

  /** A value that may be absent (Java's `null`). */
  datatype Option<+T> = None | Some(value: T)

  /** Either a value or the error an operation raised instead. */
  datatype Result<+T, +E> = Ok(value: T) | Err(error: E)
}
