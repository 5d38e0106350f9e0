/** Failure-carrying values used wherever the Java code throws or returns null. */
module Wrappers {

  /** A value that may be absent: Java's `null` result or an empty `Optional`. */
  datatype Option<+T> = None | Some(value: T)

  /** The outcome of an operation that either yields a value or throws. */
  datatype Result<+T, +E> = Ok(value: T) | Err(error: E)
}
