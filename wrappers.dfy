/** Failure-compatible result types shared by every module of the model. */
module Wrappers {

  /** A value that may be absent; also stands for a Java reference that may be null. */
  datatype Option<+T> = None | Some(value: T)

  /** The outcome of an operation that either yields a value or throws. */
  datatype Result<+T, +E> = Ok(value: T) | Err(error: E)

  /** The outcome of an operation that yields nothing but may throw. */
  datatype Outcome<+E> = Pass | Fail(error: E)
}
