/** Failure-carrying datatypes standing in for C++ exceptions and nullable results. */
module Wrappers {

  datatype Option<+T> = None | Some(value: T)

  /** The value of an operation that either returns a `T` or throws an `E`. */
  datatype Result<+T, +E> = Ok(value: T) | Err(error: E)

  /** The value of a `void` operation that either returns or throws an `E`. */
  datatype Outcome<+E> = Pass | Fail(error: E)
}
