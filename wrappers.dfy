/** Failure-carrying results, used for the exceptions and NULL returns of the modelled code. */
module Wrappers {

  /** A value that may be absent: NULL in the C++ code, null in the Java code. */
  datatype Option<+T> = None | Some(value: T)

  /** The outcome of an operation that either returns a value or throws. */
  datatype Result<+T, +E> = Ok(value: T) | Err(error: E)
}
