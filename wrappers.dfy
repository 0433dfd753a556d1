/** Option and Result: the model's stand-ins for C# `null` results and thrown exceptions. */
module Wrappers {

  /** A value that may be absent (a nullable reference or `FirstOrDefault` result). */
  datatype Option<+T> = None | Some(value: T)

  /** The outcome of a service call that either returns a value or throws. */
  datatype Result<+R, +E> = Success(value: R) | Failure(error: E)
}
