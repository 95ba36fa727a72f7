/** Option and Result, used for the nullable values and the thrown exceptions of the source. */
module Wrappers {

  /** A value that may be absent: `null`/`undefined` in the client, a nullable reference on the server. */
  datatype Option<+T> = None | Some(value: T)

  /** The outcome of an operation that returns a value or throws. */
  datatype Result<+R, +E> = Success(value: R) | Failure(error: E)
}
