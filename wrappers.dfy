/** Option and Result values shared by the modules of this model. */
module Wrappers {

  /** A value that may be absent (JavaScript `null`, `undefined` or `NaN`). */
  datatype Option<+T> = None | Some(value: T)

  /** The outcome of an operation that may throw. */
  datatype Result<+T, +E> = Success(value: T) | Failure(error: E)
}
