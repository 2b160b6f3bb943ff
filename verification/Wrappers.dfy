/** Small datatypes shared by the modules of this project. */
module Wrappers {

  /** A value that may be missing: a null pointer, an unset field, a failed look-up. */
  datatype Option<+T> = None | Some(value: T)

  /** The outcome of an operation that may fail with an error value. */
  datatype Result<+T, +E> = Success(value: T) | Failure(error: E)
}
