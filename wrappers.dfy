/** Option and Result values for operations that can fail. */
module Wrappers {

  datatype Option<+T> = None | Some(value: T)

  datatype Result<+T, +E> = Success(value: T) | Failure(error: E)

  /** An outcome that carries no value on success. */
  datatype Outcome<+E> = Pass | Fail(error: E)
}
