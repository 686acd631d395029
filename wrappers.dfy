// Option and Result types shared by every module of the model.
module Wrappers {
  /** A possibly-null pointer or an optional value. */
  datatype Option<T> = None | Some(value: T)

  /** The outcome of an operation that can throw or report failure. */
  datatype Result<T> = Success(value: T) | Failure(error: string)
}
