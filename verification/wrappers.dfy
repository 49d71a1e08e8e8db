/** Option and Result values used by every model in this project in place of
    null pointers and thrown exceptions. */
module Wrappers {

  /** A value that may be absent: a nullable pointer or a `Nullable<T>`. */
  datatype Option<+T> = None | Some(value: T)

  /** The outcome of an operation that either yields a value or throws. */
  datatype Result<+T, +E> = Success(value: T) | Failure(error: E)
}
