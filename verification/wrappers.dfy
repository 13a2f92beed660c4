/** Failure-carrying values used throughout the model: `Option` for Python's
    "value or None", `Result` for an operation that can raise. */
module Wrappers {

  datatype Option<+T> = None | Some(value: T)

  datatype Result<+R, +E> = Success(value: R) | Failure(error: E)
}
