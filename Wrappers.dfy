/** Failure-carrying values used throughout the model: Python's `None`-or-value
    results and the exceptions the source lets propagate. */
module Wrappers {

  datatype Option<+T> = None | Some(value: T)

  datatype Result<+R, +E> = Success(value: R) | Failure(error: E)
}
