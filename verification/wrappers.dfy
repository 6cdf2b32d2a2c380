/** Failure-carrying datatypes: `Option` for Python's `None`-or-value returns and
    `Result` for calls that either return a value or raise. */
module Wrappers {

  datatype Option<+T> = None | Some(value: T)

  datatype Result<+T, +E> = Success(value: T) | Failure(error: E)
}
