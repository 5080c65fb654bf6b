/** Failure-compatible wrappers used throughout the model: `Option` stands for a
    C# reference that may be null, `Result` for a call that either returns a value
    or throws. */
module Wrappers {

  /** A value that may be absent (a C# `null`). */
  datatype Option<+T> = None | Some(value: T)

  /** The value a call returns, or the exception it throws. */
  datatype Result<+T, +E> = Success(value: T) | Failure(error: E)
}
