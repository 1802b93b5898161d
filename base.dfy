/** Failure-carrying wrappers used where the source raises or returns an error response. */
module Base {

  /** A value that may be absent (Python `None`). */
  datatype Option<+T> = None | Some(value: T)

  /** The outcome of a validator: it returns normally, or raises the given error. */
  datatype Outcome<+E> = Pass | Fail(error: E)

  /** A value, or the error raised while computing it. */
  datatype Result<+T, +E> = Ok(value: T) | Err(error: E)
}
