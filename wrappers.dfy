// Small result types used throughout the model.
module Wrappers {
  datatype Option<T> = None | Some(value: T)

  /** A value or the error message a Go function returned beside it. */
  datatype Result<T, E> = Ok(value: T) | Err(error: E)
}
