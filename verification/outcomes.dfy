/** Failure-carrying values shared by the whole model. */
module Outcomes {

  /** A value that may be absent (Python's `None`). */
  datatype Option<T> = None | Some(value: T)

  /** A value, or the error a Python constructor would have raised. */
  datatype Result<T, E> = Ok(value: T) | Err(error: E)
}
