/** The two result types the models share. */
module Wrappers {
  datatype Option<+T> = None | Some(value: T)

  /** A value, or the error that the source throws or returns. */
  datatype Result<+T, +E> = Ok(value: T) | Err(error: E)
}
