/** The two result types shared by the whole model. */
module Wrappers {
  /** A value that may be absent (`undefined` or `null` in the program). */
  datatype Option<+T> = None | Some(value: T)

  /** The outcome of an operation that may throw. */
  datatype Result<+T, +E> = Ok(value: T) | Err(error: E)
}
