/** Option and Result, used for the widget's nullable values and thrown errors. */
module Wrappers {

  /** A value that may be absent: a missing JSON field, a null variable. */
  datatype Option<+T> = None | Some(value: T)

  /** The outcome of an operation that either returns a value or throws an error. */
  datatype Result<+T, +E> = Ok(value: T) | Err(error: E)
}
