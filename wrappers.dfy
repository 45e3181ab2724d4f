/** Option and Result, for the nullable columns and the failing operations of the model. */
module Wrappers {

  /** A value or SQL NULL / Python None. */
  datatype Option<+T> = None | Some(value: T)

  /** The outcome of an operation that can fail. */
  datatype Result<+T, +E> = Ok(value: T) | Err(error: E)
}
