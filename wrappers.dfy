/** Option and Result datatypes shared by the models of both source files. */
module Wrappers {

  /** A value that may be absent (Java `null`, Python `None`). */
  datatype Option<+T> = None | Some(value: T)

  /** The outcome of an operation that may raise: `Err` names the exception. */
  datatype Result<+T, +E> = Ok(value: T) | Err(error: E)
}
