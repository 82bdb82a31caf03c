/** Option and Result values shared by the models of both subsystems. */
module Wrappers {

  datatype Option<+T> = None | Some(value: T)

  /** The outcome of a computation that can raise: a value, or the exception it raised. */
  datatype Result<+T, +E> = Ok(value: T) | Err(error: E)
}
