/** Option and Result values shared by the booking modules. */
module Wrappers {

  datatype Option<+T> = None | Some(value: T)

  /** A computation that either produces a value or the error the source reports or rethrows. */
  datatype Result<+T, +E> = Ok(value: T) | Err(error: E)
}
