/** Option and Result, the two wrappers the model uses for absent values and for raised errors. */
module Wrappers {

  datatype Option<+T> = None | Some(value: T)

  /** The result of a Ruby call that may raise: the value it returns, or what it raised. */
  datatype Result<+T, +E> = Ok(value: T) | Err(error: E)
}
