/** Option and Result, the shapes in which the runtime's `Option` and `Result` are modelled. */
module Wrappers {
  datatype Option<+T> = None | Some(value: T)

  datatype Result<+R, +E> = Ok(value: R) | Err(error: E)
}
