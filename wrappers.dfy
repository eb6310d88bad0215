/** Option and Result, the two failure-carrying datatypes the model uses. */
module Wrappers {

  datatype Option<+T> = None | Some(value: T)

  /** `Err` stands for an exception that the source lets propagate to its caller. */
  datatype Result<+T, +E> = Ok(value: T) | Err(error: E)
}
