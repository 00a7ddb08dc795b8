/** Failure-carrying results shared by the models of the Telegraph and Edge1 components. */
module Wrappers {
  datatype Option<+T> = None | Some(value: T)

  datatype Result<+T, +E> = Ok(value: T) | Err(error: E)
}
