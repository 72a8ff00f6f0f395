// The two failure-carrying datatypes shared by every module of the model.
module Wrappers {
  datatype Option<+T> = None | Some(value: T)

  // The source's exceptions become the Err case.
  datatype Result<+T, +E> = Ok(value: T) | Err(error: E)
}
