/** Values that may be missing, and outcomes that may be an error. */
module Wrappers {

  datatype Option<+T> = None | Some(value: T)

  /** `Err` stands for an exception leaving the call. */
  datatype Result<+T, +E> = Ok(value: T) | Err(error: E)
}
