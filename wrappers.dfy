/** Option and Result values used across the model for "may be missing" and
    "may have thrown". */
module Wrappers {

  datatype Option<+T> = None | Some(value: T)

  datatype Result<+T, +E> = Ok(value: T) | Err(error: E)
}
