/** Option and Result, the two failure-carrying types the firmware uses everywhere. */
module Wrappers {

  datatype Option<+T> = None | Some(value: T)

  datatype Result<+T, +E> = Ok(value: T) | Err(error: E)
}
