/** Option and Result, used for nullable values and for the exceptions the library throws. */
module Wrappers {

  datatype Option<+T> = None | Some(value: T)

  /** Ok carries the value a call returns; Err the exception it throws. */
  datatype Result<+R, +E> = Ok(value: R) | Err(error: E)
}
