/** Option and Result, used for Python's `None` and for raised exceptions. */
module Wrappers {

  datatype Option<+T> = None | Some(value: T)

  /** `Ok(value)` is a normal return; `Err(error)` is the exception the code raises. */
  datatype Result<+T, +E> = Ok(value: T) | Err(error: E)
}
