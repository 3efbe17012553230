/** Option and Result, the stand-ins for Python's `None` and for a raised `ValueError`. */
module Wrappers {

  datatype Option<+T> = None | Some(value: T)

  /** `Err` carries the message the Python code puts into the exception it raises. */
  datatype Result<+T> = Ok(value: T) | Err(error: string)
}
