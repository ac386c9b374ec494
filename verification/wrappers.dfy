/** Python's `None`-or-value results and raised exceptions, as used throughout the NOTAM pipeline. */
module Wrappers {

  datatype Option<+T> = None | Some(value: T)

  /** A value, or the exception a Python call raises instead. */
  datatype Result<+T, +E> = Ok(value: T) | Err(error: E)

}
