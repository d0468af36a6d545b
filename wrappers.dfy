/** Optional values and results shared by the other modules. */
module Wrappers {

  /** A value that may be missing, like Python's `None`. */
  datatype Option<+T> = None | Some(value: T)

  /** Either a successful value or an error message. */
  datatype Result<+R, +E> = Ok(value: R) | Err(error: E)
}
