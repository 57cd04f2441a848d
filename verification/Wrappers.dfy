/** Result types shared by the components. */
module Wrappers {

  datatype Option<+T> = None | Some(value: T)

  /** An ordinary return, or the exception the operation raises instead. */
  datatype Result<+T, +E> = Ok(value: T) | Err(error: E)
}
