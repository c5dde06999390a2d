/** Result types shared by the modules: an absent value, and Go's (value, error) pairs. */
module Wrappers {
  datatype Option<+T> = None | Some(value: T)

  datatype Result<+T, +E> = Ok(value: T) | Err(error: E)
}
