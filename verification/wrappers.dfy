/** Option and Result, as the source uses them (`Option<T>`, `Result<T, E>`). */
module Wrappers {

  datatype Option<+T> = None | Some(value: T)

  datatype Result<+T, +E> = Ok(value: T) | Err(error: E)
}
