/** The model's stand-ins for Python's `None` returns and raised exceptions. */
module Wrappers {

  datatype Option<T> = None | Some(value: T)

  /** `Err` stands for a raised exception of the source. */
  datatype Result<T, E> = Ok(value: T) | Err(error: E)
}
