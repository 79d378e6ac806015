/** Optional values and results with an error message, standing in for Python's
    `None` and for raised exceptions. */
module Wrappers {

  datatype Option<+T> = None | Some(value: T)

  /** `Err` carries the text that the source would raise as an `Exception`. */
  datatype Result<+T> = Ok(value: T) | Err(msg: string)
}
