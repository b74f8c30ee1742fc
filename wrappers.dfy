/** Optional values and success-or-error results. */
module Wrappers {

  datatype Option<+T> = None | Some(value: T)

  /** A value, or the text of the exception that was raised instead. */
  datatype Result<+T> = Ok(value: T) | Err(error: string)
}
