/** Optional values and error results shared by the modules of this model. */
module Wrappers {

  /** A value that may be absent (`undefined`/`null` in the application). */
  datatype Option<+T> = None | Some(value: T)

  /** The outcome of a call that may throw: the thrown error or the value. */
  datatype Result<+T, +E> = Ok(value: T) | Err(error: E)
}
