/** Optional values and results shared by the whole model. */
module Wrappers {

  /** `None` plays the part of JavaScript's `undefined` wherever the
      scenario reads an optional value. */
  datatype Option<+T> = None | Some(value: T)

  /** A value, or the reason the process stops. */
  datatype Result<+T, +E> = Ok(value: T) | Err(error: E)
}
