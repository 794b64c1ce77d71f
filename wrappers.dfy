/** Optional values and calls that may throw. */
module Wrappers {

  /** A JavaScript value that may be `undefined`. */
  datatype Option<T> = None | Some(value: T)

  /** The outcome of a JavaScript call: a value, or a thrown `TypeError`. */
  datatype Result<T> = Ok(value: T) | TypeError
}
