/** Optional values and results with an error, for JavaScript's `undefined` and rejected promises. */
module Wrappers {

  /** A property that may be absent (`undefined` in the source). */
  datatype Option<+T> = None | Some(value: T)

  /** A resolved (`Ok`) or rejected (`Err`) outcome. */
  datatype Result<+T, +E> = Ok(value: T) | Err(error: E)
}
