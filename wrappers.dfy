/** Optional values and results with an error case, used for the `null` role of a
    participant and for the failures of the peer-link handlers. */
module Wrappers {

  datatype Option<+T> = None | Some(value: T)

  datatype Result<+T, +E> = Ok(value: T) | Err(error: E)
}
