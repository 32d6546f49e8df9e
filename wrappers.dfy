/** Optional values and results with an error, used where the modelled code
    either has nothing to return or fails. */
module Wrappers {

  datatype Option<T> = None | Some(value: T)

  datatype Result<T, E> = Ok(value: T) | Err(error: E)
}
