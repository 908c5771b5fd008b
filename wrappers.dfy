/** Optional values (the source's nullable references) and results that carry a failure
    (the source's unchecked exceptions). */
module Wrappers {

  datatype Option<+T> = None | Some(value: T)

  datatype Result<+T, +E> = Ok(value: T) | Err(error: E)
}
