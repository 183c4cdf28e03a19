/** Optional values and results with an error, used where the source has
    `null`/`undefined` or a thrown exception. */
module Wrappers {
  datatype Option<T> = None | Some(value: T)

  datatype Result<T, E> = Ok(value: T) | Err(error: E)
}
