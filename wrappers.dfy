/** Optional values and results with an error, shared by every module. */
module Wrappers {

  /** A value that may be absent: JavaScript `null`/`undefined`, Python `None`. */
  datatype Option<T> = None | Some(value: T)

  /** The outcome of an operation that may raise. */
  datatype Result<T, E> = Ok(value: T) | Err(error: E)
}
