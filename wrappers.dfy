/** Optional values and fallible results, shared by every module of the model. */
module Wrappers {

  /** A value that may be absent: a request field that was not sent, an unauthenticated caller. */
  datatype Option<+T> = None | Some(value: T)

  /** The outcome of a storage operation that can throw. */
  datatype Result<+T, +E> = Ok(value: T) | Err(error: E)
}
