/** Optional values and results, shared by the model. */
module Wrappers {

  /** An optional value: the model's stand-in for Python's `None`. */
  datatype Option<+T> = None | Some(value: T) {
    function GetOr(default: T): T {
      match this
      case Some(v) => v
      case None => default
    }
  }

  /** The outcome of an operation that may abort with an exception. */
  datatype Result<+T, +E> = Ok(value: T) | Err(error: E)
}
