/** Optional values and results with an error, shared by every module of the model. */
module Wrappers {

  /** A value that may be absent: Go's nil pointer, Python's None. */
  datatype Option<+T> = None | Some(value: T) {

    /** The value when there is one, otherwise the given default. */
    function GetOr(default: T): T {
      match this
      case Some(v) => v
      case None => default
    }
  }

  /** The outcome of an operation that may fail with an error of type E. */
  datatype Result<+T, +E> = Ok(value: T) | Err(error: E)
}
