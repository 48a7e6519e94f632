/** Failure-compatible value types shared by the other modules. */
module Wrappers {

  /** A value that may be absent (Python's None / a missing key). */
  datatype Option<T> = None | Some(value: T)
  {
    function GetOr(default: T): T {
      match this
      case Some(v) => v
      case None => default
    }
  }

  /** The outcome of an operation that may raise an exception. */
  datatype Result<T, E> = Ok(value: T) | Err(error: E)
}
