/** Optional values and success/failure results shared by the other modules. */
module Wrappers {

  /** A value that may be absent. Used for JavaScript's NaN results and for hidden tick labels. */
  datatype Option<+T> = None | Some(value: T) {

    /** The wrapped value, or `default` when there is none. */
    function GetOr(default: T): T {
      match this
      case Some(v) => v
      case None => default
    }
  }

  /** The outcome of a computation that may fail with an error value. */
  datatype Result<+T, +E> = Ok(value: T) | Err(error: E)
}
