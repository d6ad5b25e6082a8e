/** Optional values and success/failure results shared by the modules of the model. */
module Wrappers {

  /** A value that may be absent (a JavaScript `undefined`). */
  datatype Option<+T> = None | Some(value: T) {
    function GetOr(default: T): T {
      match this
      case Some(v) => v
      case None => default
    }
  }

  /** The outcome of an operation that either returns a value or throws/reports an error. */
  datatype Result<+T, +E> = Ok(value: T) | Err(error: E)
}
