/** Option and Result, the nullable values and error returns of the application. */
module Wrappers {

  /** A nullable value: `None` is the source's `null` / `undefined`. */
  datatype Option<+T> = None | Some(value: T) {

    /** The value, or `default` when absent (the source's `x ?? default`). */
    function GetOr(default: T): T {
      match this
      case Some(v) => v
      case None => default
    }
  }

  /** The outcome of a handler: a record to write, or the error it reports. */
  datatype Result<+R, +E> = Ok(value: R) | Err(error: E)
}
