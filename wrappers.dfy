/** Option and Result values standing in for JavaScript's `undefined`/`NaN` and early returns. */
module Wrappers {

  datatype Option<+T> = None | Some(value: T) {
    function GetOr(default: T): T {
      match this
      case Some(v) => v
      case None => default
    }
  }

  /** The outcome of a handler that either produces a value or stops early with a message. */
  datatype Result<+T> = Ok(value: T) | Err(message: string)
}
