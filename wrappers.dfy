/** Option and Result, the two failure-compatible wrappers the model uses for
    JavaScript's `undefined`/`null` and for rejected promises and thrown errors. */
module Wrappers {

  datatype Option<+T> = None | Some(value: T) {
    function GetOr(default: T): T {
      match this
      case Some(v) => v
      case None => default
    }
  }

  datatype Result<+T, +E> = Ok(value: T) | Err(error: E)
}
