/**
 * Option stands for a JavaScript property or argument that may be
 * `undefined` (or `null`); Result for a computation that either yields a
 * value or throws.
 */
module Wrappers {

  datatype Option<+T> = None | Some(value: T) {
    function GetOr(default: T): T {
      match this
      case Some(v) => v
      case None => default
    }
  }

  datatype Result<+T, +E> = Ok(value: T) | Err(error: E)
}
