/** Option and Result values shared by every module of the model. */
module Wrappers {

  /** JavaScript's `T | undefined` (or `T | null`): a value that may be missing. */
  datatype Option<+T> = None | Some(value: T) {

    /** The value, or `default` when it is missing (JavaScript's `??`). */
    function GetOr(default: T): T {
      match this
      case Some(v) => v
      case None => default
    }
  }

  /** The outcome of a call that may throw: `Ok(v)` returns normally, `Throws(e)` raises `e`. */
  datatype Result<+T, +E> = Ok(value: T) | Throws(error: E)
}
