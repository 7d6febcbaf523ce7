/** Optional values and success/failure results shared by every module of the model. */
module Wrappers {

  /** A value that may be absent: `undefined` in the site's TypeScript. */
  datatype Option<+T> = None | Some(value: T) {

    /** The value when present, `default` otherwise (TypeScript `??`). */
    function GetOr(default: T): T {
      match this
      case Some(v) => v
      case None => default
    }
  }

  /** The outcome of an operation that may throw: `Failure` carries the error message. */
  datatype Result<+R, +E> = Success(value: R) | Failure(error: E)
}
