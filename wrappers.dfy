/** Optional values, results, and the errors the knowledge-ingestion core raises. */
module Wrappers {

  datatype Option<+T> = None | Some(value: T) {

    /** The value, or `default` when absent (TypeScript's `x ?? default`). */
    function GetOr(default: T): T {
      match this
      case Some(v) => v
      case None => default
    }
  }

  /** What JavaScript reads as false in an optional string: absent, or empty. */
  predicate Blank(s: Option<string>) {
    s.None? || s.value == ""
  }

  datatype Result<+R, +E> = Success(value: R) | Failure(error: E)

  /** What a call can throw. `Thrown` is a plain `Error` carrying its message. */
  datatype Error =
    | EntityNotFound(message: string)
    | Forbidden(message: string)
    | Thrown(message: string)
}
