/** Optional values and success/failure results shared by every module. */
module Wrappers {

  /** A value that may be absent (JavaScript `undefined`/`null`). */
  datatype Option<+T> = None | Some(value: T)

  /** The outcome of an operation that can fail: a remote call that rejects,
      or an expression that throws a TypeError. */
  datatype Result<+T, +E> = Success(value: T) | Failure(error: E)

  /** How a promise ends: resolved, rejected, or never settled (the code that
      should settle it threw first, inside an async executor). */
  datatype Outcome<+T, +E> = Resolved(value: T) | Rejected(reason: E) | Unsettled
}
