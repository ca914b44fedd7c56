/** Failure-compatible wrappers used for the results of foreign calls and of resolution. */
module Wrappers {

  /** A value that may be missing: a failed foreign parse, or a key absent from a document. */
  datatype Option<+T> = None | Some(value: T) {

    /** The wrapped value, or `default` when there is none. */
    function GetOr(default: T): T {
      match this
      case Some(v) => v
      case None => default
    }
  }

  /** Either a successfully computed value or the error that stopped the computation. */
  datatype Result<+T, +E> = Success(value: T) | Failure(error: E)
}
