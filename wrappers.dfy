/** Optional values and results, the Dafny counterparts of Swift's `Optional` and `Result`. */
module Wrappers {
  datatype Option<T> = None | Some(value: T) {
    /** `self ?? default`. */
    function GetOr(default: T): T {
      match this
      case Some(v) => v
      case None => default
    }
  }

  datatype Result<T, E> = Success(value: T) | Failure(error: E)
}
