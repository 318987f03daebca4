/** Optional values and success/failure results, used for JavaScript's
    `null`/`undefined` and for the errors the store throws. */
module Results {

  datatype Option<T> = None | Some(value: T) {
    function GetOr(default: T): T {
      match this
      case Some(v) => v
      case None => default
    }
  }

  datatype Result<T, E> = Success(value: T) | Failure(error: E)
}
