/** Optional values and success/failure outcomes shared by the whole model. */
module Results {

  /** A value that may be absent: a JSON field that is missing, or a
      JavaScript argument that is `undefined`. */
  datatype Option<T> = None | Some(value: T) {

    /** The value if present, otherwise the given default (Python's
        `dict.get(key, default)`, a JavaScript default parameter). */
    function GetOr(default: T): T {
      match this
      case Some(v) => v
      case None => default
    }
  }

  /** The outcome of an operation that either produces a value or raises. */
  datatype Result<T, E> = Success(value: T) | Failure(error: E)
}
