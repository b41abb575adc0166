/** Failure-carrying wrappers shared by every module of the dashboard model. */
module Types {

  /** A value that may be absent: a missing dictionary key, a missing storage item. */
  datatype Option<T> = None | Some(value: T) {

    /** The wrapped value, or `default` when absent (Python's `dict.get(k, default)`). */
    function GetOr(default: T): T {
      match this
      case Some(v) => v
      case None => default
    }
  }

  /** The outcome of an operation that can raise: a value, or the error it raised. */
  datatype Result<T, E> = Ok(value: T) | Err(error: E)
}
