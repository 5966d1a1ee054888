/** Failure-carrying wrappers shared by every module of the model. */
module Results {

  /** A value that may be absent: Python's None, a missing dictionary key, an undefined registry entry. */
  datatype Option<+T> = None | Some(value: T) {

    /** The wrapped value, or `default` when there is none. */
    function GetOr(default: T): T {
      match this
      case Some(v) => v
      case None => default
    }
  }

  /** The outcome of a computation that may raise. */
  datatype Result<+T, +E> = Ok(value: T) | Err(error: E)
}
