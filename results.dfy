/** Failure-carrying wrappers: the Python code raises exceptions and uses
    `None`; the model returns these values instead. */
module Results {

  /** A value that may be absent, as Python's `None`. */
  datatype Option<+T> = None | Some(value: T) {
    /** `x or default` for an optional value. */
    function GetOr(default: T): T {
      match this
      case Some(v) => v
      case None => default
    }
  }

  /** Either a computed value or the error the source would raise. */
  datatype Result<+T, +E> = Ok(value: T) | Err(error: E)
}
