/** Failure-carrying wrappers shared by every module of the model.
    `Option` stands for Python's `None`-or-value, `Result` for a value or a raised exception. */
module Base {

  datatype Option<+T> = None | Some(value: T) {
    /** The value, or `default` when there is none. */
    function GetOr(default: T): T {
      match this
      case Some(v) => v
      case None => default
    }
  }

  datatype Result<+T, +E> = Ok(value: T) | Err(error: E)
}
