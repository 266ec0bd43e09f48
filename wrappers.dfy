/** Small failure-carrying datatypes shared by the weather and contact-book models. */
module Wrappers {

  /** A value that may be absent: Python's `None` or a present value. */
  datatype Option<T> = None | Some(value: T) {

    /** The value, or `default` when absent (Python's `x if x is not None else default`). */
    function GetOr(default: T): T {
      match this
      case Some(v) => v
      case None => default
    }
  }

  /** The outcome of a step that may raise: a value, or the text of the exception. */
  datatype Result<T, E> = Ok(value: T) | Err(error: E)
}
