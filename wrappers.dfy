/** Option and Result, the two failure-carrying datatypes the model uses. */
module Wrappers {

  /** An optional value; `None` also stands for Python's `None`. */
  datatype Option<+T> = None | Some(value: T) {

    /** The value held, or `default` when there is none. */
    function GetOr(default: T): T {
      match this
      case Some(v) => v
      case None => default
    }
  }

  /** A value, or the error that was raised instead of producing it. */
  datatype Result<+R, +E> = Ok(value: R) | Err(error: E)
}
