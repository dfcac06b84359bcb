/** Option and Result datatypes used for the source's `None` returns and raised errors. */
module Wrappers {

  /** `None` stands for Python's `None`; `Some(v)` for a present value. */
  datatype Option<+T> = None | Some(value: T) {

    /** The value, or `default` when absent (Python's `dict.get(key, default)`). */
    function GetOr(default: T): T {
      match this
      case Some(v) => v
      case None => default
    }
  }

  /** `Failure` stands for an exception the source raises and does not catch. */
  datatype Result<+R, +E> = Success(value: R) | Failure(error: E)
}
