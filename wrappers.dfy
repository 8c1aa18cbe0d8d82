/** Option and Result, the stock failure-carrying datatypes used across the model. */
module Wrappers {

  datatype Option<+T> = None | Some(value: T) {
    /** The wrapped value, or `default` when there is none (Python's `dict.get(k, default)`). */
    function GetOr(default: T): T {
      match this
      case Some(v) => v
      case None => default
    }
  }

  /** `Err` stands for a raised exception: the source raises and the model returns it. */
  datatype Result<+T, +E> = Ok(value: T) | Err(error: E)
}
