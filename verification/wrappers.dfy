/** The optional value used wherever the C# code returns or accepts `null`,
    and the outcome of an operation that may throw. */
module Wrappers {

  /** `None` stands for a C# `null`; `Some(v)` for a present value. */
  datatype Option<+T> = None | Some(value: T) {

    /** The value, or `default` when absent (the C# `??` operator). */
    function GetOr(default: T): T {
      match this
      case Some(v) => v
      case None => default
    }
  }

  /** The outcome of an operation that either succeeds with a value or
      throws; `error` says what it threw about. */
  datatype Result<+T, +E> = Success(value: T) | Failure(error: E)
}
