/** Failure-compatible wrappers shared by the other modules. */
module Wrappers {

  /** `None` stands for a JavaScript value that is absent (undefined). */
  datatype Option<+T> = None | Some(value: T)
  {
    /** The value, or `default` when absent. */
    function GetOr(default: T): T
    {
      if Some? then value else default
    }
  }

  /** The outcome of an operation that may throw. */
  datatype Result<+R, +E> = Success(value: R) | Failure(error: E)
}
