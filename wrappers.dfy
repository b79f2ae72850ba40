/** Optional values and pass/fail outcomes shared by the other modules. */
module Wrappers {

  /** A value that may be missing: an absent dictionary key or a `None` argument. */
  datatype Option<+T> = None | Some(value: T) {

    /** The value, or `default` when it is missing (Python's `dict.get(key, default)`). */
    function GetOr(default: T): T {
      match this
      case Some(v) => v
      case None => default
    }
  }

  /** The result of an operation that returns nothing or raises an error. */
  datatype Outcome<+E> = Pass | Fail(error: E)
}
