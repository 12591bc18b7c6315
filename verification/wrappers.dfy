/** Optional values and results with an error branch, used wherever the
    Python code returns `None`, reads a missing key, or raises. */
module Wrappers {

  /** A value that may be absent: Python's `None`, or a key missing from a dict. */
  datatype Option<+T> = None | Some(value: T) {

    /** `dict.get(key, default)`: the value when present, else the default. */
    function GetOr(default: T): (r: T)
      ensures Some? ==> r == value
      ensures None? ==> r == default
    {
      match this
      case Some(v) => v
      case None => default
    }
  }

  /** The outcome of a step that may raise: a value, or the exception it raised. */
  datatype Result<+T, +E> = Ok(value: T) | Err(error: E)
}
