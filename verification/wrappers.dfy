/** Failure-carrying datatypes used across the model: Python's `None` and
    raised exceptions become `Option` and `Result` values. */
module Wrappers {

  datatype Option<+T> = None | Some(value: T) {

    /** The wrapped value, or `default` when there is none (Python's `x or default`
        for values whose only falsy form is `None`). */
    function GetOr(default: T): T {
      match this
      case Some(v) => v
      case None => default
    }
  }

  datatype Result<+T, +E> = Ok(value: T) | Err(error: E)

  /** An optional string or a fallback: Python's `x or default` and
      JavaScript's `x || fallback` alike, since None, null and "" are all
      falsy in both. */
  function OrElse(x: Option<string>, fallback: string): (r: string)
    ensures x.Some? && x.value != "" ==> r == x.value
    ensures x.None? || x.value == "" ==> r == fallback
  {
    if x.Some? && x.value != "" then x.value else fallback
  }
}
