/** Python's `None`-or-value, and value-or-exception. */
module Wrappers {

  datatype Option<+T> = None | Some(value: T) {
    function GetOr(default: T): T {
      if Some? then value else default
    }
  }

  datatype Attempt<+T, +E> = Ok(value: T) | Raised(error: E)
}
