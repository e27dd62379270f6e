/** Python values the scripts rely on: None-or-value, the exceptions they can
    raise, and the result of a statement that either completes or raises. */
module Py {

  datatype Option<+T> = None | Some(value: T)

  /** The exceptions that can escape from the modelled code. */
  datatype Exception =
    | AttributeError  // `.string` or `.strip()` on None
    | KeyError        // a missing response header
    | IndexError      // `pop(0)` on an empty list

  /** A computation that either produces a value or raises. */
  datatype Outcome<+T> = Ok(value: T) | Raised(error: Exception)
}
