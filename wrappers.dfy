/** Failure-carrying values: an optional value (Python's None) and the
    outcome of a Python computation that may raise. */
module Wrappers {

  /** A nullable value: `None` is Python's None. */
  datatype Option<+T> = None | Some(value: T)

  /** The exceptions the modelled code can raise and does not catch. */
  datatype PyError =
    | ValueError      // int() of a token that is not a numeral
    | IndexError      // a list index past the end
    | AttributeError  // a method call on None (an unset string field)

  /** Either the value computed or the exception raised on the way. */
  datatype Outcome<+T> = Ok(value: T) | Raises(error: PyError)
}
