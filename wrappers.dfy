/** Values that may be absent, and computations that may raise.

    `Option` stands for a Python value that may be `None`; `Result` stands for
    a Python computation that either returns a value or raises one of the
    built-in exceptions the modelled code can raise. */
module Wrappers {

  datatype Option<+T> = None | Some(value: T)

  /** The built-in Python exceptions that the modelled code can raise. */
  datatype Exception =
    | ValueError      // float()/int() on a malformed text, unpacking an empty zip, datetime out of range
    | KeyError        // a missing dictionary key
    | IndexError      // a list index past the end
    | AttributeError  // `.append` on a value that is not a list
    | DecodeError     // json.loads on a text that is not JSON
    | TypeError       // a string key used on a loaded JSON value that is not an object
    | OverflowError   // an integer argument of `datetime` outside the range of a C `int`

  datatype Result<+T> = Success(value: T) | Failure(exception: Exception)
}
