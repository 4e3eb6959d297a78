/** Option and Result, with the kinds of Python exception the modelled code
    can raise as the error type of Result. */
module Wrappers {

  datatype Option<+T> = None | Some(value: T) {
    function GetOr(default: T): T {
      match this
      case Some(v) => v
      case None => default
    }
  }

  /** The exceptions the modelled functions raise or let propagate. */
  datatype Exc =
    | AssertionError          // a failed `assert` statement
    | IndexError              // indexing past the end of a list
    | KeyError                // a missing dictionary key
    | TypeError               // e.g. concatenating a string and None
    | ValueError              // a bad argument value, or a failed strptime
    | AttributeError          // calling a method on None
    | UnboundLocalError       // reading a variable no branch assigned
    | FileNotFound            // opening a file that does not exist
    | KqmlError               // KQMLPerformative.from_string rejected a message
    | NotFound                // the Docker daemon knows no such container
    | ApiError                // any other error the Docker daemon reports
    | SessionLimitExceeded    // the session cap was reached

  datatype Result<+T> = Ok(value: T) | Err(exc: Exc)
}
