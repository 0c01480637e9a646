/** Option and Result, with the Python exceptions that the plugin lets
    escape modelled as the failure value of a Result. */
module Wrappers {

  datatype Option<+T> = None | Some(value: T) {
    function GetOr(default: T): T {
      match this
      case Some(v) => v
      case None => default
    }
  }

  /** The exceptions the plugin raises (and does not catch) on malformed input. */
  datatype PyError =
    | KeyError(key: string)          // a dictionary or attribute-map lookup missed
    | AttributeError(name: string)   // an attribute of None was used, e.g. after `find(name)` gave None
    | IndexError                     // `pop()` on an empty list, `s[-1]` on an empty string
    | TypeError                      // `None` used where a string is required
    | UnboundLocalError              // a local read before any assignment
    | NoneKey(tag: string)           // a name element without text, used as a key
    | IOError(path: string)          // a file that is not there was opened

  datatype Result<+T> = Ok(value: T) | Err(error: PyError) {
    predicate IsFailure() {
      Err?
    }

    function PropagateFailure<U>(): Result<U>
      requires Err?
    {
      Err(error)
    }

    function Extract(): T
      requires Ok?
    {
      value
    }
  }
}
