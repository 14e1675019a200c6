/** Option, and the outcome of a Python call that can raise. */
module Wrappers {

  datatype Option<+T> = None | Some(value: T) {
    function GetOr(default: T): T {
      match this
      case Some(v) => v
      case None => default
    }
  }

  /** The exceptions the Python tree lets escape from the modelled functions. */
  datatype PyError =
    | ReadError        // OSError or UnicodeDecodeError from reading a file
    | WriteError       // OSError from creating a directory or writing a file
    | ProcessError     // OSError from starting a process outside a `try`
    | AttributeError   // `.get` called on a decoded JSON value that is not a dict
    | ValueError       // tuple unpacking of a split that found no separator
    | IndexError       // `[0]` on an empty list
    | TypeError        // `int()` of None, a list or a dict
    | SystemExit       // `raise SystemExit(...)`

  /** What a Python call does: return a value or raise. */
  datatype Py<+T> = Returned(value: T) | Raised(error: PyError)
}
