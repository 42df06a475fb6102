/** Optional values, results, and the Python exceptions the engine can raise. */
module Wrappers {

  datatype Option<T> = None | Some(value: T) {
    function GetOr(default: T): T {
      match this
      case None => default
      case Some(v) => v
    }
  }

  /** A Python exception that escapes the modelled code, by kind. */
  datatype Exception =
    | TypeError
    | KeyError
    | AttributeError
    | IndexError
    | ValueError
    | ZeroDivisionError
      /** Any exception raised by a foreign service (Ollama, FAISS). */
    | ServiceError

  /** The outcome of Python code that either returns a value or raises. */
  datatype Result<T> = Ok(value: T) | Raise(error: Exception) {
    predicate IsOk() { Ok? }
  }
}
