/** Option and Result, the two failure-carrying datatypes that the Rust and
    TypeScript code base uses everywhere (`Option<T>`, `Result<T, String>`). */
module Wrappers {

  datatype Option<+T> = None | Some(value: T) {
    function GetOr(default: T): T {
      match this
      case Some(v) => v
      case None => default
    }
  }

  /** A Rust `Result<T, String>`: the error side is always a message. */
  datatype Result<+T> = Ok(value: T) | Err(error: string) {
    function ToOption(): Option<T> {
      match this
      case Ok(v) => Some(v)
      case Err(_) => None
    }
  }

  /** A Rust `Result<(), String>`. */
  datatype Outcome = Pass | Fail(error: string)
}
