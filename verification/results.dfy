/** Option and Result, the two failure-carrying shapes the context store uses.
    `Result` supports `:-`, so a chain of fallible steps reads like Rust's `?`. */
module Results {

  datatype Option<+T> = None | Some(value: T) {

    /** The carried value, or `default` when there is none (Rust's `unwrap_or`). */
    function GetOr(default: T): T {
      match this
      case Some(v) => v
      case None => default
    }
  }

  datatype Result<+T, +E> = Ok(value: T) | Err(error: E) {

    predicate IsFailure() {
      Err?
    }

    function PropagateFailure<U>(): Result<U, E>
      requires Err?
    {
      Err(error)
    }

    function Extract(): T
      requires Ok?
    {
      value
    }

    /** Drops the error, as Rust's `.ok()` does. */
    function ToOption(): Option<T> {
      match this
      case Ok(v) => Some(v)
      case Err(_) => None
    }
  }
}
