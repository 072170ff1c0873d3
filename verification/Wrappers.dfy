/** Optional values and results, the shapes Rust's `Option` and `Result` take in this project. */
module Wrappers {

  datatype Option<+T> = None | Some(value: T)

  /** A result; the three members give `:-` the meaning of Rust's `?`. */
  datatype Result<+T, +E> = Ok(value: T) | Err(error: E) {
    predicate IsFailure() {
      Err?
    }

    function PropagateFailure<U>(): Result<U, E>
      requires Err?
    {
      Err(error)
    }

    function Extract(): T
      requires Ok?
    {
      value
    }
  }
}
