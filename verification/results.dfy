/** Failure-compatible result types shared by the parser and the synthesizers. */
module Results {

  datatype Option<+T> = None | Some(value: T)

  /** A value or the error that prevented computing it; usable with `:-`. */
  datatype Result<+T, +E> = Ok(value: T) | Err(error: E) {
    predicate IsFailure() {
      Err?
    }

    function PropagateFailure<U>(): Result<U, E>
      requires Err?
    {
      Err(error)
    }

    function Extract(): T
      requires Ok?
    {
      value
    }
  }

  /** Success without a value, or an error. */
  datatype Outcome<+E> = Pass | Fail(error: E)
}
