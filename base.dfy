/** Option and Result, the two wrappers every other module uses for
    Python's `None` and for exceptions. */
module Base {

  datatype Option<+T> = None | Some(value: T)

  /** `Ok` is a normal return; `Err` stands for a raised exception. */
  datatype Result<+T, +E> = Ok(value: T) | Err(error: E) {
    predicate IsFailure() { Err? }

    function PropagateFailure<U>(): Result<U, E>
      requires Err?
    {
      Err(error)
    }

    function Extract(): T
      requires Ok?
    {
      value
    }
  }
}
