/** Option and Result types shared by the codec and the tag analytics. */
module Common {

  datatype Option<+T> = None | Some(value: T)

  /** A value or the error the Python code raises instead of returning one. */
  datatype Result<+T, +E> = Ok(value: T) | Err(error: E) {
    predicate IsFailure() { Err? }

    function PropagateFailure<U>(): Result<U, E>
      requires Err?
    {
      Err(error)
    }

    function Extract(): T
      requires Ok?
    {
      value
    }
  }
}
