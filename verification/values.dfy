/** Values shared by every stage of the E# pipeline: the dynamically typed
    runtime value (a token's value is one too) and a failure-compatible result. */
module Values {

  /** Python keeps token values and variable contents as either an `int` or a
      `str`; nothing else ever appears. */
  datatype Value = Int(i: int) | Str(s: string)

  /** A success/failure result usable with `:-`. */
  datatype Result<+T, +E> = Ok(value: T) | Err(error: E) {
    predicate IsFailure() {
      Err?
    }

    function PropagateFailure<U>(): Result<U, E>
      requires Err?
    {
      Err(error)
    }

    function Extract(): T
      requires Ok?
    {
      value
    }
  }

  datatype Option<+T> = None | Some(value: T)
}
