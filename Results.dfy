/** Failure-carrying values used across the model: `Option` for Python's `None`,
    `Result` for a call that either returns or raises an exception. */
module Results {

  datatype Option<T> = None | Some(value: T)

  /** `Err` carries the text `str(e)` of the raised exception `e`; an `Err` met
      with `:-` propagates, as an uncaught exception does. */
  datatype Result<T> = Ok(value: T) | Err(message: string) {
    predicate IsFailure() { Err? }

    function PropagateFailure<U>(): Result<U>
      requires Err?
    {
      Err(message)
    }

    function Extract(): T
      requires Ok?
    {
      value
    }
  }

  /** The message Python gives for a float division by zero. */
  const DivisionByZero: string := "float division by zero"
}
