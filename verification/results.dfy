/** Failure-compatible result type used by every instruction handler of the model.
    An `Err` stands for an aborted Solana transaction: the runtime discards every
    write the instruction made, so a failing call carries no state at all. */
module Results {

  datatype Result<+T, +E> = Ok(value: T) | Err(error: E) {

    predicate IsFailure() {
      Err?
    }

    function PropagateFailure<U>(): Result<U, E>
      requires Err?
    {
      Err(error)
    }

    function Extract(): T
      requires Ok?
    {
      value
    }

    /** Re-labels the error of a failed result, keeping a success as it is. */
    function MapFailure<F>(wrap: E -> F): Result<T, F>
    {
      match this
      case Ok(v) => Ok(v)
      case Err(e) => Err(wrap(e))
    }
  }
}
