/** Optional values and the outcome of a guarded service call. */
module Options {

  datatype Option<+T> = None | Some(value: T)

  /** What a service call comes to: a value, or the exception it raised. */
  datatype Attempt<+T, +E> = Ok(value: T) | Refused(error: E) {
    predicate IsFailure() { Refused? }

    function PropagateFailure<U>(): Attempt<U, E>
      requires Refused?
    {
      Refused(error)
    }

    function Extract(): T
      requires Ok?
    {
      value
    }
  }

  /** The verdict of one guard; it carries no value, so `:- Need(...)` can stand alone. */
  datatype Guard<+E> = Pass | Fail(error: E) {
    predicate IsFailure() { Fail? }

    function PropagateFailure<U>(): Attempt<U, E>
      requires Fail?
    {
      Refused(error)
    }
  }

  function Need<E>(condition: bool, error: E): Guard<E> {
    if condition then Pass else Fail(error)
  }
}
