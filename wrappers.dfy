/** Optional values, the four kinds of failure the backend can produce, and
    results that carry either a value or one of those failures. */
module Wrappers {

  datatype Option<+T> = None | Some(value: T)

  /** The backend's failures.
      - InputError and AccessError are the two exceptions the handlers raise
        on purpose (backend/src/error.py).
      - DataError is raised by the store when an update would change a
        record's own id.
      - Fault stands for an exception the handlers do not raise on purpose
        (a TypeError on a missing record, a ValueError from list.remove):
        the request fails at that point, and whatever was already written
        stays written. */
  datatype Error = InputError | AccessError | DataError | Fault

  datatype Result<+T> = Ok(value: T) | Err(error: Error) {
    predicate IsFailure() { Err? }

    function PropagateFailure<U>(): Result<U>
      requires Err?
    {
      Err(error)
    }

    function Extract(): T
      requires Ok?
    {
      value
    }
  }
}
