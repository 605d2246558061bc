/** Optional values and the two Python exceptions the migration scripts can raise
    while building a statement. Any exception aborts the whole run, so a failure
    only needs to say which exception was raised and on which key. */
module Outcomes {

  datatype Option<+T> = None | Some(value: T)

  /** The exceptions that can escape a statement builder or a driver loop. */
  datatype PyError =
    | KeyError(key: string)   // `record[key]` on a record without that key
    | TypeError(key: string)  // a notes field that is not text, used where text is required

  datatype Result<+T> = Success(value: T) | Failure(error: PyError) {
    predicate IsFailure() { Failure? }

    function PropagateFailure<U>(): Result<U>
      requires Failure?
    {
      Failure(error)
    }

    function Extract(): T
      requires Success?
    {
      value
    }
  }
}
