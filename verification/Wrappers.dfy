/** Option and Result, with the store's error classes in place of its error type.
    The many format-error messages of the source are one class here. */
module Wrappers {
  datatype Option<+T> = None | Some(value: T) {
    predicate IsFailure() { None? }

    function PropagateFailure<U>(): Option<U>
      requires None?
    {
      None
    }

    function Extract(): T
      requires Some?
    {
      value
    }
  }

  datatype Error =
    | Format
    | Io
    | CheckpointNotFound
    | CheckpointDeleted
    | RequestIdConflict
    | PruneRequiresSealedStore
    | PruneRequiresEagerRecovery
    | RecoveryRequired
    | DurabilityIndeterminate

  datatype Result<+T> = Ok(value: T) | Err(error: Error) {
    predicate IsFailure() { Err? }

    function PropagateFailure<U>(): Result<U>
      requires Err?
    {
      Err(error)
    }

    function Extract(): T
      requires Ok?
    {
      value
    }
  }

  /** Fails with a format error unless the condition holds. */
  function Check(condition: bool): Result<()> {
    if condition then Ok(()) else Err(Format)
  }
}
