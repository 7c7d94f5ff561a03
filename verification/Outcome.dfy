/** Stock result types and the stable error categories of the source. */
module Outcome {

  datatype Option<+T> = None | Some(value: T)

  /** The closed error taxonomy (`ErrorCode`).  Messages and contexts are not part of the model. */
  datatype ErrorCode =
    | ConfigError | CapabilityError | Unsupported | AuthorizationError
    | TargetError | PlanningError | SnapshotError | DurabilityError
    | TransportError | ApplyError | VerificationError | RestoreConflict
    | RestoreError | JournalCorrupt | InvariantViolation | InvalidInput

  datatype Result<+T> = Ok(value: T) | Err(code: ErrorCode) {
    predicate IsFailure() { Err? }

    function PropagateFailure<U>(): Result<U>
      requires Err?
    {
      Err(code)
    }

    function Extract(): T
      requires Ok?
    {
      value
    }
  }

  /** The `()` of a fallible operation without a result. */
  datatype Unit = Unit
}
