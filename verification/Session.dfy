/**
  Session and operation life cycles, and the durable record as a value
  (crates/sysboost-core/src/session.rs, transaction.rs).
 */
module Session {
  import opened Outcome
  import opened Bytes
  import opened Text
  import opened Mutation

  const MAX_OPERATIONS: nat := 4096
  const MAX_TRANSITIONS: nat := 16_384
  const MAX_TARGETS: nat := 4096
  const MAX_FAILURES: nat := 4096
  const MAX_REASON_BYTES: nat := 1024

  datatype SessionState =
    | New | Detected | Planned | Snapshotted | IntentDurable | Applying
    | Active | Restoring | Restored | RollingBack | Degraded | RecoveryPending
  {
    /** The legal session transitions. */
    predicate CanTransition(next: SessionState) {
      match this
      case New => next.Detected?
      case Detected => next.Planned?
      case Planned => next.Snapshotted?
      case Snapshotted => next.IntentDurable?
      case IntentDurable => next.Applying? || next.RollingBack?
      case Applying => next.Active? || next.RollingBack?
      case Active => next.Restoring?
      case Restoring => next.Restored? || next.Degraded?
      case RollingBack => next.Restored? || next.Degraded?
      case Degraded => next.RecoveryPending?
      case RecoveryPending => next.Restoring? || next.Degraded?
      case Restored => false
    }
  }

  datatype OperationState =
    | OpPlanned | OpSnapshotted | OpIntentRecorded | OpApplying | OpApplied
    | OpVerified | OpRestoring | OpRestored | OpFailed | OpRestoreFailed
  {
    /** The legal operation transitions. */
    predicate CanTransition(next: OperationState) {
      match this
      case OpPlanned => next.OpSnapshotted?
      case OpSnapshotted => next.OpIntentRecorded?
      case OpIntentRecorded => next.OpApplying?
      case OpApplying => next.OpApplied? || next.OpFailed? || next.OpRestoring?
      case OpApplied => next.OpVerified? || next.OpFailed? || next.OpRestoring?
      case OpVerified => next.OpRestoring?
      case OpFailed => next.OpRestoring?
      case OpRestoring => next.OpRestored? || next.OpRestoreFailed?
      case OpRestoreFailed => next.OpRestoring?
      case OpRestored => false
    }
  }

  datatype Stage =
    | DetectStage | PlanStage | SnapshotStage | DurableIntentStage | ApplyStage
    | VerifyStage | RestoreStage | RecoveryStage | TransportStage | ConfigStage

  datatype Header = Header(
    sessionId: Bytes16, planId: Bytes16, planDigest: Bytes32, createdAt: u128, targets: seq<Identifier>)

  datatype Session = Session(header: Header, state: SessionState)

  datatype TransitionRecord = TransitionRecord(
    sequence: u64, sessionId: Bytes16, from: SessionState, to: SessionState, at: u128, reason: Utf8)

  datatype Verification = Verification(
    id: MutationId, expected: Fingerprint, observed: Option<Fingerprint>, matched: bool)

  datatype Failure = Failure(code: ErrorCode, stage: Stage, id: Option<MutationId>, message: Utf8)

  datatype Operation = Operation(
    mutation: PlannedMutation,
    state: OperationState,
    snapshot: Option<Snapshot>,
    apply: Option<ApplyReceipt>,
    verification: Option<Verification>,
    restore: Option<RestoreReceipt>,
    failure: Option<Failure>)

  datatype Record = Record(
    session: Session,
    operations: seq<Operation>,
    transitions: seq<TransitionRecord>,
    failures: seq<Failure>)

  // ----- what a durable record must satisfy (`validate_for_serialization`)

  /** An all-zero identity token stands for no identity. */
  predicate IsIdentified(identity: Bytes16) {
    exists i :: 0 <= i < |identity| && identity[i] != 0
  }

  predicate PresenceIs(op: Operation, snapshot: bool, apply: bool, verification: bool, restore: bool) {
    && op.snapshot.Some? == snapshot && op.apply.Some? == apply
    && op.verification.Some? == verification && op.restore.Some? == restore
  }

  /** Which receipts each operation state must and must not carry. */
  predicate ShapeValid(op: Operation) {
    match op.state
    case OpPlanned => PresenceIs(op, false, false, false, false)
    case OpSnapshotted => PresenceIs(op, true, false, false, false)
    case OpIntentRecorded => PresenceIs(op, true, false, false, false)
    case OpApplying => PresenceIs(op, true, false, false, false)
    case OpApplied => PresenceIs(op, true, true, false, false)
    case OpVerified => PresenceIs(op, true, true, true, false) && op.verification.value.matched
    case OpRestoring => op.snapshot.Some? && op.apply.Some? && op.restore.None?
    case OpRestored => op.snapshot.Some? && op.apply.Some? && op.restore.Some?
    case OpFailed =>
      && op.snapshot.Some? && op.restore.None?
      && (op.verification.Some? ==> !op.verification.value.matched)
    case OpRestoreFailed => op.snapshot.Some? && op.apply.Some? && op.restore.None?
  }

  /** The captured original is the planned precondition of an identified target. */
  predicate SnapshotBound(m: PlannedMutation, s: Snapshot) {
    && s.id == m.id && s.target == m.target && s.equality == m.equality
    && s.fingerprint == m.precondition
    && IsIdentified(s.identity)
  }

  predicate ApplyBound(m: PlannedMutation, a: ApplyReceipt) {
    a.id == m.id && a.precondition == m.precondition && a.postcondition == a.ownership
  }

  predicate VerificationBound(m: PlannedMutation, a: ApplyReceipt, v: Verification) {
    v.id == m.id && v.expected == a.ownership && (v.matched <==> v.observed == Some(v.expected))
  }

  predicate RestoreBound(m: PlannedMutation, s: Snapshot, r: RestoreReceipt) {
    r.id == m.id && r.verified && r.restored == s.fingerprint
  }

  predicate ReceiptsBound(op: Operation) {
    && (op.snapshot.Some? ==> SnapshotBound(op.mutation, op.snapshot.value))
    && (op.apply.Some? ==> op.snapshot.Some? && ApplyBound(op.mutation, op.apply.value))
    && (op.verification.Some? ==>
          op.apply.Some? && VerificationBound(op.mutation, op.apply.value, op.verification.value))
    && (op.restore.Some? ==>
          op.snapshot.Some? && op.apply.Some? && RestoreBound(op.mutation, op.snapshot.value, op.restore.value))
  }

  predicate ValidOperation(op: Operation) {
    ReceiptsBound(op) && ShapeValid(op)
  }

  predicate DistinctIds(ops: seq<Operation>) {
    forall i, j :: 0 <= i < j < |ops| ==> ops[i].mutation.id != ops[j].mutation.id
  }

  /** The journal is a chain of legal transitions numbered from 1 and starting at `New`. */
  predicate ChainValid(id: Bytes16, ts: seq<TransitionRecord>) {
    forall i :: 0 <= i < |ts| ==>
      && ts[i].sequence == i + 1
      && ts[i].sessionId == id
      && ts[i].from == ChainState(ts[..i])
      && ts[i].from.CanTransition(ts[i].to)
  }

  function ChainState(ts: seq<TransitionRecord>): SessionState {
    if ts == [] then New else ts[|ts| - 1].to
  }

  predicate CountsValid(r: Record) {
    && 0 < |r.operations| <= MAX_OPERATIONS
    && |r.transitions| <= MAX_TRANSITIONS
    && |r.failures| <= MAX_FAILURES
  }

  predicate LeasesMatch(r: Record) {
    && |r.session.header.targets| == |r.operations|
    && forall i :: 0 <= i < |r.operations| ==> r.session.header.targets[i] == r.operations[i].mutation.target
  }

  predicate ValidRecord(r: Record) {
    && CountsValid(r)
    && DistinctIds(r.operations)
    && (forall i :: 0 <= i < |r.operations| ==> ValidOperation(r.operations[i]))
    && LeasesMatch(r)
    && ChainValid(r.session.header.sessionId, r.transitions)
    && ChainState(r.transitions) == r.session.state
  }

  /** Records built through the validating constructors of the vocabulary. */
  predicate BuiltByConstructors(r: Record) {
    forall i :: 0 <= i < |r.operations| ==> OperationBuilt(r.operations[i])
  }

  predicate OperationBuilt(op: Operation) {
    && Constructed(op.mutation)
    && KindBounded(op.mutation.kind)
    && (op.snapshot.Some? ==> ValueBounded(op.snapshot.value.typed))
  }
}
