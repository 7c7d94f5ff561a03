/**
  What the methods of a session record do, as functions on record values
  (crates/sysboost-core/src/transaction.rs, 180-472), and what every run of them keeps.
 */
module Lifecycle {
  import opened Outcome
  import opened Bytes
  import opened Text
  import opened Mutation
  import opened Session

  /** The parts of a structured domain error that a failure record retains. */
  datatype DomainError = DomainError(code: ErrorCode, message: Utf8, stage: Option<Stage>, id: Option<MutationId>)

  /** `FailureRecord::from_error`. */
  function FailureOf(e: DomainError): Failure {
    Failure(e.code, if e.stage.Some? then e.stage.value else RecoveryStage, e.id,
            Truncated(e.message, MAX_REASON_BYTES))
  }

  /** One call of a session-record method. */
  datatype Event =
    | Capture(snapshot: Snapshot)
    | RecordIntent
    | BeginApply(id: MutationId)
    | RecordApply(id: MutationId, receipt: ApplyReceipt)
    | RecordVerification(id: MutationId, result: Verification)
    | FailOperation(id: MutationId, error: DomainError)
    | BeginRestore(id: MutationId)
    | RecordRestore(id: MutationId, proof: RestoreReceipt)
    | FailRestore(id: MutationId, error: DomainError)
    | RecordFailure(error: DomainError)
    | Advance(next: SessionState, at: u128, reason: Utf8)

  type Done = Result<Unit>

  // ----- one operation

  /** `OperationRecord::transition`. */
  function Move(op: Operation, next: OperationState): (Operation, Done) {
    if op.state.CanTransition(next) then (op.(state := next), Ok(Unit)) else (op, Err(InvariantViolation))
  }

  /** The events that go to one operation. */
  predicate Local(ev: Event) {
    !ev.RecordIntent? && !ev.RecordFailure? && !ev.Advance?
  }

  function Addressee(ev: Event): MutationId
    requires Local(ev)
  {
    if ev.Capture? then ev.snapshot.id else ev.id
  }

  /** The addressed operation and the result after a local event; receipts are stored before the state moves. */
  function OperationStep(op: Operation, ev: Event): (Operation, Done)
    requires Local(ev)
  {
    match ev
    case Capture(s) =>
      if s.target != op.mutation.target || s.equality != op.mutation.equality
         || s.fingerprint != op.mutation.precondition || !IsIdentified(s.identity)
      then (op, Err(SnapshotError))
      else if op.snapshot.Some? || op.state != OpPlanned then (op, Err(InvariantViolation))
      else Move(op.(snapshot := Some(s)), OpSnapshotted)
    case BeginApply(_) => Move(op, OpApplying)
    case RecordApply(id, receipt) =>
      if receipt.id != id then (op, Err(InvariantViolation))
      else Move(op.(apply := Some(receipt)), OpApplied)
    case RecordVerification(id, result) =>
      if result.id != id then (op, Err(InvariantViolation))
      else Move(op.(verification := Some(result)), if result.matched then OpVerified else OpFailed)
    case FailOperation(_, error) =>
      var failed := op.(failure := Some(FailureOf(error)));
      if op.state == OpFailed then (failed, Ok(Unit)) else Move(failed, OpFailed)
    case BeginRestore(_) =>
      if op.state == OpRestored then (op, Ok(Unit)) else Move(op, OpRestoring)
    case RecordRestore(id, proof) =>
      if proof.id != id || !proof.verified then (op, Err(InvariantViolation))
      else Move(op.(restore := Some(proof)), OpRestored)
    case FailRestore(_, error) =>
      var failed := op.(failure := Some(FailureOf(error)));
      if op.state == OpRestoreFailed then (failed, Ok(Unit)) else Move(failed, OpRestoreFailed)
  }

  predicate NeedsRestore(op: Operation) { op.apply.Some? && op.state != OpRestored }

  // ----- the record

  /** The index of the first operation with an ID, or the number of operations. */
  function IndexOf(ops: seq<Operation>, id: MutationId): (i: nat)
    ensures i <= |ops|
    ensures i < |ops| ==> ops[i].mutation.id == id
    ensures forall j :: 0 <= j < i ==> ops[j].mutation.id != id
  {
    if ops == [] || ops[0].mutation.id == id then 0 else 1 + IndexOf(ops[1..], id)
  }

  function LocalStep(r: Record, ev: Event): (Record, Done)
    requires Local(ev)
  {
    var i := IndexOf(r.operations, Addressee(ev));
    if i == |r.operations| then (r, Err(InvariantViolation))
    else
      var (op, done) := OperationStep(r.operations[i], ev);
      var r' := r.(operations := r.operations[i := op]);
      if (ev.FailOperation? || ev.FailRestore?) && done.Ok?
      then (r'.(failures := r.failures + [FailureOf(ev.error)]), done)
      else (r', done)
  }

  predicate AllSnapshotted(ops: seq<Operation>) {
    forall i :: 0 <= i < |ops| ==> ops[i].state == OpSnapshotted
  }

  function WithIntent(ops: seq<Operation>): (r: seq<Operation>)
    ensures |r| == |ops|
    ensures forall i :: 0 <= i < |ops| ==> r[i] == ops[i].(state := OpIntentRecorded)
  {
    if ops == [] then [] else [ops[0].(state := OpIntentRecorded)] + WithIntent(ops[1..])
  }

  predicate ReasonAccepted(reason: Utf8) {
    reason != [] && |reason| <= MAX_REASON_BYTES && 0 !in reason
  }

  function NextSequence(ts: seq<TransitionRecord>): u64 {
    if ts == [] then 1
    else if ts[|ts| - 1].sequence == 0xFFFF_FFFF_FFFF_FFFF then 0xFFFF_FFFF_FFFF_FFFF
    else ts[|ts| - 1].sequence + 1
  }

  function AdvanceStep(r: Record, next: SessionState, at: u128, reason: Utf8): (Record, Done) {
    if !ReasonAccepted(reason) then (r, Err(InvalidInput))
    else if !r.session.state.CanTransition(next) then (r, Err(InvariantViolation))
    else
      var entry := TransitionRecord(NextSequence(r.transitions), r.session.header.sessionId,
                                    r.session.state, next, at, reason);
      (r.(session := r.session.(state := next), transitions := r.transitions + [entry]), Ok(Unit))
  }

  /** One method call on a record. */
  function Step(r: Record, ev: Event): (Record, Done) {
    match ev
    case RecordIntent =>
      if AllSnapshotted(r.operations) then (r.(operations := WithIntent(r.operations)), Ok(Unit))
      else (r, Err(InvariantViolation))
    case RecordFailure(error) => (r.(failures := r.failures + [FailureOf(error)]), Ok(Unit))
    case Advance(next, at, reason) => AdvanceStep(r, next, at, reason)
    case _ => LocalStep(r, ev)
  }

  function Run(r: Record, evs: seq<Event>): Record
    decreases |evs|
  {
    if evs == [] then r else Run(Step(r, evs[0]).0, evs[1..])
  }

  // ----- which calls keep a valid record valid

  predicate HoldsReceipt(op: Operation) { op.apply.Some? }

  /** What a caller must check before a local call on a valid operation. */
  predicate LocalAdmissible(op: Operation, ev: Event)
    requires Local(ev)
  {
    match ev
    case Capture(_) => true
    case BeginApply(_) => true
    case RecordApply(id, receipt) =>
      receipt.id == id ==>
        && (op.state.OpApplying? || op.state.OpFailed? || HoldsReceipt(op))
        && receipt.precondition == op.mutation.precondition
        && receipt.postcondition == receipt.ownership
        && (op.verification.Some? ==> op.verification.value.expected == receipt.ownership)
    case RecordVerification(id, result) =>
      result.id == id ==>
        && HoldsReceipt(op)
        && result.expected == op.apply.value.ownership
        && (result.matched <==> result.observed == Some(result.expected))
        && (op.state.OpFailed? ==> !result.matched)
        && (op.state.OpVerified? ==> result.matched)
    case FailOperation(_, _) => true
    case BeginRestore(_) => op.state.OpApplying? || op.state.OpFailed? ==> HoldsReceipt(op)
    case RecordRestore(id, proof) =>
      proof.id == id && proof.verified ==>
        && (op.state.OpRestoring? || op.state.OpRestored?)
        && op.snapshot.Some? && proof.restored == op.snapshot.value.fingerprint
    case FailRestore(_, _) => true
  }

  /** The call appends a failure record. */
  predicate AddsFailure(r: Record, ev: Event) {
    || ev.RecordFailure?
    || ((ev.FailOperation? || ev.FailRestore?) && Step(r, ev).1.Ok?)
  }

  /** What a caller must check before a call on a valid record. */
  predicate Admissible(r: Record, ev: Event) {
    && (AddsFailure(r, ev) ==> |r.failures| < MAX_FAILURES)
    && (ev.Advance? && Step(r, ev).1.Ok? ==> |r.transitions| < MAX_TRANSITIONS)
    && (Local(ev) ==>
          var i := IndexOf(r.operations, Addressee(ev));
          i < |r.operations| ==> LocalAdmissible(r.operations[i], ev))
  }

  /** A local call keeps a valid operation valid exactly when it is admissible. */
  lemma {:induction false} OperationStepValid(op: Operation, ev: Event)
    requires Local(ev) && Addressee(ev) == op.mutation.id
    requires ValidOperation(op)
    ensures ValidOperation(OperationStep(op, ev).0) <==> LocalAdmissible(op, ev)
    ensures OperationStep(op, ev).0.mutation == op.mutation
  {
  }

  /** The record after replacing one operation by another state of the same mutation. */
  lemma {:induction false} ReplacedValid(r: Record, i: nat, op: Operation, r': Record)
    requires ValidRecord(r) && i < |r.operations| && op.mutation == r.operations[i].mutation
    requires r'.session == r.session && r'.transitions == r.transitions
    requires r'.operations == r.operations[i := op]
    ensures ValidRecord(r') <==> ValidOperation(op) && |r'.failures| <= MAX_FAILURES
  {
    assert r'.operations[i] == op;
    assert forall j :: 0 <= j < |r.operations| ==> r'.operations[j].mutation == r.operations[j].mutation;
    assert forall j :: 0 <= j < |r.operations| && j != i ==> r'.operations[j] == r.operations[j];
  }

  lemma {:induction false} ChainGrows(id: Bytes16, ts: seq<TransitionRecord>, t: TransitionRecord)
    requires ChainValid(id, ts)
    requires t.sequence == |ts| + 1 && t.sessionId == id && t.from == ChainState(ts) && t.from.CanTransition(t.to)
    ensures ChainValid(id, ts + [t]) && ChainState(ts + [t]) == t.to
  {
    forall i | 0 <= i <= |ts| ensures (ts + [t])[..i] == ts[..i] {
    }
    assert ts[..|ts|] == ts;
  }

  /** The record after appending a legal transition. */
  lemma {:induction false} AdvancedValid(r: Record, t: TransitionRecord, r': Record)
    requires ValidRecord(r)
    requires t.sequence == |r.transitions| + 1 && t.sessionId == r.session.header.sessionId
    requires t.from == r.session.state && t.from.CanTransition(t.to)
    requires r'.session == r.session.(state := t.to) && r'.transitions == r.transitions + [t]
    requires r'.operations == r.operations && r'.failures == r.failures
    ensures ValidRecord(r') <==> |r.transitions| < MAX_TRANSITIONS
  {
    ChainGrows(r.session.header.sessionId, r.transitions, t);
  }

  lemma {:induction false} AdvanceValid(r: Record, next: SessionState, at: u128, reason: Utf8)
    requires ValidRecord(r)
    ensures ValidRecord(AdvanceStep(r, next, at, reason).0)
            <==> (AdvanceStep(r, next, at, reason).1.Ok? ==> |r.transitions| < MAX_TRANSITIONS)
  {
    if ReasonAccepted(reason) && r.session.state.CanTransition(next) {
      var t := TransitionRecord(NextSequence(r.transitions), r.session.header.sessionId, r.session.state, next, at, reason);
      assert |r.transitions| > 0 ==> r.transitions[|r.transitions| - 1].sequence == |r.transitions|;
      AdvancedValid(r, t, AdvanceStep(r, next, at, reason).0);
    }
  }

  lemma {:induction false} LocalStepValid(r: Record, ev: Event)
    requires ValidRecord(r) && Local(ev)
    ensures ValidRecord(LocalStep(r, ev).0) <==> Admissible(r, ev)
  {
    var i := IndexOf(r.operations, Addressee(ev));
    if i < |r.operations| {
      OperationStepValid(r.operations[i], ev);
      ReplacedValid(r, i, OperationStep(r.operations[i], ev).0, LocalStep(r, ev).0);
    }
  }

  lemma {:induction false} IntentValid(r: Record, r': Record)
    requires ValidRecord(r) && AllSnapshotted(r.operations)
    requires r' == r.(operations := WithIntent(r.operations))
    ensures ValidRecord(r')
  {
    assert forall i :: 0 <= i < |r.operations| ==> r'.operations[i].mutation == r.operations[i].mutation;
  }

  /** A call keeps a valid record valid exactly when it is admissible. */
  lemma {:induction false} StepValid(r: Record, ev: Event)
    requires ValidRecord(r)
    ensures ValidRecord(Step(r, ev).0) <==> Admissible(r, ev)
  {
    if Local(ev) {
      LocalStepValid(r, ev);
    } else if ev.Advance? {
      AdvanceValid(r, ev.next, ev.at, ev.reason);
    } else if ev.RecordIntent? && AllSnapshotted(r.operations) {
      IntentValid(r, Step(r, ev).0);
    }
  }

  /** Every record along a run is valid. */
  predicate StaysValid(r: Record, evs: seq<Event>)
    decreases |evs|
  {
    ValidRecord(r) && (evs != [] ==> StaysValid(Step(r, evs[0]).0, evs[1..]))
  }

  /** Every call of a run is admissible where it is made. */
  predicate RunAdmissible(r: Record, evs: seq<Event>)
    decreases |evs|
  {
    evs != [] ==> Admissible(r, evs[0]) && RunAdmissible(Step(r, evs[0]).0, evs[1..])
  }

  /** A run from a valid record stays valid exactly when each of its calls is admissible. */
  lemma {:induction false} RunValid(r: Record, evs: seq<Event>)
    requires ValidRecord(r)
    ensures StaysValid(r, evs) <==> RunAdmissible(r, evs)
    decreases |evs|
  {
    if evs != [] {
      StepValid(r, evs[0]);
      if Admissible(r, evs[0]) {
        RunValid(Step(r, evs[0]).0, evs[1..]);
      }
    }
  }

  /** `record_intent` moves every operation, or none: it succeeds exactly when all are snapshotted. */
  lemma {:induction false} IntentIsAllOrNothing(r: Record)
    requires ValidRecord(r)
    ensures var (r', done) := Step(r, RecordIntent);
      && ValidRecord(r')
      && (done.Ok? <==> forall i :: 0 <= i < |r.operations| ==> r.operations[i].state.CanTransition(OpIntentRecorded))
      && (done.Ok? ==> forall i :: 0 <= i < |r.operations| ==> r'.operations[i].state == OpIntentRecorded)
      && (done.Err? ==> r' == r)
  {
    if AllSnapshotted(r.operations) {
      IntentValid(r, Step(r, RecordIntent).0);
    }
  }
}
