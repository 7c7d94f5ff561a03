/**
  What every call on a session record does to it and answers, state by state
  (crates/sysboost-core/src/transaction.rs, 110-139 and 254-432).
 */
module Effects {
  import opened Outcome
  import opened Bytes
  import opened Text
  import opened Mutation
  import opened Session
  import opened Lifecycle

  /** Operation `i` is the first one with the ID. */
  predicate Addressed(r: Record, id: MutationId, i: nat) {
    && i < |r.operations| && r.operations[i].mutation.id == id
    && forall j :: 0 <= j < i ==> r.operations[j].mutation.id != id
  }

  lemma {:induction false} AddressedIndex(r: Record, id: MutationId, i: nat)
    requires Addressed(r, id, i)
    ensures IndexOf(r.operations, id) == i
  {
  }

  /** Operation `i` has become `now`; the other operations, the session and both journals are as before. */
  predicate Becomes(r: Record, r': Record, i: nat, now: Operation) {
    i < |r.operations| && r' == r.(operations := r.operations[i := now])
  }

  /** The failure record keeps code, ID and stage of the error, and as much of its message as is text within the
      bound. */
  ghost predicate Reports(f: Failure, e: DomainError) {
    && f.code == e.code && f.id == e.id
    && (e.stage.Some? ==> f.stage == e.stage.value) && (e.stage.None? ==> f.stage == RecoveryStage)
    && f.message <= e.message && |f.message| <= MAX_REASON_BYTES
    && forall k :: |f.message| < k <= MAX_REASON_BYTES && k <= |e.message| ==> !ValidUtf8(e.message[..k])
  }

  lemma {:induction false} FailureReports(e: DomainError)
    ensures Reports(FailureOf(e), e)
  {
    forall k | |FailureOf(e).message| < k <= MAX_REASON_BYTES && k <= |e.message| ensures !ValidUtf8(e.message[..k]) {
      if ValidUtf8(e.message[..k]) {
        TruncatedIsLongest(e.message, MAX_REASON_BYTES, k);
      }
    }
  }

  // ----- calls on one operation

  /** A call for an ID that no operation has is refused and changes nothing. */
  lemma {:induction false} UnknownId(r: Record, ev: Event)
    requires Local(ev)
    requires forall op :: op in r.operations ==> op.mutation.id != if ev.Capture? then ev.snapshot.id else ev.id
    ensures Step(r, ev) == (r, Err(InvariantViolation))
  {
  }

  /** `capture_snapshot`. */
  lemma {:induction false} CaptureEffect(r: Record, s: Snapshot, i: nat)
    requires Addressed(r, s.id, i)
    ensures var (r', done) := Step(r, Capture(s));
      var was := r.operations[i];
      var bound := s.target == was.mutation.target && s.equality == was.mutation.equality
                   && s.fingerprint == was.mutation.precondition && exists k :: 0 <= k < 16 && s.identity[k] != 0;
      && (bound && was.state == OpPlanned && was.snapshot.None? ==>
            done == Ok(Unit) && Becomes(r, r', i, was.(snapshot := Some(s), state := OpSnapshotted)))
      && (!bound ==> r' == r && done == Err(SnapshotError))
      && (bound && !(was.state == OpPlanned && was.snapshot.None?) ==> r' == r && done == Err(InvariantViolation))
  {
    AddressedIndex(r, s.id, i);
    assert r.operations[i := r.operations[i]] == r.operations;
  }

  /** `begin_apply`. */
  lemma {:induction false} BeginApplyEffect(r: Record, id: MutationId, i: nat)
    requires Addressed(r, id, i)
    ensures var (r', done) := Step(r, BeginApply(id));
      var was := r.operations[i];
      && (was.state == OpIntentRecorded ==> done == Ok(Unit) && Becomes(r, r', i, was.(state := OpApplying)))
      && (was.state != OpIntentRecorded ==> r' == r && done == Err(InvariantViolation))
  {
    AddressedIndex(r, id, i);
    assert r.operations[i := r.operations[i]] == r.operations;
  }

  /** `record_apply`: a receipt of its own is stored in every state, but only an applying operation moves. */
  lemma {:induction false} RecordApplyEffect(r: Record, id: MutationId, receipt: ApplyReceipt, i: nat)
    requires Addressed(r, id, i)
    ensures var (r', done) := Step(r, RecordApply(id, receipt));
      var was := r.operations[i];
      && (receipt.id != id ==> r' == r && done == Err(InvariantViolation))
      && (receipt.id == id && was.state == OpApplying ==>
            done == Ok(Unit) && Becomes(r, r', i, was.(apply := Some(receipt), state := OpApplied)))
      && (receipt.id == id && was.state != OpApplying ==>
            done == Err(InvariantViolation) && Becomes(r, r', i, was.(apply := Some(receipt))))
  {
    AddressedIndex(r, id, i);
    assert r.operations[i := r.operations[i]] == r.operations;
  }

  /** `record_verification`: a match verifies an applied operation, a mismatch fails an applying or applied one. */
  lemma {:induction false} RecordVerificationEffect(r: Record, id: MutationId, result: Verification, i: nat)
    requires Addressed(r, id, i)
    ensures var (r', done) := Step(r, RecordVerification(id, result));
      var was := r.operations[i];
      var legal := was.state == OpApplied || (!result.matched && was.state == OpApplying);
      && (result.id != id ==> r' == r && done == Err(InvariantViolation))
      && (result.id == id && legal && result.matched ==>
            done == Ok(Unit) && Becomes(r, r', i, was.(verification := Some(result), state := OpVerified)))
      && (result.id == id && legal && !result.matched ==>
            done == Ok(Unit) && Becomes(r, r', i, was.(verification := Some(result), state := OpFailed)))
      && (result.id == id && !legal ==>
            done == Err(InvariantViolation) && Becomes(r, r', i, was.(verification := Some(result))))
  {
    AddressedIndex(r, id, i);
    assert r.operations[i := r.operations[i]] == r.operations;
  }

  /** Operation `i` holds a report of the error and is otherwise as before, but in the given state. */
  ghost predicate FailsTo(r: Record, r': Record, i: nat, e: DomainError, state: OperationState) {
    && |r'.operations| == |r.operations| && i < |r.operations|
    && r'.operations[i].failure.Some? && Reports(r'.operations[i].failure.value, e)
    && r'.operations == r.operations[i := r.operations[i].(failure := r'.operations[i].failure, state := state)]
    && r'.session == r.session && r'.transitions == r.transitions
  }

  /** The failure of operation `i` is the last entry of the failure journal. */
  predicate Journaled(r: Record, r': Record, i: nat) {
    && i < |r'.operations| && r'.operations[i].failure.Some?
    && r'.failures == r.failures + [r'.operations[i].failure.value]
  }

  /** `fail_operation`: an applying or applied operation fails, a failed one fails again, and both are journaled. */
  lemma {:induction false} FailOperationEffect(r: Record, id: MutationId, e: DomainError, i: nat)
    requires Addressed(r, id, i)
    ensures var (r', done) := Step(r, FailOperation(id, e));
      var was := r.operations[i];
      && (was.state in {OpApplying, OpApplied, OpFailed} ==>
            done == Ok(Unit) && FailsTo(r, r', i, e, OpFailed) && Journaled(r, r', i))
      && (was.state !in {OpApplying, OpApplied, OpFailed} ==>
            done == Err(InvariantViolation) && FailsTo(r, r', i, e, was.state) && r'.failures == r.failures)
  {
    AddressedIndex(r, id, i);
    FailureReports(e);
  }

  /** `begin_restore_operation`: every operation that may have touched its target can be restored. */
  lemma {:induction false} BeginRestoreEffect(r: Record, id: MutationId, i: nat)
    requires Addressed(r, id, i)
    ensures var (r', done) := Step(r, BeginRestore(id));
      var was := r.operations[i];
      && (was.state in {OpApplying, OpApplied, OpVerified, OpFailed, OpRestoreFailed} ==>
            done == Ok(Unit) && Becomes(r, r', i, was.(state := OpRestoring)))
      && (was.state == OpRestored ==> r' == r && done == Ok(Unit))
      && (was.state in {OpPlanned, OpSnapshotted, OpIntentRecorded, OpRestoring} ==>
            r' == r && done == Err(InvariantViolation))
  {
    AddressedIndex(r, id, i);
    assert r.operations[i := r.operations[i]] == r.operations;
  }

  /** `record_restore`: a verified receipt of its own is stored in every state, but only a restoring operation moves. */
  lemma {:induction false} RecordRestoreEffect(r: Record, id: MutationId, proof: RestoreReceipt, i: nat)
    requires Addressed(r, id, i)
    ensures var (r', done) := Step(r, RecordRestore(id, proof));
      var was := r.operations[i];
      && (proof.id != id || !proof.verified ==> r' == r && done == Err(InvariantViolation))
      && (proof.id == id && proof.verified && was.state == OpRestoring ==>
            done == Ok(Unit) && Becomes(r, r', i, was.(restore := Some(proof), state := OpRestored)))
      && (proof.id == id && proof.verified && was.state != OpRestoring ==>
            done == Err(InvariantViolation) && Becomes(r, r', i, was.(restore := Some(proof))))
  {
    AddressedIndex(r, id, i);
    assert r.operations[i := r.operations[i]] == r.operations;
  }

  /** `fail_restore`: a restoring operation fails to restore, one that failed fails again, and both are journaled. */
  lemma {:induction false} FailRestoreEffect(r: Record, id: MutationId, e: DomainError, i: nat)
    requires Addressed(r, id, i)
    ensures var (r', done) := Step(r, FailRestore(id, e));
      var was := r.operations[i];
      && (was.state in {OpRestoring, OpRestoreFailed} ==>
            done == Ok(Unit) && FailsTo(r, r', i, e, OpRestoreFailed) && Journaled(r, r', i))
      && (was.state !in {OpRestoring, OpRestoreFailed} ==>
            done == Err(InvariantViolation) && FailsTo(r, r', i, e, was.state) && r'.failures == r.failures)
  {
    AddressedIndex(r, id, i);
    FailureReports(e);
  }

  // ----- calls on the record

  /** `record_intent`. */
  lemma {:induction false} RecordIntentEffect(r: Record)
    ensures var (r', done) := Step(r, RecordIntent);
      var captured := forall i :: 0 <= i < |r.operations| ==> r.operations[i].state == OpSnapshotted;
      && (captured ==>
            && done == Ok(Unit) && |r'.operations| == |r.operations|
            && (forall i :: 0 <= i < |r.operations| ==>
                  r'.operations[i] == r.operations[i].(state := OpIntentRecorded))
            && r' == r.(operations := r'.operations))
      && (!captured ==> r' == r && done == Err(InvariantViolation))
  {
  }

  /** `record_failure`. */
  lemma {:induction false} RecordFailureEffect(r: Record, e: DomainError)
    ensures var (r', done) := Step(r, RecordFailure(e));
      && done == Ok(Unit) && |r'.failures| == |r.failures| + 1
      && r'.failures[..|r.failures|] == r.failures && Reports(r'.failures[|r.failures|], e)
      && r' == r.(failures := r'.failures)
  {
    FailureReports(e);
  }

  /** The session transitions, one by one. */
  const SESSION_MOVES: set<(SessionState, SessionState)> := {
    (New, Detected), (Detected, Planned), (Planned, Snapshotted), (Snapshotted, IntentDurable),
    (IntentDurable, Applying), (IntentDurable, RollingBack), (Applying, Active), (Applying, RollingBack),
    (Active, Restoring), (Restoring, Restored), (Restoring, Degraded), (RollingBack, Restored),
    (RollingBack, Degraded), (Degraded, RecoveryPending), (RecoveryPending, Restoring), (RecoveryPending, Degraded)}

  lemma {:induction false} MovesAre(from: SessionState, to: SessionState)
    ensures from.CanTransition(to) <==> (from, to) in SESSION_MOVES
  {
  }

  /** The number counts on from the last entry, or stays at the largest one. */
  predicate Continues(ts: seq<TransitionRecord>, sequence: u64) {
    if ts == [] then sequence == 1
    else
      var last := ts[|ts| - 1].sequence;
      sequence == last + 1 || (sequence == last && last == 0xFFFF_FFFF_FFFF_FFFF)
  }

  /** `transition`. */
  lemma {:induction false} AdvanceEffect(r: Record, next: SessionState, at: u128, reason: Utf8)
    ensures var (r', done) := Step(r, Advance(next, at, reason));
      var from, n := r.session.state, |r.transitions|;
      var said := 0 < |reason| <= 1024 && 0 !in reason;
      && (!said ==> r' == r && done == Err(InvalidInput))
      && (said && (from, next) !in SESSION_MOVES ==> r' == r && done == Err(InvariantViolation))
      && (said && (from, next) in SESSION_MOVES ==>
            && done == Ok(Unit)
            && r'.session == r.session.(state := next)
            && |r'.transitions| == n + 1 && r'.transitions[..n] == r.transitions
            && (var entry := r'.transitions[n];
                && entry == TransitionRecord(entry.sequence, r.session.header.sessionId, from, next, at, reason)
                && Continues(r.transitions, entry.sequence))
            && r' == r.(session := r'.session, transitions := r'.transitions))
  {
    MovesAre(r.session.state, next);
  }
}
