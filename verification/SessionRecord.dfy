/**
  The mutable session record (crates/sysboost-core/src/transaction.rs, 201-472 and 570-767).  Each
  method is proved against the step function of module Lifecycle, whose runs module History is about.
 */
module SessionRecordState {
  import opened Outcome
  import opened Bytes
  import opened Text
  import opened Mutation
  import opened Session
  import opened Lifecycle
  import opened History

  class SessionRecord {
    var session: Session
    var operations: seq<Operation>
    var transitions: seq<TransitionRecord>
    var failures: seq<Failure>

    function Value(): Record
      reads this
    {
      Record(session, operations, transitions, failures)
    }

    constructor (value: Record)
      ensures Value() == value
    {
      session := value.session;
      operations := value.operations;
      transitions := value.transitions;
      failures := value.failures;
    }

    /** `SessionRecord::new`. */
    static method New(session: Session, mutations: seq<PlannedMutation>) returns (r: Result<SessionRecord>)
      ensures match NewRecord(session, mutations)
              case Ok(value) => r.Ok? && fresh(r.value) && r.value.Value() == value
              case Err(code) => r == Err(code)
    {
      if |mutations| == 0 {
        return Err(PlanningError);
      }
      if |mutations| > MAX_OPERATIONS {
        return Err(PlanningError);
      }
      var seen: seq<MutationId> := [];
      var operations: seq<Operation> := [];
      for i := 0 to |mutations|
        invariant |seen| == |operations| == i
        invariant forall j :: 0 <= j < i ==> seen[j] == mutations[j].id && operations[j] == PlannedOperation(mutations[j])
        invariant forall j, k :: 0 <= j < k < i ==> mutations[j].id != mutations[k].id
      {
        if mutations[i].id in seen {
          return Err(InvariantViolation);
        }
        seen := seen + [mutations[i].id];
        operations := operations + [PlannedOperation(mutations[i])];
      }
      var record := new SessionRecord(Record(session, operations, [], []));
      r := Ok(record);
    }

    /** `SessionRecord::transition`. */
    method Transition(next: SessionState, at: u128, reason: Utf8) returns (r: Result<Unit>)
      modifies this
      ensures (Value(), r) == Step(old(Value()), Advance(next, at, reason))
    {
      if reason == [] || |reason| > MAX_REASON_BYTES || 0 in reason {
        return Err(InvalidInput);
      }
      var from := session.state;
      if !session.state.CanTransition(next) {
        return Err(InvariantViolation);
      }
      session := session.(state := next);
      var sequence: u64 := 1;
      if transitions != [] {
        var last := transitions[|transitions| - 1].sequence;
        sequence := if last == 0xFFFF_FFFF_FFFF_FFFF then last else last + 1;
      }
      transitions := transitions + [TransitionRecord(sequence, session.header.sessionId, from, next, at, reason)];
      r := Ok(Unit);
    }

    /** `SessionRecord::operation_mut`, as the position of the operation. */
    method Find(id: MutationId) returns (r: Result<nat>)
      ensures r == if IndexOf(operations, id) < |operations| then Ok(IndexOf(operations, id)) else Err(InvariantViolation)
    {
      var i := 0;
      while i < |operations|
        invariant i <= |operations|
        invariant forall j :: 0 <= j < i ==> operations[j].mutation.id != id
      {
        if operations[i].mutation.id == id {
          assert IndexOf(operations, id) == i;
          return Ok(i);
        }
        i := i + 1;
      }
      r := Err(InvariantViolation);
    }

    /** `OperationRecord::transition` of one operation. */
    method Move(i: nat, next: OperationState) returns (r: Result<Unit>)
      requires i < |operations|
      modifies this`operations
      ensures |operations| == |old(operations)|
      ensures operations == old(operations)[i := Lifecycle.Move(old(operations)[i], next).0]
      ensures r == Lifecycle.Move(old(operations)[i], next).1
      ensures r.Err? ==> operations == old(operations)
    {
      if !operations[i].state.CanTransition(next) {
        return Err(InvariantViolation);
      }
      operations := operations[i := operations[i].(state := next)];
      r := Ok(Unit);
    }

    method CaptureSnapshot(snapshot: Snapshot) returns (r: Result<Unit>)
      modifies this
      ensures (Value(), r) == Step(old(Value()), Capture(snapshot))
    {
      var i :- Find(snapshot.id);
      ghost var was := operations;
      assert was[i := was[i]] == was;
      var op := operations[i];
      var identified := exists k :: 0 <= k < |snapshot.identity| && snapshot.identity[k] != 0;
      if snapshot.target != op.mutation.target || snapshot.equality != op.mutation.equality
         || snapshot.fingerprint != op.mutation.precondition || !identified {
        return Err(SnapshotError);
      }
      if op.snapshot.Some? || op.state != OpPlanned {
        return Err(InvariantViolation);
      }
      operations := operations[i := op.(snapshot := Some(snapshot))];
      r := Move(i, OpSnapshotted);
      assert operations == was[i := operations[i]];
    }

    /** `record_intent`: one pass to check, one pass to move. */
    method RecordIntent() returns (r: Result<Unit>)
      modifies this
      ensures (Value(), r) == Step(old(Value()), Event.RecordIntent)
    {
      for i := 0 to |operations|
        invariant Value() == old(Value())
        invariant forall j :: 0 <= j < i ==> operations[j].state == OpSnapshotted
      {
        if operations[i].state != OpSnapshotted {
          return Err(InvariantViolation);
        }
      }
      ghost var was := operations;
      assert AllSnapshotted(was);
      for i := 0 to |operations|
        invariant Value() == old(Value()).(operations := operations)
        invariant |operations| == |was|
        invariant forall j :: 0 <= j < i ==> operations[j] == was[j].(state := OpIntentRecorded)
        invariant forall j :: i <= j < |was| ==> operations[j] == was[j]
      {
        var moved := Move(i, OpIntentRecorded);
        assert moved.Ok?;
      }
      assert operations == WithIntent(was);
      r := Ok(Unit);
    }

    method BeginApply(id: MutationId) returns (r: Result<Unit>)
      modifies this
      ensures (Value(), r) == Step(old(Value()), Event.BeginApply(id))
    {
      var i :- Find(id);
      r := Move(i, OpApplying);
    }

    method RecordApply(id: MutationId, receipt: ApplyReceipt) returns (r: Result<Unit>)
      modifies this
      ensures (Value(), r) == Step(old(Value()), Event.RecordApply(id, receipt))
    {
      var i :- Find(id);
      ghost var was := operations;
      assert was[i := was[i]] == was;
      if receipt.id != id {
        return Err(InvariantViolation);
      }
      operations := operations[i := operations[i].(apply := Some(receipt))];
      r := Move(i, OpApplied);
      assert operations == was[i := operations[i]];
    }

    method RecordVerification(id: MutationId, result: Verification) returns (r: Result<Unit>)
      modifies this
      ensures (Value(), r) == Step(old(Value()), Event.RecordVerification(id, result))
    {
      var i :- Find(id);
      ghost var was := operations;
      assert was[i := was[i]] == was;
      if result.id != id {
        return Err(InvariantViolation);
      }
      operations := operations[i := operations[i].(verification := Some(result))];
      if result.matched {
        r := Move(i, OpVerified);
      } else {
        r := Move(i, OpFailed);
      }
      assert operations == was[i := operations[i]];
    }

    method FailOperation(id: MutationId, error: DomainError) returns (r: Result<Unit>)
      modifies this
      ensures (Value(), r) == Step(old(Value()), Event.FailOperation(id, error))
    {
      var i :- Find(id);
      ghost var was := operations;
      assert was[i := was[i]] == was;
      operations := operations[i := operations[i].(failure := Some(FailureOf(error)))];
      if operations[i].state != OpFailed {
        var moved := Move(i, OpFailed);
        assert operations == was[i := operations[i]];
        if moved.Err? {
          return moved;
        }
      }
      failures := failures + [FailureOf(error)];
      r := Ok(Unit);
    }

    method BeginRestoreOperation(id: MutationId) returns (r: Result<Unit>)
      modifies this
      ensures (Value(), r) == Step(old(Value()), BeginRestore(id))
    {
      var i :- Find(id);
      assert operations[i := operations[i]] == operations;
      if operations[i].state == OpRestored {
        return Ok(Unit);
      }
      r := Move(i, OpRestoring);
    }

    method RecordRestore(id: MutationId, receipt: RestoreReceipt) returns (r: Result<Unit>)
      modifies this
      ensures (Value(), r) == Step(old(Value()), Event.RecordRestore(id, receipt))
    {
      var i :- Find(id);
      ghost var was := operations;
      assert was[i := was[i]] == was;
      if receipt.id != id || !receipt.verified {
        return Err(InvariantViolation);
      }
      operations := operations[i := operations[i].(restore := Some(receipt))];
      r := Move(i, OpRestored);
      assert operations == was[i := operations[i]];
    }

    method FailRestore(id: MutationId, error: DomainError) returns (r: Result<Unit>)
      modifies this
      ensures (Value(), r) == Step(old(Value()), Event.FailRestore(id, error))
    {
      var i :- Find(id);
      ghost var was := operations;
      assert was[i := was[i]] == was;
      operations := operations[i := operations[i].(failure := Some(FailureOf(error)))];
      if operations[i].state != OpRestoreFailed {
        var moved := Move(i, OpRestoreFailed);
        assert operations == was[i := operations[i]];
        if moved.Err? {
          return moved;
        }
      }
      failures := failures + [FailureOf(error)];
      r := Ok(Unit);
    }

    method RecordFailure(error: DomainError)
      modifies this
      ensures (Value(), Ok(Unit)) == Step(old(Value()), Event.RecordFailure(error))
    {
      failures := failures + [FailureOf(error)];
    }

    method RestorationProven() returns (proven: bool)
      ensures proven == History.RestorationProven(Value())
    {
      for i := 0 to |operations|
        invariant forall j :: 0 <= j < i ==>
          !NeedsRestore(operations[j]) && !operations[j].state.OpApplying? && !operations[j].state.OpRestoreFailed?
      {
        var op := operations[i];
        if (op.apply.Some? && op.state != OpRestored) || op.state.OpApplying? || op.state.OpRestoreFailed? {
          return false;
        }
      }
      proven := true;
    }

    /** `validate_for_serialization`. */
    method ValidateForSerialization() returns (r: Result<Unit>)
      ensures r == if ValidRecord(Value()) then Ok(Unit) else Err(JournalCorrupt)
    {
      if |operations| == 0 || |operations| > MAX_OPERATIONS {
        return Err(JournalCorrupt);
      }
      if |transitions| > MAX_TRANSITIONS || |failures| > MAX_FAILURES {
        return Err(JournalCorrupt);
      }
      if |session.header.targets| > MAX_TARGETS {
        return Err(JournalCorrupt);
      }
      var checked := ValidateOperations(operations);
      if checked.Err? {
        return checked;
      }
      if |session.header.targets| != |operations| {
        return Err(JournalCorrupt);
      }
      for i := 0 to |operations|
        invariant forall j :: 0 <= j < i ==> session.header.targets[j] == operations[j].mutation.target
      {
        if session.header.targets[i] != operations[i].mutation.target {
          return Err(JournalCorrupt);
        }
      }
      r := ValidateChain(session, transitions);
    }
  }

  method ValidateOperations(ops: seq<Operation>) returns (r: Result<Unit>)
    ensures r == if DistinctIds(ops) && forall i :: 0 <= i < |ops| ==> ValidOperation(ops[i])
                 then Ok(Unit) else Err(JournalCorrupt)
  {
    var ids: seq<MutationId> := [];
    for i := 0 to |ops|
      invariant |ids| == i && forall j :: 0 <= j < i ==> ids[j] == ops[j].mutation.id
      invariant forall j, k :: 0 <= j < k < i ==> ops[j].mutation.id != ops[k].mutation.id
      invariant forall j :: 0 <= j < i ==> ValidOperation(ops[j])
    {
      if ops[i].mutation.id in ids {
        return Err(JournalCorrupt);
      }
      ids := ids + [ops[i].mutation.id];
      var owned := ReceiptsOwned(ops[i]);
      if !owned {
        return Err(JournalCorrupt);
      }
      var valid := ValidateOperation(ops[i]);
      if !valid {
        return Err(JournalCorrupt);
      }
    }
    r := Ok(Unit);
  }

  /** Every receipt names its own operation. */
  predicate NamesItsOperation(op: Operation) {
    && (op.snapshot.Some? ==>
          && op.snapshot.value.id == op.mutation.id && op.snapshot.value.target == op.mutation.target
          && op.snapshot.value.equality == op.mutation.equality)
    && (op.apply.Some? ==> op.apply.value.id == op.mutation.id)
    && (op.verification.Some? ==> op.verification.value.id == op.mutation.id)
    && (op.restore.Some? ==> op.restore.value.id == op.mutation.id)
  }

  method ReceiptsOwned(op: Operation) returns (owned: bool)
    ensures owned == NamesItsOperation(op)
  {
    if op.snapshot.Some? {
      var s := op.snapshot.value;
      if s.id != op.mutation.id || s.target != op.mutation.target || s.equality != op.mutation.equality {
        return false;
      }
    }
    if op.apply.Some? && op.apply.value.id != op.mutation.id {
      return false;
    }
    if op.verification.Some? && op.verification.value.id != op.mutation.id {
      return false;
    }
    if op.restore.Some? && op.restore.value.id != op.mutation.id {
      return false;
    }
    owned := true;
  }

  /** `validate_operation_record`. */
  method ValidateOperation(op: Operation) returns (valid: bool)
    ensures NamesItsOperation(op) ==> valid == ValidOperation(op)
  {
    if op.snapshot.Some? {
      var s := op.snapshot.value;
      var identified := exists k :: 0 <= k < |s.identity| && s.identity[k] != 0;
      if s.fingerprint != op.mutation.precondition || !identified {
        return false;
      }
    }
    if op.apply.Some? {
      var a := op.apply.value;
      if op.snapshot.None? || a.precondition != op.mutation.precondition || a.postcondition != a.ownership {
        return false;
      }
    }
    if op.verification.Some? {
      if op.apply.None? {
        return false;
      }
      var v := op.verification.value;
      if v.expected != op.apply.value.ownership
         || (v.matched && v.observed != Some(v.expected)) || (!v.matched && v.observed == Some(v.expected)) {
        return false;
      }
    }
    if op.restore.Some? {
      if op.snapshot.None? {
        return false;
      }
      if op.apply.None? || !op.restore.value.verified
         || op.restore.value.restored != op.snapshot.value.fingerprint {
        return false;
      }
    }
    valid := ShapeValid(op);
  }

  /** The transition records name the session and form a chain that ends in its state. */
  method ValidateChain(session: Session, ts: seq<TransitionRecord>) returns (r: Result<Unit>)
    requires |ts| <= MAX_TRANSITIONS
    ensures r == if ChainValid(session.header.sessionId, ts) && ChainState(ts) == session.state
                 then Ok(Unit) else Err(JournalCorrupt)
  {
    for i := 0 to |ts|
      invariant forall j :: 0 <= j < i ==> ts[j].sessionId == session.header.sessionId
    {
      if ts[i].sessionId != session.header.sessionId {
        return Err(JournalCorrupt);
      }
    }
    var linked, state := FollowChain(ts);
    r := if !linked || state != session.state then Err(JournalCorrupt) else Ok(Unit);
  }

  predicate LinkedAt(ts: seq<TransitionRecord>, i: nat)
    requires i < |ts|
  {
    && ts[i].sequence == i + 1
    && ts[i].from == (if i == 0 then New else ts[i - 1].to)
    && ts[i].from.CanTransition(ts[i].to)
  }

  /** A chain is linked exactly when each entry continues the one before it. */
  lemma {:induction false} LinkedChain(ts: seq<TransitionRecord>, i: nat)
    requires i < |ts|
    ensures LinkedAt(ts, i) <==>
      ts[i].sequence == i + 1 && ts[i].from == ChainState(ts[..i]) && ts[i].from.CanTransition(ts[i].to)
  {
  }

  method FollowChain(ts: seq<TransitionRecord>) returns (linked: bool, state: SessionState)
    requires |ts| <= MAX_TRANSITIONS
    ensures linked <==> forall i :: 0 <= i < |ts| ==>
      ts[i].sequence == i + 1 && ts[i].from == ChainState(ts[..i]) && ts[i].from.CanTransition(ts[i].to)
    ensures linked ==> state == ChainState(ts)
  {
    state := New;
    var sequence: u64 := 1;
    for i := 0 to |ts|
      invariant sequence == i + 1
      invariant state == if i == 0 then New else ts[i - 1].to
      invariant forall j :: 0 <= j < i ==> LinkedAt(ts, j)
    {
      if ts[i].sequence != sequence || ts[i].from != state || !state.CanTransition(ts[i].to) {
        LinkedChain(ts, i);
        return false, state;
      }
      state := ts[i].to;
      sequence := sequence + 1;
    }
    forall i | 0 <= i < |ts|
      ensures ts[i].sequence == i + 1 && ts[i].from == ChainState(ts[..i]) && ts[i].from.CanTransition(ts[i].to)
    {
      assert LinkedAt(ts, i);
      LinkedChain(ts, i);
    }
    linked := true;
  }
}
