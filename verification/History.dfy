/**
  What holds over every run of a session record: histories only grow, a proven restoration covers every
  operation that ever held an apply receipt, and the transition chain has one shape.
 */
module History {
  import opened Outcome
  import opened Bytes
  import opened Text
  import opened Mutation
  import opened Session
  import opened Lifecycle

  // ----- construction

  function PlannedOperation(m: PlannedMutation): Operation {
    Operation(m, OpPlanned, None, None, None, None, None)
  }

  /** `SessionRecord::new`. */
  function NewRecord(session: Session, ms: seq<PlannedMutation>): Result<Record> {
    if ms == [] || |ms| > MAX_OPERATIONS then Err(PlanningError)
    else if !UniqueIds(ms) then Err(InvariantViolation)
    else Ok(Record(session, seq(|ms|, i requires 0 <= i < |ms| => PlannedOperation(ms[i])), [], []))
  }

  /** A new record is valid exactly when its session is new and leases the targets of the mutations. */
  lemma {:induction false} NewRecordValid(session: Session, ms: seq<PlannedMutation>)
    requires NewRecord(session, ms).Ok?
    ensures ValidRecord(NewRecord(session, ms).value)
            <==> session.state == New
                 && session.header.targets == seq(|ms|, i requires 0 <= i < |ms| => ms[i].target)
  {
    var r := NewRecord(session, ms).value;
    assert forall i :: 0 <= i < |ms| ==> r.operations[i] == PlannedOperation(ms[i]);
    var targets := seq(|ms|, i requires 0 <= i < |ms| => ms[i].target);
    if LeasesMatch(r) {
      assert session.header.targets == targets;
    }
  }

  // ----- what no call undoes

  /** How far an operation has come; restoring and a failed restore may alternate. */
  function Progress(s: OperationState): nat {
    match s
    case OpPlanned => 0
    case OpSnapshotted => 1
    case OpIntentRecorded => 2
    case OpApplying => 3
    case OpApplied => 4
    case OpVerified => 5
    case OpFailed => 5
    case OpRestoring => 6
    case OpRestoreFailed => 6
    case OpRestored => 7
  }

  /** A later state of an operation: nothing captured is replaced, nothing reported disappears. */
  predicate OperationEvolves(a: Operation, b: Operation) {
    && b.mutation == a.mutation
    && (a.snapshot.Some? ==> b.snapshot == a.snapshot)
    && (a.apply.Some? ==> b.apply.Some?)
    && (a.verification.Some? ==> b.verification.Some?)
    && (a.restore.Some? ==> b.restore.Some?)
    && Progress(a.state) <= Progress(b.state)
    && (a.state == OpRestored ==> b.state == OpRestored)
  }

  predicate Evolves(r: Record, r': Record) {
    && r'.session.header == r.session.header
    && |r'.operations| == |r.operations|
    && (forall i :: 0 <= i < |r.operations| ==> OperationEvolves(r.operations[i], r'.operations[i]))
    && r.transitions <= r'.transitions
    && r.failures <= r'.failures
  }

  lemma {:induction false} OperationStepEvolves(op: Operation, ev: Event)
    requires Local(ev)
    ensures OperationEvolves(op, OperationStep(op, ev).0)
  {
  }

  lemma {:induction false} ReplacedEvolves(r: Record, i: nat, op: Operation, r': Record)
    requires i < |r.operations| && OperationEvolves(r.operations[i], op)
    requires r'.session == r.session && r'.transitions == r.transitions && r.failures <= r'.failures
    requires r'.operations == r.operations[i := op]
    ensures Evolves(r, r')
  {
  }

  lemma {:induction false} StepEvolves(r: Record, ev: Event)
    ensures Evolves(r, Step(r, ev).0)
  {
    if Local(ev) {
      var i := IndexOf(r.operations, Addressee(ev));
      if i < |r.operations| {
        OperationStepEvolves(r.operations[i], ev);
        ReplacedEvolves(r, i, OperationStep(r.operations[i], ev).0, LocalStep(r, ev).0);
      }
    } else if ev.RecordIntent? && AllSnapshotted(r.operations) {
      IntentEvolves(r, Step(r, ev).0);
    }
  }

  lemma {:induction false} IntentEvolves(r: Record, r': Record)
    requires AllSnapshotted(r.operations) && r' == r.(operations := WithIntent(r.operations))
    ensures Evolves(r, r')
  {
    forall i | 0 <= i < |r.operations| ensures OperationEvolves(r.operations[i], r'.operations[i]) {
      assert r'.operations[i] == r.operations[i].(state := OpIntentRecorded);
    }
  }

  lemma {:induction false} EvolvesTransitively(a: Record, b: Record, c: Record)
    requires Evolves(a, b) && Evolves(b, c)
    ensures Evolves(a, c)
  {
  }

  /** Over every run, legal or not: identities stay, snapshots never change, receipts and journals never shrink. */
  lemma {:induction false} RunEvolves(r: Record, evs: seq<Event>)
    ensures Evolves(r, Run(r, evs))
    decreases |evs|
  {
    if evs != [] {
      var next := Step(r, evs[0]).0;
      StepEvolves(r, evs[0]);
      RunEvolves(next, evs[1..]);
      EvolvesTransitively(r, next, Run(next, evs[1..]));
    }
  }

  // ----- restoration

  /** `SessionRecord::restoration_proven`. */
  predicate RestorationProven(r: Record) {
    forall i :: 0 <= i < |r.operations| ==>
      !NeedsRestore(r.operations[i]) && !r.operations[i].state.OpApplying? && !r.operations[i].state.OpRestoreFailed?
  }

  /** The original of an operation was read back and equals both its snapshot and its planned precondition. */
  predicate OriginalProven(op: Operation) {
    && op.state.OpRestored? && op.snapshot.Some? && op.restore.Some?
    && op.restore.value.verified
    && op.restore.value.id == op.mutation.id
    && op.restore.value.restored == op.snapshot.value.fingerprint
    && op.restore.value.restored == op.mutation.precondition
  }

  lemma {:induction false} OperationProven(op: Operation)
    requires ValidOperation(op)
    ensures !NeedsRestore(op) <==> (op.apply.Some? ==> OriginalProven(op))
    ensures !NeedsRestore(op) ==> !op.state.OpRestoreFailed?
  {
  }

  /** On a valid record the check means exactly: nothing is in flight and every receipt is matched by a proof. */
  lemma {:induction false} ProvenMeans(r: Record)
    requires ValidRecord(r)
    ensures RestorationProven(r) <==>
            forall i :: 0 <= i < |r.operations| ==>
              && !r.operations[i].state.OpApplying?
              && (r.operations[i].apply.Some? ==> OriginalProven(r.operations[i]))
  {
    forall i | 0 <= i < |r.operations|
      ensures !NeedsRestore(r.operations[i]) <==> (r.operations[i].apply.Some? ==> OriginalProven(r.operations[i]))
      ensures !NeedsRestore(r.operations[i]) ==> !r.operations[i].state.OpRestoreFailed?
    {
      OperationProven(r.operations[i]);
    }
  }

  /** An operation that held an apply receipt anywhere in a run is, once restoration is proven, back at the
      original captured for it. */
  lemma {:induction false} RestorationSound(r: Record, evs: seq<Event>, i: nat)
    requires ValidRecord(r) && i < |r.operations| && r.operations[i].apply.Some?
    requires ValidRecord(Run(r, evs)) && RestorationProven(Run(r, evs))
    ensures |Run(r, evs).operations| == |r.operations|
    ensures OriginalProven(Run(r, evs).operations[i])
    ensures r.operations[i].snapshot.Some?
    ensures Run(r, evs).operations[i].restore.value.restored == r.operations[i].snapshot.value.fingerprint
  {
    RunEvolves(r, evs);
    var op := r.operations[i];
    assert ValidOperation(op);
    ProvenMeans(Run(r, evs));
    assert OperationEvolves(op, Run(r, evs).operations[i]);
  }

  // ----- recovery always has a way to finish

  function OriginalReceipt(op: Operation): RestoreReceipt
    requires op.snapshot.Some?
  {
    RestoreReceipt(op.mutation.id, op.snapshot.value.fingerprint, true)
  }

  /** Restores each remaining operation that holds a receipt. */
  function Recovery(ops: seq<Operation>): seq<Event> {
    if ops == [] then []
    else if NeedsRestore(ops[0]) && ops[0].snapshot.Some?
    then [BeginRestore(ops[0].mutation.id), RecordRestore(ops[0].mutation.id, OriginalReceipt(ops[0]))] + Recovery(ops[1..])
    else Recovery(ops[1..])
  }

  predicate NothingInFlight(ops: seq<Operation>) {
    forall i :: 0 <= i < |ops| ==> !ops[i].state.OpApplying?
  }

  lemma {:induction false} RestoreOperation(op: Operation)
    requires ValidOperation(op) && NeedsRestore(op)
    ensures op.snapshot.Some?
    ensures var id := op.mutation.id;
      var begun := OperationStep(op, BeginRestore(id)).0;
      && LocalAdmissible(op, BeginRestore(id))
      && LocalAdmissible(begun, RecordRestore(id, OriginalReceipt(op)))
      && begun.mutation == op.mutation
      && OriginalProven(OperationStep(begun, RecordRestore(id, OriginalReceipt(op))).0)
  {
  }

  lemma {:induction false} RecoveryStep(r: Record, i: nat, ev: Event, r': Record)
    requires ValidRecord(r) && i < |r.operations|
    requires ev.BeginRestore? || ev.RecordRestore?
    requires ev.id == r.operations[i].mutation.id && LocalAdmissible(r.operations[i], ev)
    requires r' == Step(r, ev).0
    ensures ValidRecord(r') && Admissible(r, ev)
    ensures r' == r.(operations := r.operations[i := OperationStep(r.operations[i], ev).0])
  {
    assert IndexOf(r.operations, ev.id) == i;
    StepValid(r, ev);
  }

  /** Operations before `k` are proven; the rest are restored one after the other. */
  lemma {:induction false} RecoverFrom(r: Record, k: nat)
    requires ValidRecord(r) && NothingInFlight(r.operations) && k <= |r.operations|
    requires forall i :: 0 <= i < k ==> !NeedsRestore(r.operations[i])
    ensures RunAdmissible(r, Recovery(r.operations[k..]))
    ensures ValidRecord(Run(r, Recovery(r.operations[k..])))
    ensures RestorationProven(Run(r, Recovery(r.operations[k..])))
    decreases |r.operations| - k
  {
    var ops := r.operations[k..];
    if k == |r.operations| {
      ProvenMeans(r);
      forall i | 0 <= i < |r.operations| ensures r.operations[i].apply.Some? ==> OriginalProven(r.operations[i]) {
        OperationProven(r.operations[i]);
      }
    } else {
      var op := r.operations[k];
      assert ops[0] == op && ops[1..] == r.operations[k + 1..];
      if NeedsRestore(op) {
        RestoreOperation(op);
        var id := op.mutation.id;
        var first, second := BeginRestore(id), RecordRestore(id, OriginalReceipt(op));
        var begun := Step(r, first).0;
        RecoveryStep(r, k, first, begun);
        var done := Step(begun, second).0;
        RecoveryStep(begun, k, second, done);
        assert done.operations[k + 1..] == ops[1..];
        RecoverFrom(done, k + 1);
        RunTwo(r, first, second, Recovery(ops[1..]));
      } else {
        RecoverFrom(r, k + 1);
      }
    }
  }

  lemma {:induction false} RunTwo(r: Record, a: Event, b: Event, rest: seq<Event>)
    requires Admissible(r, a) && Admissible(Step(r, a).0, b)
    ensures Run(r, [a, b] + rest) == Run(Step(Step(r, a).0, b).0, rest)
    ensures RunAdmissible(r, [a, b] + rest) <==> RunAdmissible(Step(Step(r, a).0, b).0, rest)
  {
    assert ([a, b] + rest)[1..] == [b] + rest;
    assert ([b] + rest)[1..] == rest;
  }

  /** From every valid record with nothing in flight, restoring each receipt in order is a legal run that ends
      with restoration proven. */
  lemma {:induction false} RecoveryReachesProof(r: Record)
    requires ValidRecord(r) && NothingInFlight(r.operations)
    ensures StaysValid(r, Recovery(r.operations))
    ensures RestorationProven(Run(r, Recovery(r.operations)))
  {
    assert r.operations[0..] == r.operations;
    RecoverFrom(r, 0);
    RunValid(r, Recovery(r.operations));
  }

  // ----- calls out of turn

  /** A receipt reported before the operation is applying is refused, yet the record already holds it and is
      no longer valid. */
  lemma {:induction false} ReceiptOutOfTurn(r: Record, id: MutationId, receipt: ApplyReceipt)
    requires ValidRecord(r) && receipt.id == id
    requires IndexOf(r.operations, id) < |r.operations|
    requires Progress(r.operations[IndexOf(r.operations, id)].state) < 3
    ensures Step(r, RecordApply(id, receipt)).1 == Err(InvariantViolation)
    ensures !ValidRecord(Step(r, RecordApply(id, receipt)).0)
  {
    var op := r.operations[IndexOf(r.operations, id)];
    assert ValidOperation(op);
    StepValid(r, RecordApply(id, receipt));
  }

  /** The transition table lets an operation without a receipt begin restoring; the validator refuses the result. */
  lemma {:induction false} RestoreWithoutReceipt(r: Record, id: MutationId)
    requires ValidRecord(r)
    requires IndexOf(r.operations, id) < |r.operations|
    requires r.operations[IndexOf(r.operations, id)].state.OpApplying?
    ensures Step(r, BeginRestore(id)).1.Ok?
    ensures !ValidRecord(Step(r, BeginRestore(id)).0)
  {
    var op := r.operations[IndexOf(r.operations, id)];
    assert ValidOperation(op);
    StepValid(r, BeginRestore(id));
  }

  /** One planned mutation taken to the crash-ambiguous state by the calls of the engine. */
  function ToApplying(m: PlannedMutation, s: Snapshot): seq<Event> {
    [Capture(s), RecordIntent, BeginApply(m.id)]
  }

  /** The state in which the previous lemma fails is reached by legal calls from a new record. */
  lemma {:induction false} ApplyingIsReachable(session: Session, m: PlannedMutation, s: Snapshot)
    requires session.state == New && session.header.targets == [m.target]
    requires SnapshotBound(m, s)
    ensures NewRecord(session, [m]).Ok?
    ensures StaysValid(NewRecord(session, [m]).value, ToApplying(m, s))
    ensures var r := Run(NewRecord(session, [m]).value, ToApplying(m, s));
      && r.operations == [Operation(m, OpApplying, Some(s), None, None, None, None)]
      && !RestorationProven(r)
      && Step(r, BeginRestore(m.id)).1.Ok? && !ValidRecord(Step(r, BeginRestore(m.id)).0)
  {
    NewRecordValid(session, [m]);
    var r0 := NewRecord(session, [m]).value;
    assert r0.operations == [PlannedOperation(m)];
    var r1 := Step(r0, Capture(s)).0;
    assert r1.operations == [Operation(m, OpSnapshotted, Some(s), None, None, None, None)];
    StepValid(r0, Capture(s));
    var r2 := Step(r1, RecordIntent).0;
    assert r2.operations == [Operation(m, OpIntentRecorded, Some(s), None, None, None, None)];
    StepValid(r1, RecordIntent);
    var r3 := Step(r2, BeginApply(m.id)).0;
    assert r3.operations == [Operation(m, OpApplying, Some(s), None, None, None, None)];
    StepValid(r2, BeginApply(m.id));
    RestoreWithoutReceipt(r3, m.id);
    RunThree(r0, Capture(s), RecordIntent, BeginApply(m.id));
  }

  lemma {:induction false} RunOne(r: Record, a: Event, rest: seq<Event>)
    ensures Run(r, [a] + rest) == Run(Step(r, a).0, rest)
    ensures StaysValid(r, [a] + rest) <==> ValidRecord(r) && StaysValid(Step(r, a).0, rest)
  {
    assert ([a] + rest)[1..] == rest;
  }

  lemma {:induction false} RunThree(r: Record, a: Event, b: Event, c: Event)
    ensures var r1 := Step(r, a).0; var r2 := Step(r1, b).0; var r3 := Step(r2, c).0;
      && Run(r, [a, b, c]) == r3
      && (StaysValid(r, [a, b, c]) <==> ValidRecord(r) && ValidRecord(r1) && ValidRecord(r2) && ValidRecord(r3))
  {
    var r1 := Step(r, a).0;
    assert [a, b, c] == [a] + [b, c] && [b, c] == [b] + [c] && [c] == [c] + [];
    RunOne(r, a, [b, c]);
    RunOne(r1, b, [c]);
    RunOne(Step(r1, b).0, c, []);
  }

  // ----- the shape of the transition chain

  /** The state after `i` transitions. */
  function StateAfter(ts: seq<TransitionRecord>, i: nat): SessionState
    requires i <= |ts|
  {
    if i == 0 then New else ts[i - 1].to
  }

  /** Where each state can stand in a chain: the way to `Applying` is fixed, and only recovery may circle. */
  predicate InPlace(s: SessionState, i: nat) {
    match s
    case New => i == 0
    case Detected => i == 1
    case Planned => i == 2
    case Snapshotted => i == 3
    case IntentDurable => i == 4
    case Applying => i == 5
    case Active => i == 6
    case RollingBack => i == 5 || i == 6
    case _ => i >= 6
  }

  lemma {:induction false} StepInPlace(from: SessionState, to: SessionState, i: nat)
    requires InPlace(from, i) && from.CanTransition(to)
    ensures InPlace(to, i + 1)
  {
  }

  predicate LinkAt(ts: seq<TransitionRecord>, i: nat)
    requires i < |ts|
  {
    ts[i].from == StateAfter(ts, i) && ts[i].from.CanTransition(ts[i].to)
  }

  predicate Linked(ts: seq<TransitionRecord>) {
    forall i :: 0 <= i < |ts| ==> LinkAt(ts, i)
  }

  lemma {:induction false} ChainIsLinked(id: Bytes16, ts: seq<TransitionRecord>)
    requires ChainValid(id, ts)
    ensures Linked(ts)
  {
    forall i | 0 <= i < |ts| ensures LinkAt(ts, i) {
      assert ts[i].from == ChainState(ts[..i]);
    }
  }

  lemma {:induction false} LinkedInPlace(ts: seq<TransitionRecord>, i: nat)
    requires Linked(ts) && i <= |ts|
    ensures InPlace(StateAfter(ts, i), i)
    decreases i
  {
    if i > 0 {
      LinkedInPlace(ts, i - 1);
      assert LinkAt(ts, i - 1);
      StepInPlace(StateAfter(ts, i - 1), StateAfter(ts, i), i - 1);
    }
  }

  lemma {:induction false} ChainInPlace(id: Bytes16, ts: seq<TransitionRecord>, i: nat)
    requires ChainValid(id, ts) && i <= |ts|
    ensures InPlace(StateAfter(ts, i), i)
  {
    ChainIsLinked(id, ts);
    LinkedInPlace(ts, i);
  }

  lemma {:induction false} ChainLinked(id: Bytes16, ts: seq<TransitionRecord>, i: nat)
    requires ChainValid(id, ts) && i < |ts|
    ensures ts[i].sequence == i + 1
    ensures ts[i].from == StateAfter(ts, i) && ts[i].from.CanTransition(ts[i].to)
    ensures InPlace(ts[i].to, i + 1)
  {
    assert ts[i].from == ChainState(ts[..i]);
    ChainInPlace(id, ts, i + 1);
  }

  /** Applying is the fifth transition or none, after the snapshot and the durable intent. */
  lemma {:induction false} ApplyingInPlace(id: Bytes16, ts: seq<TransitionRecord>, i: nat)
    requires ChainValid(id, ts) && i < |ts| && ts[i].to == Applying
    ensures i == 4 && ts[2].to == Snapshotted && ts[3].to == IntentDurable
  {
    ChainLinked(id, ts, i);
    ChainLinked(id, ts, 3);
  }

  /** The chain of every valid record is numbered from 1, each entry starts where the previous one ended,
      applying is entered at most once and only after the snapshot and the durable intent, and nothing
      follows a restored session. */
  lemma {:induction false} ChainShape(r: Record)
    requires ValidRecord(r)
    ensures forall i :: 0 <= i < |r.transitions| ==>
              && r.transitions[i].sequence == i + 1
              && r.transitions[i].from == StateAfter(r.transitions, i)
    ensures r.session.state == StateAfter(r.transitions, |r.transitions|)
    ensures forall i :: 0 <= i < |r.transitions| && r.transitions[i].to == Applying ==>
              i == 4 && r.transitions[2].to == Snapshotted && r.transitions[3].to == IntentDurable
    ensures forall i :: 0 <= i < |r.transitions| && r.transitions[i].to == Restored ==>
              i == |r.transitions| - 1
  {
    var id := r.session.header.sessionId;
    ChainShapeOf(id, r.transitions);
  }

  lemma {:induction false} ChainShapeOf(id: Bytes16, ts: seq<TransitionRecord>)
    requires ChainValid(id, ts)
    ensures forall i :: 0 <= i < |ts| ==> ts[i].sequence == i + 1 && ts[i].from == StateAfter(ts, i)
    ensures forall i :: 0 <= i < |ts| && ts[i].to == Applying ==>
              i == 4 && ts[2].to == Snapshotted && ts[3].to == IntentDurable
    ensures forall i :: 0 <= i < |ts| && ts[i].to == Restored ==> i == |ts| - 1
  {
    forall i | 0 <= i < |ts| ensures ts[i].sequence == i + 1 && ts[i].from == StateAfter(ts, i) {
      ChainLinked(id, ts, i);
    }
    forall i | 0 <= i < |ts| && ts[i].to == Applying
      ensures i == 4 && ts[2].to == Snapshotted && ts[3].to == IntentDurable
    {
      ApplyingInPlace(id, ts, i);
    }
    forall i | 0 <= i < |ts| && ts[i].to == Restored ensures i == |ts| - 1 {
      if i + 1 < |ts| {
        ChainLinked(id, ts, i + 1);
        assert false;
      }
    }
  }
}
