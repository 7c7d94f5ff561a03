/**
  The rules a durable record is checked against, read the other way round: receipt by receipt
  instead of state by state, and transition by transition instead of along the chain
  (crates/sysboost-core/src/transaction.rs, 570-760; crates/sysboost-core/src/mutation.rs).
 */
module RecordRules {
  import opened Outcome
  import opened Bytes
  import opened Mutation
  import opened Session

  /** When each receipt is there: the shape rule by receipt. */
  predicate ReceiptsPresent(op: Operation) {
    var s := op.state;
    && (op.snapshot.Some? <==> s != OpPlanned)
    && (op.restore.Some? <==> s == OpRestored)
    && (op.apply.Some? ==> s !in {OpPlanned, OpSnapshotted, OpIntentRecorded, OpApplying})
    && (s in {OpApplied, OpVerified, OpRestoring, OpRestored, OpRestoreFailed} ==> op.apply.Some?)
    && (op.verification.Some? ==> s !in {OpPlanned, OpSnapshotted, OpIntentRecorded, OpApplying, OpApplied})
    && (s == OpVerified ==> op.verification.Some? && op.verification.value.matched)
    && (s == OpFailed && op.verification.Some? ==> !op.verification.value.matched)
  }

  /** What each receipt must agree with. */
  ghost predicate ReceiptsAgree(op: Operation) {
    var m := op.mutation;
    && (forall s :: op.snapshot == Some(s) ==>
          && (s.id, s.target, s.equality, s.fingerprint) == (m.id, m.target, m.equality, m.precondition)
          && s.identity != seq(16, _ => 0))
    && (forall a :: op.apply == Some(a) ==>
          op.snapshot.Some? && (a.id, a.precondition) == (m.id, m.precondition) && a.postcondition == a.ownership)
    && (forall v :: op.verification == Some(v) ==>
          && v.id == m.id && op.apply.Some? && v.expected == op.apply.value.ownership
          && (v.matched <==> v.observed == Some(v.expected)))
    && (forall r :: op.restore == Some(r) ==>
          && r.id == m.id && op.apply.Some? && op.snapshot.Some? && r.verified
          && r.restored == op.snapshot.value.fingerprint)
  }

  lemma {:induction false} ZeroIdentity(identity: Bytes16)
    ensures IsIdentified(identity) <==> identity != seq(16, _ => 0)
  {
    if !IsIdentified(identity) {
      assert identity == seq(16, _ => 0);
    } else {
      var i :| 0 <= i < |identity| && identity[i] != 0;
      assert seq(16, _ => 0)[i] == 0;
    }
  }

  lemma {:induction false} ValidByReceipt(op: Operation)
    ensures ValidOperation(op) <==> ReceiptsPresent(op) && ReceiptsAgree(op)
  {
    if op.snapshot.Some? {
      ZeroIdentity(op.snapshot.value.identity);
    }
  }

  /** Two neighbouring journal entries meet in one state, and the journal ends where the session stands. */
  predicate Linked(r: Record) {
    var ts := r.transitions;
    && (forall i: nat :: i < |ts| ==> ts[i].sequence == i + 1 && ts[i].sessionId == r.session.header.sessionId)
    && (forall i: nat :: i < |ts| ==> ts[i].from.CanTransition(ts[i].to))
    && (forall i: nat, j: nat :: i + 1 == j < |ts| ==> ts[i].to == ts[j].from)
    && (if ts == [] then r.session.state == New else ts[0].from == New && ts[|ts| - 1].to == r.session.state)
  }

  lemma {:induction false} StateBefore(ts: seq<TransitionRecord>, i: nat)
    requires i < |ts|
    ensures ChainState(ts[..i]) == if i == 0 then New else ts[i - 1].to
  {
  }

  lemma {:induction false} ChainLinks(r: Record)
    requires ChainValid(r.session.header.sessionId, r.transitions) && ChainState(r.transitions) == r.session.state
    ensures Linked(r)
  {
    var ts := r.transitions;
    forall i: nat, j: nat | i + 1 == j < |ts|
      ensures ts[i].to == ts[j].from
    {
      StateBefore(ts, j);
    }
    if ts != [] {
      StateBefore(ts, 0);
    }
  }

  lemma {:induction false} LinksChain(r: Record)
    requires Linked(r)
    ensures ChainValid(r.session.header.sessionId, r.transitions) && ChainState(r.transitions) == r.session.state
  {
    var ts := r.transitions;
    forall i | 0 <= i < |ts|
      ensures ts[i].from == ChainState(ts[..i])
    {
      StateBefore(ts, i);
    }
  }

  /** A record is accepted exactly when it is within the bounds, its operations differ and own the leases, every
      receipt is there and agrees, and the journal is linked. */
  lemma {:induction false} ValidExactly(r: Record)
    ensures ValidRecord(r) <==>
            && 1 <= |r.operations| <= 4096 && |r.transitions| <= 16_384 && |r.failures| <= 4096
            && |r.session.header.targets| == |r.operations|
            && (forall i: nat, j: nat :: i < j < |r.operations| ==>
                  r.operations[i].mutation.id != r.operations[j].mutation.id)
            && (forall i: nat :: i < |r.operations| ==>
                  && ReceiptsPresent(r.operations[i]) && ReceiptsAgree(r.operations[i])
                  && r.session.header.targets[i] == r.operations[i].mutation.target)
            && Linked(r)
  {
    if Linked(r) {
      LinksChain(r);
    } else if ChainValid(r.session.header.sessionId, r.transitions) && ChainState(r.transitions) == r.session.state {
      ChainLinks(r);
    }
    forall i: nat | i < |r.operations|
      ensures ValidOperation(r.operations[i]) <==>
              ReceiptsPresent(r.operations[i]) && ReceiptsAgree(r.operations[i])
    {
      ValidByReceipt(r.operations[i]);
    }
  }

  /** What a kind must satisfy before a mutation is built from it. */
  ghost predicate SoundKind(kind: MutationKind) {
    && (forall policy :: kind != CpuFrequency(policy, None, None))
    && (forall policy, lo, hi :: kind == CpuFrequency(policy, Some(lo), Some(hi)) ==> lo <= hi)
    && (forall cgroup :: kind != CgroupUclampMin(cgroup, UclampMax))
  }

  lemma {:induction false} MutationExactly(
    id: MutationId, capability: Identifier, target: Identifier, kind: MutationKind,
    desired: TypedValue, precondition: Fingerprint, equality: Equality, dependencies: seq<MutationId>)
    ensures var r := NewMutation(id, capability, target, kind, desired, precondition, equality, dependencies);
      && (r.Ok? <==> SoundKind(kind) && Desired(kind) == desired && id !in dependencies)
      && (r.Err? ==> r.code == PlanningError)
      && (r.Ok? ==> r.value == PlannedMutation(id, capability, target, kind, desired, precondition, equality,
                                               dependencies, RollbackContract(equality, CompareAndRestore)))
  {
    match kind {
      case CpuFrequency(policy, lo, hi) => assert kind == CpuFrequency(policy, lo, hi);
      case CgroupUclampMin(cgroup, clamp) => assert kind == CgroupUclampMin(cgroup, clamp);
      case _ =>
    }
  }
}
