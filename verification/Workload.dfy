/**
  Snapshot, apply and restore over the deterministic hierarchy
  (crates/sysboost-linux/src/workload.rs, 197-362).  The fingerprint is any function of the typed value.
 */
module Workload {
  import opened Outcome
  import opened Bytes
  import opened Mutation
  import opened Session
  import opened Hierarchy

  type Stamps = TypedValue -> Fingerprint

  /** `typed_shape_matches`. */
  predicate ShapeMatches(kind: MutationKind, typed: TypedValue) {
    match kind
    case CgroupCpuWeight(_, _) => typed.CpuWeightValue?
    case CgroupCpuMax(_, _, _) => typed.CpuMaxValue?
    case CgroupCpuset(_, _) => typed.CpusetValue?
    case CgroupIoWeight(_, _) => typed.IoWeightValue?
    case CgroupUclampMin(_, _) => typed.UclampSetting?
    case CgroupUclampMax(_, _) => typed.UclampSetting?
    case CgroupWorkload(_, _) => typed.LifecycleValue?
    case CgroupBackground(_, _) => typed.LifecycleValue?
    case ProcessNice(_, _) => typed.NiceSetting?
    case ProcessIoPriority(_, _) => typed.IoPriorityValue?
    case ProcessPlacement(_, _) => typed.PlacementValue?
    case _ => false
  }

  /** `snapshot_internal`. */
  function SnapshotOf(stamp: Stamps, f: Fixture, m: PlannedMutation, now: u128): Result<Snapshot> {
    var seen :- Read(f, m.kind);
    if !ShapeMatches(m.kind, seen.typed) || stamp(seen.typed) != m.precondition then Err(TargetError)
    else if seen.typed == m.desired then Err(InvariantViolation)
    else Ok(Snapshot(m.id, m.target, [], seen.typed, stamp(seen.typed), m.equality, seen.identity, now))
  }

  /** `apply_internal`. */
  function ApplyOf(stamp: Stamps, f: Fixture, m: PlannedMutation, s: Snapshot, largest: u64): (Fixture, Result<ApplyReceipt>) {
    var current := Read(f, m.kind);
    if current.Err? then (f, Err(current.code))
    else if current.value.identity != s.identity || stamp(current.value.typed) != m.precondition then (f, Err(TargetError))
    else
      var accepted := ValidateDesired(f, m.kind, m.desired);
      if accepted.Err? then (f, Err(accepted.code))
      else
        var written := Write(f, m.kind, m.desired, largest);
        if written.Err? then (f, Err(written.code))
        else
          var after := Read(written.value, m.kind);
          if after.Err? then (written.value, Err(after.code))
          else if after.value.identity != s.identity || stamp(after.value.typed) != stamp(m.desired)
          then (written.value, Err(VerificationError))
          else
            (written.value, Ok(ApplyReceipt(m.id, stamp(current.value.typed), stamp(after.value.typed), stamp(after.value.typed))))
  }

  /** `restore_internal`. */
  function RestoreOf(stamp: Stamps, f: Fixture, m: PlannedMutation, s: Snapshot, ownership: Fingerprint, largest: u64)
    : (Fixture, Result<RestoreReceipt>)
  {
    var current := Read(f, m.kind);
    if current.Err? then (f, Err(current.code))
    else if current.value.identity != s.identity then (f, Err(TargetError))
    else if stamp(current.value.typed) != ownership then (f, Err(RestoreConflict))
    else
      var written := Write(f, m.kind, s.typed, largest);
      if written.Err? then (f, Err(written.code))
      else
        var restored := Read(written.value, m.kind);
        if restored.Err? then (written.value, Err(restored.code))
        else if restored.value.identity != s.identity || stamp(restored.value.typed) != s.fingerprint
        then (written.value, Err(RestoreError))
        else (written.value, Ok(RestoreReceipt(m.id, stamp(restored.value.typed), true)))
  }

  // ----- what snapshot, apply and restore answer, whatever happened before

  /** A snapshot is taken exactly of a reading whose fingerprint is the planned precondition and which is not yet the
      desired value; it holds what was read. */
  lemma {:induction false} SnapshotAnswers(stamp: Stamps, f: Fixture, m: PlannedMutation, now: u128, s: Snapshot)
    requires OwnedKind(m.kind)
    ensures SnapshotOf(stamp, f, m, now) == Ok(s) <==>
      && Read(f, m.kind).Ok?
      && var seen := Read(f, m.kind).value;
         && stamp(seen.typed) == m.precondition && seen.typed != m.desired
         && s == Snapshot(m.id, m.target, [], seen.typed, m.precondition, m.equality, seen.identity, now)
  {
  }

  /** What apply may leave and answer.  Another target, another value than the planned precondition or a request that
      is not accepted changes nothing; success means that the target, still the same, reads as the desired value. */
  ghost predicate ApplyAnswers(
    stamp: Stamps, f: Fixture, m: PlannedMutation, s: Snapshot, g: Fixture, r: Result<ApplyReceipt>)
  {
    match Read(f, m.kind)
    case Err(code) => g == f && r == Err(code)
    case Ok(seen) =>
      if seen.identity != s.identity || stamp(seen.typed) != m.precondition then g == f && r == Err(TargetError)
      else if ValidateDesired(f, m.kind, m.desired).Err? then
        g == f && r == Err(ValidateDesired(f, m.kind, m.desired).code)
      else if exists largest :: Write(f, m.kind, m.desired, largest) == Ok(g) then
        && (r.Ok? <==> Read(g, m.kind).Ok? && Read(g, m.kind).value.identity == s.identity
                       && stamp(Read(g, m.kind).value.typed) == stamp(m.desired))
        && (r.Ok? ==> r.value == ApplyReceipt(m.id, m.precondition, stamp(m.desired), stamp(m.desired)))
        && (r.Err? && Read(g, m.kind).Ok? ==> r == Err(VerificationError))
      else g == f && exists largest :: r.Err? && Write(f, m.kind, m.desired, largest) == Err(r.code)
  }

  lemma {:induction false} ApplyOutcome(stamp: Stamps, f: Fixture, m: PlannedMutation, s: Snapshot, largest: u64)
    ensures ApplyAnswers(stamp, f, m, s, ApplyOf(stamp, f, m, s, largest).0, ApplyOf(stamp, f, m, s, largest).1)
  {
    var (g, r) := ApplyOf(stamp, f, m, s, largest);
    var written := Write(f, m.kind, m.desired, largest);
    if written.Ok? {
      assert written == Ok(g) || g == f;
    }
  }

  /** What restore may leave and answer.  Another target, or a value that is not the one apply left, changes nothing:
      a foreign value is never overwritten.  Success means that the original was written over the owned value and, on
      the same target, reads with its fingerprint. */
  ghost predicate RestoreAnswers(
    stamp: Stamps, f: Fixture, m: PlannedMutation, s: Snapshot, ownership: Fingerprint, g: Fixture,
    r: Result<RestoreReceipt>)
  {
    match Read(f, m.kind)
    case Err(code) => g == f && r == Err(code)
    case Ok(seen) =>
      if seen.identity != s.identity then g == f && r == Err(TargetError)
      else if stamp(seen.typed) != ownership then g == f && r == Err(RestoreConflict)
      else if exists largest :: Write(f, m.kind, s.typed, largest) == Ok(g) then
        && (r.Ok? <==> Read(g, m.kind).Ok? && Read(g, m.kind).value.identity == s.identity
                       && stamp(Read(g, m.kind).value.typed) == s.fingerprint)
        && (r.Ok? ==> r.value == RestoreReceipt(m.id, s.fingerprint, true))
        && (r.Err? && Read(g, m.kind).Ok? ==> r == Err(RestoreError))
      else g == f && exists largest :: r.Err? && Write(f, m.kind, s.typed, largest) == Err(r.code)
  }

  lemma {:induction false} RestoreOutcome(
    stamp: Stamps, f: Fixture, m: PlannedMutation, s: Snapshot, ownership: Fingerprint, largest: u64)
    ensures RestoreAnswers(stamp, f, m, s, ownership,
                           RestoreOf(stamp, f, m, s, ownership, largest).0,
                           RestoreOf(stamp, f, m, s, ownership, largest).1)
  {
    var (g, r) := RestoreOf(stamp, f, m, s, ownership, largest);
    var written := Write(f, m.kind, s.typed, largest);
    if written.Ok? {
      assert written == Ok(g) || g == f;
    }
  }

  // ----- writing back what was read undoes a write

  lemma {:induction false} GroupBack(f: Fixture, h: Identifier, g: Group)
    requires h in f.groups
    ensures WithGroup(WithGroup(f, h, g), h, f.groups[h]) == f
  {
    assert f.groups[h := g][h := f.groups[h]] == f.groups;
  }

  lemma {:induction false} ProcessBack(f: Fixture, id: ProcessId, p: Process)
    requires id in f.processes
    ensures WriteProcess(WriteProcess(f, id, p), id, f.processes[id]) == f
  {
    assert f.processes[id := p][id := f.processes[id]] == f.processes;
  }

  /** A process moved away and moved to the group it came from leaves no trace. */
  lemma {:induction false} MoveBack(f: Fixture, p: ProcessId, destination: CgroupId)
    requires Consistent(f) && p in f.processes && MoveProcess(f, p, destination).Ok?
    ensures MoveProcess(MoveProcess(f, p, destination).value, p, f.groups[f.processes[p].cgroup].identity) == Ok(f)
  {
    var from := f.processes[p].cgroup;
    var there := MoveProcess(f, p, destination).value;
    var back := MoveProcess(there, p, f.groups[from].identity);
    assert back.Ok?;
    assert back.value.processes == f.processes;
    forall h | h in f.groups ensures h in back.value.groups && back.value.groups[h] == f.groups[h] {
      assert back.value.groups[h].processes == f.groups[h].processes;
    }
    assert back.value.groups == f.groups;
  }

  /** Removing a group right after creating it succeeds, and leaves no trace, exactly when no group lies below it. */
  lemma {:induction false} RemoveCreated(f: Fixture, parent: CgroupId, name: CgroupName, largest: u64)
    requires Create(f, parent, name, largest).Ok?
    ensures Remove(Create(f, parent, name, largest).value, parent, name)
            == if HasGroupBelow(f, ChildPath(f.groups[parent.handle].path, name)) then Err(RestoreError) else Ok(f)
  {
    var made := Create(f, parent, name, largest).value;
    var target := ChildTarget(parent.handle, name).value;
    var path := ChildPath(f.groups[parent.handle].path, name);
    assert made.groups[target].path == path && !IsBelow(path, path);
    assert made.groups - {target} == f.groups;
    if HasGroupBelow(f, path) {
      var h :| h in f.groups && IsBelow(f.groups[h].path, path);
      assert made.groups[h] == f.groups[h];
    }
    if HasGroupBelow(made, path) {
      var h :| h in made.groups && IsBelow(made.groups[h].path, path);
      assert h != target && made.groups[h] == f.groups[h];
    }
  }

  /** The new group of a lifecycle operation would lie above an existing one. */
  predicate Overshadows(f: Fixture, kind: MutationKind)
    requires LifecycleKind(kind)
  {
    kind.parent.handle in f.groups && HasGroupBelow(f, ChildPath(f.groups[kind.parent.handle].path, kind.name))
  }

  lemma {:induction false} ValueWriteBack(f: Fixture, kind: MutationKind, largest: u64, later: u64)
    requires OwnedKind(kind) && !LifecycleKind(kind) && !kind.ProcessPlacement?
    requires Read(f, kind).Ok? && Write(f, kind, Desired(kind), largest).Ok?
    ensures Write(Write(f, kind, Desired(kind), largest).value, kind, Read(f, kind).value.typed, later) == Ok(f)
  {
    match kind {
      case CgroupCpuWeight(c, x) => GroupBack(f, c.handle, f.groups[c.handle].(cpuWeight := x));
      case CgroupCpuMax(c, q, p) => GroupBack(f, c.handle, f.groups[c.handle].(quota := q, period := p));
      case CgroupCpuset(c, x) => GroupBack(f, c.handle, f.groups[c.handle].(cpuset := x));
      case CgroupIoWeight(c, x) => GroupBack(f, c.handle, f.groups[c.handle].(ioWeight := x));
      case CgroupUclampMin(c, x) => GroupBack(f, c.handle, f.groups[c.handle].(uclampMin := x));
      case CgroupUclampMax(c, x) => GroupBack(f, c.handle, f.groups[c.handle].(uclampMax := x));
      case ProcessNice(p, x) => ProcessBack(f, p, f.processes[p].(nice := x));
      case ProcessIoPriority(p, x) => ProcessBack(f, p, f.processes[p].(priority := x));
      case _ =>
    }
  }

  lemma {:induction false} LifecycleWriteBack(f: Fixture, kind: MutationKind, largest: u64, later: u64)
    requires LifecycleKind(kind) && Read(f, kind).Ok? && Write(f, kind, Desired(kind), largest).Ok?
    ensures Write(Write(f, kind, Desired(kind), largest).value, kind, Read(f, kind).value.typed, later)
            == if Overshadows(f, kind) then Err(RestoreError) else Ok(f)
  {
    RemoveCreated(f, kind.parent, kind.name, largest);
  }

  /** What a write makes readable: the desired value, or, for a placement, the identity of the destination group. */
  function Achieved(f: Fixture, kind: MutationKind): TypedValue {
    if kind.ProcessPlacement? && kind.cgroup.handle in f.groups
    then PlacementValue(f.groups[kind.cgroup.handle].identity)
    else Desired(kind)
  }

  lemma {:induction false} MoveTakesEffect(f: Fixture, p: ProcessId, destination: CgroupId)
    requires Consistent(f) && p in f.processes && MoveProcess(f, p, destination).Ok?
    ensures var g := MoveProcess(f, p, destination).value;
      && destination.handle in f.groups
      && p in g.processes && g.processes[p].identity == p && g.processes[p].cgroup == destination.handle
      && destination.handle in g.groups
      && g.groups[destination.handle].identity == f.groups[destination.handle].identity
  {
  }

  lemma {:induction false} LifecycleTakesEffect(f: Fixture, kind: MutationKind, largest: u64)
    requires LifecycleKind(kind) && Read(f, kind).Ok? && Write(f, kind, Desired(kind), largest).Ok?
    ensures Read(Write(f, kind, Desired(kind), largest).value, kind)
            == Ok(Reading(Desired(kind), Read(f, kind).value.identity))
  {
  }

  lemma {:induction false} ValueTakesEffect(f: Fixture, kind: MutationKind, largest: u64)
    requires OwnedKind(kind) && !LifecycleKind(kind) && !kind.ProcessPlacement?
    requires Read(f, kind).Ok? && Write(f, kind, Desired(kind), largest).Ok?
    ensures Read(Write(f, kind, Desired(kind), largest).value, kind)
            == Ok(Reading(Desired(kind), Read(f, kind).value.identity))
  {
  }

  /** After a write the target reads as the desired value, under the same identity. */
  lemma {:induction false} WriteTakesEffect(f: Fixture, kind: MutationKind, largest: u64)
    requires Consistent(f) && OwnedKind(kind)
    requires Read(f, kind).Ok? && Write(f, kind, Desired(kind), largest).Ok?
    ensures Read(Write(f, kind, Desired(kind), largest).value, kind)
            == Ok(Reading(Achieved(f, kind), Read(f, kind).value.identity))
  {
    if kind.ProcessPlacement? {
      MoveTakesEffect(f, kind.process, kind.cgroup);
    } else if LifecycleKind(kind) {
      LifecycleTakesEffect(f, kind, largest);
    } else {
      ValueTakesEffect(f, kind, largest);
    }
  }

  /** Writing what was read before a write gives the whole hierarchy back. */
  lemma {:induction false} WriteBack(f: Fixture, kind: MutationKind, largest: u64, later: u64)
    requires Consistent(f) && OwnedKind(kind)
    requires Read(f, kind).Ok? && Write(f, kind, Desired(kind), largest).Ok?
    ensures Write(Write(f, kind, Desired(kind), largest).value, kind, Read(f, kind).value.typed, later)
            == if LifecycleKind(kind) && Overshadows(f, kind) then Err(RestoreError) else Ok(f)
  {
    if kind.ProcessPlacement? {
      MoveBack(f, kind.process, kind.cgroup);
    } else if LifecycleKind(kind) {
      LifecycleWriteBack(f, kind, largest, later);
    } else {
      ValueWriteBack(f, kind, largest, later);
    }
  }

  /**
    Snapshot, apply and restore with nothing in between: once apply has succeeded, restore succeeds
    exactly unless the operation created a group above an existing one, and then every group, process,
    membership and value is what it was before.
   */
  lemma {:induction false} RestoreUndoesApply(
    stamp: Stamps, f: Fixture, m: PlannedMutation, now: u128, largest: u64, later: u64)
    requires Consistent(f) && OwnedKind(m.kind) && Constructed(m)
    requires SnapshotOf(stamp, f, m, now).Ok?
    requires ApplyOf(stamp, f, m, SnapshotOf(stamp, f, m, now).value, largest).1.Ok?
    ensures var s := SnapshotOf(stamp, f, m, now).value;
      var (applied, receipt) := ApplyOf(stamp, f, m, s, largest);
      var (after, restored) := RestoreOf(stamp, applied, m, s, receipt.value.ownership, later);
      && (restored.Ok? <==> !(LifecycleKind(m.kind) && Overshadows(f, m.kind)))
      && (restored.Ok? ==> after == f && restored.value == RestoreReceipt(m.id, m.precondition, true))
      && (restored.Err? ==> after == applied && restored == Err(RestoreError))
  {
    WriteBack(f, m.kind, largest, later);
  }

  // ----- a hierarchy on which restore refuses

  function PlainGroup(inode: u64, handle: Identifier, path: seq<byte>): Group {
    Group(CgroupId(1, inode, handle), path, {CpuController}, {CpuController}, 100, QuotaMax, 100_000, [0], 100,
          UclampValue(0), UclampMax, {})
  }

  /** A root group "p" at the empty path and a group "q" at "w/x", whose own parent is not in the hierarchy. */
  function Shadowed(): Fixture {
    Fixture(map[[0x70] := PlainGroup(1, [0x70], []), [0x71] := PlainGroup(2, [0x71], [0x77, 0x2F, 0x78])], map[])
  }

  /** Creates the managed group "w" under "p". */
  function ShadowingMutation(stamp: Stamps): PlannedMutation {
    var kind := CgroupWorkload(CgroupId(1, 1, [0x70]), [0x77]);
    NewMutation(1, [0x63], [0x70], kind, Desired(kind), stamp(LifecycleValue(Workload, [0x77], false)), ByteExact, []).value
  }

  lemma {:induction false} ShadowedReads(stamp: Stamps, now: u128)
    ensures Consistent(Shadowed()) && Overshadows(Shadowed(), ShadowingMutation(stamp).kind)
    ensures Read(Shadowed(), ShadowingMutation(stamp).kind).Ok?
    ensures SnapshotOf(stamp, Shadowed(), ShadowingMutation(stamp), now).Ok?
  {
    var f, kind := Shadowed(), ShadowingMutation(stamp).kind;
    assert f.groups[[0x71]].path == ChildPath([], [0x77]) + [0x2F] + [0x78];
    assert IsBelow(f.groups[[0x71]].path, ChildPath(f.groups[kind.parent.handle].path, kind.name));
    assert |[0x70] + [0x2E] + [0x77]| == 3;
    assert kind.parent.handle in f.groups;
  }

  /** There snapshot and apply succeed under every fingerprint function, and restore is refused: the group that was
      created stays behind. */
  lemma {:induction false} RestoreRefused(stamp: Stamps, now: u128, largest: u64, later: u64)
    ensures var f, m := Shadowed(), ShadowingMutation(stamp);
      && Consistent(f) && OwnedKind(m.kind) && Constructed(m)
      && SnapshotOf(stamp, f, m, now).Ok?
      && var s := SnapshotOf(stamp, f, m, now).value;
         var (applied, receipt) := ApplyOf(stamp, f, m, s, largest);
         && receipt.Ok? && applied != f
         && RestoreOf(stamp, applied, m, s, receipt.value.ownership, later) == (applied, Err(RestoreError))
  {
    var f, m := Shadowed(), ShadowingMutation(stamp);
    ShadowedReads(stamp, now);
    var s := SnapshotOf(stamp, f, m, now).value;
    assert Write(f, m.kind, m.desired, largest).Ok?;
    WriteTakesEffect(f, m.kind, largest);
    var applied := ApplyOf(stamp, f, m, s, largest).0;
    assert Read(applied, m.kind) == Ok(Reading(m.desired, Read(f, m.kind).value.identity));
    assert s.typed != m.desired && s.typed == Read(f, m.kind).value.typed;
    RestoreUndoesApply(stamp, f, m, now, largest, later);
  }
}
