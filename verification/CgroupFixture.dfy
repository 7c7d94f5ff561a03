/**
  The mutable hierarchy and the backend over it (crates/sysboost-linux/src/workload.rs, 197-362,
  2381-2487 and 2784-2861), proved against the functions of modules Hierarchy and Workload.
 */
module CgroupFixtureState {
  import opened Outcome
  import opened Bytes
  import opened Mutation
  import opened Session
  import opened Hierarchy
  import opened Workload

  class CgroupFixture {
    var groups: map<Identifier, Group>
    var processes: map<ProcessId, Process>

    function Value(): Fixture
      reads this
    {
      Fixture(groups, processes)
    }

    ghost predicate Valid()
      reads this
    {
      Consistent(Value())
    }

    constructor (value: Fixture)
      requires Consistent(value)
      ensures Valid() && Value() == value
    {
      groups := value.groups;
      processes := value.processes;
    }

    /** The largest inode in use, or 1 without groups. */
    method LargestInUse() returns (n: u64)
      ensures LargestInode(Value(), n)
    {
      if |groups| == 0 {
        return 1;
      }
      n := 0;
      var left := groups.Keys;
      ghost var reached := false;
      while left != {}
        invariant left <= groups.Keys
        invariant forall h :: h in groups && h !in left ==> groups[h].identity.inode <= n
        invariant left == groups.Keys ==> n == 0
        invariant left != groups.Keys ==> exists h :: h in groups && groups[h].identity.inode == n
        decreases |left|
      {
        var h :| h in left;
        left := left - {h};
        n := if groups[h].identity.inode > n then groups[h].identity.inode else n;
        Largest(Value(), h, n);
      }
    }

    lemma {:induction false} Largest(f: Fixture, h: Identifier, n: u64)
      requires h in f.groups
      ensures f.groups[h].identity.inode == n ==> exists k :: k in f.groups && f.groups[k].identity.inode == n
    {
    }

    /** `create_fixture_group`. */
    method CreateGroup(parent: CgroupId, name: CgroupName) returns (r: Result<Unit>, ghost largest: u64)
      requires Valid()
      modifies this
      ensures LargestInode(old(Value()), largest)
      ensures match Create(old(Value()), parent, name, largest)
              case Ok(f) => r == Ok(Unit) && Value() == f
              case Err(code) => r == Err(code) && Value() == old(Value())
    {
      var next := LargestInUse();
      largest := next;
      var g := Resolve(Value(), parent);
      if g.Err? {
        return Err(g.code), largest;
      }
      var target := ChildTarget(parent.handle, name);
      if target.Err? {
        return Err(target.code), largest;
      }
      if target.value in groups {
        return Err(ApplyError), largest;
      }
      if next != 0xFFFF_FFFF_FFFF_FFFF {
        next := next + 1;
      }
      groups := groups[target.value := NewGroup(g.value, target.value, name, next)];
      r := Ok(Unit);
    }

    /** `remove_fixture_group`. */
    method RemoveGroup(parent: CgroupId, name: CgroupName) returns (r: Result<Unit>)
      modifies this
      ensures match Remove(old(Value()), parent, name)
              case Ok(f) => r == Ok(Unit) && Value() == f
              case Err(code) => r == Err(code) && Value() == old(Value())
    {
      var g :- Resolve(Value(), parent);
      var target :- ChildTarget(parent.handle, name);
      if target !in groups {
        return Err(TargetError);
      }
      var group := groups[target];
      if group.processes != {} || exists h :: h in groups && IsBelow(groups[h].path, group.path) {
        return Err(RestoreError);
      }
      if g.path == group.path {
        return Err(TargetError);
      }
      groups := groups - {target};
      r := Ok(Unit);
    }

    /** `move_fixture_process`. */
    method Move(process: ProcessId, destination: CgroupId) returns (r: Result<Unit>)
      requires Valid()
      modifies this
      ensures match MoveProcess(old(Value()), process, destination)
              case Ok(f) => r == Ok(Unit) && Value() == f
              case Err(code) => r == Err(code) && Value() == old(Value())
    {
      var g :- Resolve(Value(), destination);
      var to := g.identity.handle;
      if process !in processes {
        return Err(TargetError);
      }
      var from := processes[process].cgroup;
      if from in groups {
        groups := groups[from := groups[from].(processes := groups[from].processes - {process})];
      }
      if to !in groups {
        return Err(TargetError);
      }
      groups := groups[to := groups[to].(processes := groups[to].processes + {process})];
      processes := processes[process := processes[process].(cgroup := to)];
      r := Ok(Unit);
    }

    /** Replaces one group by an update of it. */
    method UpdateGroup(c: CgroupId, g: Group) returns (r: Result<Unit>)
      requires c.handle in groups
      modifies this
      ensures r == Ok(Unit) && Value() == WithGroup(old(Value()), c.handle, g)
    {
      groups := groups[c.handle := g];
      r := Ok(Unit);
    }

    /** The six operations on a value of a group. */
    method WriteGroupValue(kind: MutationKind, typed: TypedValue) returns (r: Result<Unit>)
      requires !ProcessKind(kind) && !LifecycleKind(kind) && OwnedKind(kind)
      modifies this
      ensures forall largest :: match Write(old(Value()), kind, typed, largest)
              case Ok(f) => r == Ok(Unit) && Value() == f
              case Err(code) => r == Err(code) && Value() == old(Value())
    {
      if !ShapeMatches(kind, typed) {
        return Err(InvariantViolation);
      }
      match kind {
        case CgroupCpuWeight(c, _) =>
          var g :- Resolve(Value(), c);
          r := UpdateGroup(c, g.(cpuWeight := typed.weight));
        case CgroupCpuMax(c, _, _) =>
          var g :- Resolve(Value(), c);
          r := UpdateGroup(c, g.(quota := typed.quota, period := typed.period));
        case CgroupCpuset(c, _) =>
          var g :- Resolve(Value(), c);
          r := UpdateGroup(c, g.(cpuset := typed.cpus));
        case CgroupIoWeight(c, _) =>
          var g :- Resolve(Value(), c);
          r := UpdateGroup(c, g.(ioWeight := typed.weight));
        case CgroupUclampMin(c, _) =>
          var g :- Resolve(Value(), c);
          r := UpdateGroup(c, g.(uclampMin := typed.clamp));
        case CgroupUclampMax(c, _) =>
          var g :- Resolve(Value(), c);
          r := UpdateGroup(c, g.(uclampMax := typed.clamp));
      }
    }

    /** The operations on a process. */
    method WriteProcessValue(kind: MutationKind, typed: TypedValue) returns (r: Result<Unit>)
      requires Valid() && ProcessKind(kind)
      modifies this
      ensures forall largest :: match Write(old(Value()), kind, typed, largest)
              case Ok(f) => r == Ok(Unit) && Value() == f
              case Err(code) => r == Err(code) && Value() == old(Value())
    {
      if !ShapeMatches(kind, typed) {
        return Err(InvariantViolation);
      }
      match kind {
        case ProcessNice(p, _) =>
          if p !in processes {
            return Err(TargetError);
          }
          processes := processes[p := processes[p].(nice := typed.nice)];
          r := Ok(Unit);
        case ProcessIoPriority(p, _) =>
          if p !in processes {
            return Err(TargetError);
          }
          processes := processes[p := processes[p].(priority := typed.priority)];
          r := Ok(Unit);
        case ProcessPlacement(p, _) =>
          r := Move(p, typed.cgroup);
      }
    }

    /** `write_mutation`. */
    method WriteMutation(kind: MutationKind, typed: TypedValue) returns (r: Result<Unit>, ghost largest: u64)
      requires Valid() && OwnedKind(kind)
      modifies this
      ensures Valid()
      ensures LifecycleKind(kind) && typed.LifecycleValue? && typed.present ==> LargestInode(old(Value()), largest)
      ensures match Write(old(Value()), kind, typed, largest)
              case Ok(f) => r == Ok(Unit) && Value() == f
              case Err(code) => r == Err(code) && Value() == old(Value())
    {
      largest := 0;
      ghost var before := Value();
      if LifecycleKind(kind) {
        if !typed.LifecycleValue? {
          r := Err(InvariantViolation);
        } else if typed.present {
          r, largest := CreateGroup(kind.parent, kind.name);
        } else {
          r := RemoveGroup(kind.parent, kind.name);
        }
      } else if ProcessKind(kind) {
        r := WriteProcessValue(kind, typed);
      } else {
        r := WriteGroupValue(kind, typed);
      }
      if r.Ok? {
        WriteKeepsConsistent(before, kind, typed, largest);
        assert Value() == Write(before, kind, typed, largest).value;
      } else {
        assert Write(before, kind, typed, largest).Err? && Value() == before;
      }
    }
  }

  class WorkloadBackend {
    const io: CgroupFixture
    const stamp: Stamps

    constructor (io: CgroupFixture, stamp: Stamps)
      ensures this.io == io && this.stamp == stamp
    {
      this.io := io;
      this.stamp := stamp;
    }

    /** `snapshot_internal`. */
    method SnapshotInternal(m: PlannedMutation, now: u128) returns (r: Result<Snapshot>)
      ensures r == SnapshotOf(stamp, io.Value(), m, now)
    {
      var seen :- Read(io.Value(), m.kind);
      if !ShapeMatches(m.kind, seen.typed) || stamp(seen.typed) != m.precondition {
        return Err(TargetError);
      }
      if seen.typed == m.desired {
        return Err(InvariantViolation);
      }
      r := Ok(Snapshot(m.id, m.target, [], seen.typed, stamp(seen.typed), m.equality, seen.identity, now));
    }

    /** `apply_internal`. */
    method ApplyInternal(m: PlannedMutation, s: Snapshot) returns (r: Result<ApplyReceipt>, ghost largest: u64)
      requires io.Valid() && OwnedKind(m.kind)
      modifies io
      ensures io.Valid()
      ensures (io.Value(), r) == ApplyOf(stamp, old(io.Value()), m, s, largest)
      ensures ApplyAnswers(stamp, old(io.Value()), m, s, io.Value(), r)
    {
      largest := 0;
      forall n: u64 ensures ApplyAnswers(stamp, io.Value(), m, s, ApplyOf(stamp, io.Value(), m, s, n).0,
                                         ApplyOf(stamp, io.Value(), m, s, n).1) {
        ApplyOutcome(stamp, io.Value(), m, s, n);
      }
      var current := Read(io.Value(), m.kind);
      if current.Err? {
        return Err(current.code), largest;
      }
      if current.value.identity != s.identity || stamp(current.value.typed) != m.precondition {
        return Err(TargetError), largest;
      }
      var accepted := ValidateDesired(io.Value(), m.kind, m.desired);
      if accepted.Err? {
        return Err(accepted.code), largest;
      }
      var written;
      written, largest := io.WriteMutation(m.kind, m.desired);
      if written.Err? {
        return Err(written.code), largest;
      }
      var after := Read(io.Value(), m.kind);
      if after.Err? {
        return Err(after.code), largest;
      }
      if after.value.identity != s.identity || stamp(after.value.typed) != stamp(m.desired) {
        return Err(VerificationError), largest;
      }
      r := Ok(ApplyReceipt(m.id, stamp(current.value.typed), stamp(after.value.typed), stamp(after.value.typed)));
    }

    /** `restore_internal`. */
    method RestoreInternal(m: PlannedMutation, s: Snapshot, ownership: Fingerprint)
      returns (r: Result<RestoreReceipt>, ghost largest: u64)
      requires io.Valid() && OwnedKind(m.kind)
      modifies io
      ensures io.Valid()
      ensures (io.Value(), r) == RestoreOf(stamp, old(io.Value()), m, s, ownership, largest)
      ensures RestoreAnswers(stamp, old(io.Value()), m, s, ownership, io.Value(), r)
    {
      largest := 0;
      forall n: u64 ensures RestoreAnswers(stamp, io.Value(), m, s, ownership,
                                           RestoreOf(stamp, io.Value(), m, s, ownership, n).0,
                                           RestoreOf(stamp, io.Value(), m, s, ownership, n).1) {
        RestoreOutcome(stamp, io.Value(), m, s, ownership, n);
      }
      var current := Read(io.Value(), m.kind);
      if current.Err? {
        return Err(current.code), largest;
      }
      if current.value.identity != s.identity {
        return Err(TargetError), largest;
      }
      if stamp(current.value.typed) != ownership {
        return Err(RestoreConflict), largest;
      }
      var written;
      written, largest := io.WriteMutation(m.kind, s.typed);
      if written.Err? {
        return Err(written.code), largest;
      }
      var restored := Read(io.Value(), m.kind);
      if restored.Err? {
        return Err(restored.code), largest;
      }
      if restored.value.identity != s.identity || stamp(restored.value.typed) != s.fingerprint {
        return Err(RestoreError), largest;
      }
      r := Ok(RestoreReceipt(m.id, stamp(restored.value.typed), true));
    }
  }
}
