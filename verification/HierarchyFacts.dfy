/**
  Reading, checking and writing the deterministic hierarchy, operation by operation and field by field
  (crates/sysboost-linux/src/workload.rs, 1995-2016, 2225-2487 and 2550-2861).
 */
module HierarchyFacts {
  import opened Outcome
  import opened Bytes
  import opened Text
  import opened Mutation
  import opened Hierarchy

  /** The hierarchy has the group; a zero mount or inode in the request stands for any. */
  predicate Found(f: Fixture, c: CgroupId) {
    && c.handle in f.groups
    && (c.mountId == 0 || c.mountId == f.groups[c.handle].identity.mountId)
    && (c.inode == 0 || c.inode == f.groups[c.handle].identity.inode)
  }

  /** The group has the controller, and it is delegated. */
  predicate Usable(f: Fixture, c: CgroupId, controller: Controller) {
    Found(f, c) && controller in f.groups[c.handle].controllers && controller in f.groups[c.handle].delegated
  }

  /** What an unusable group is refused for: it is not there, lacks the controller, or was not delegated. */
  function RefusalOf(f: Fixture, c: CgroupId, controller: Controller): ErrorCode
    requires !Usable(f, c, controller)
  {
    if !Found(f, c) then TargetError
    else if controller !in f.groups[c.handle].controllers then Unsupported
    else AuthorizationError
  }

  /** A reading of a group, or why there is none. */
  predicate GroupReading(f: Fixture, c: CgroupId, controller: Controller, typed: TypedValue, r: Result<Reading>) {
    && (Usable(f, c, controller) ==>
          var id := f.groups[c.handle].identity;
          r == Ok(Reading(typed, BigEndian(id.mountId, 8) + BigEndian(id.inode, 8))))
    && (!Usable(f, c, controller) ==> r == Err(RefusalOf(f, c, controller)))
  }

  /** The group a request names. */
  function At(f: Fixture, c: CgroupId): Group
    requires c.handle in f.groups
  {
    f.groups[c.handle]
  }

  /** Each operation on the values of a group reads its own field through its own controller. */
  lemma {:induction false} ReadsShares(f: Fixture, c: CgroupId, w: Weight, q: Quota, d: CpuPeriod)
    requires c.handle in f.groups
    ensures GroupReading(f, c, CpuController, CpuWeightValue(At(f, c).cpuWeight), Read(f, CgroupCpuWeight(c, w)))
    ensures GroupReading(f, c, CpuController, CpuMaxValue(At(f, c).quota, At(f, c).period), Read(f, CgroupCpuMax(c, q, d)))
    ensures GroupReading(f, c, IoController, IoWeightValue(At(f, c).ioWeight), Read(f, CgroupIoWeight(c, w)))
  {
  }

  lemma {:induction false} ReadsLimits(f: Fixture, c: CgroupId, s: CpuSet, u: Uclamp)
    requires c.handle in f.groups
    ensures GroupReading(f, c, CpusetController, CpusetValue(At(f, c).cpuset), Read(f, CgroupCpuset(c, s)))
    ensures GroupReading(f, c, CpuController, UclampSetting(At(f, c).uclampMin), Read(f, CgroupUclampMin(c, u)))
    ensures GroupReading(f, c, CpuController, UclampSetting(At(f, c).uclampMax), Read(f, CgroupUclampMax(c, u)))
  {
  }

  /** A request for a group that is not there is refused. */
  lemma {:induction false} ReadsNothing(f: Fixture, kind: MutationKind)
    requires OwnedKind(kind)
    ensures !ProcessKind(kind) && !LifecycleKind(kind) && kind.cgroup.handle !in f.groups ==> Read(f, kind) == Err(TargetError)
    ensures LifecycleKind(kind) && kind.parent.handle !in f.groups ==> Read(f, kind) == Err(TargetError)
  {
  }

  /** A lifecycle operation reads whether its child, named parent, dot, name, exists. */
  lemma {:induction false} ReadsLifecycle(f: Fixture, parent: CgroupId, name: CgroupName)
    ensures var child := parent.handle + [0x2E] + name;
      Usable(f, parent, CpuController) && IsName(child, 128) ==>
        && GroupReading(f, parent, CpuController, LifecycleValue(Workload, name, child in f.groups),
                        Read(f, CgroupWorkload(parent, name)))
        && GroupReading(f, parent, CpuController, LifecycleValue(ConservativeBackground, name, child in f.groups),
                        Read(f, CgroupBackground(parent, name)))
    ensures !(Usable(f, parent, CpuController) && IsName(parent.handle + [0x2E] + name, 128)) ==>
      Read(f, CgroupWorkload(parent, name)).Err? && Read(f, CgroupBackground(parent, name)).Err?
  {
  }

  /** A process is there under its own identity, in a group that is there. */
  predicate Lives(f: Fixture, p: ProcessId) {
    p in f.processes && f.processes[p].identity == p && f.processes[p].cgroup in f.groups
  }

  /** Operations on a process read its nice value, its I/O priority, or the identity of its group. */
  lemma {:induction false} ReadsProcess(f: Fixture, p: ProcessId, n: NiceValue, i: IoPriority, c: CgroupId)
    ensures var id := BigEndian(p.pid, 4) + [0, 0, 0, 0] + BigEndian(p.startTicks, 8);
      Lives(f, p) ==>
        && Read(f, ProcessNice(p, n)) == Ok(Reading(NiceSetting(f.processes[p].nice), id))
        && Read(f, ProcessIoPriority(p, i)) == Ok(Reading(IoPriorityValue(f.processes[p].priority), id))
        && Read(f, ProcessPlacement(p, c)) == Ok(Reading(PlacementValue(f.groups[f.processes[p].cgroup].identity), id))
    ensures !Lives(f, p) ==>
        && Read(f, ProcessNice(p, n)) == Err(TargetError) && Read(f, ProcessIoPriority(p, i)) == Err(TargetError)
        && Read(f, ProcessPlacement(p, c)) == Err(TargetError)
  {
  }

  // ----- checking a request

  /** The lower clamp is not above the upper one; the largest clamp is 1024. */
  predicate ClampsOrdered(lower: Uclamp, upper: Uclamp) {
    || (lower.UclampMax? && (upper.UclampMax? || upper.value >= 1024))
    || (lower.UclampValue? && upper.UclampMax? && lower.value <= 1024)
    || (lower.UclampValue? && upper.UclampValue? && lower.value <= upper.value)
  }

  /** A request is accepted exactly when the desired value is that of the operation and, for a clamp, the group is
      usable and the clamps stay ordered; for a placement and a lifecycle operation, the group is there and usable. */
  lemma {:induction false} AcceptsExactly(f: Fixture, kind: MutationKind, desired: TypedValue)
    requires OwnedKind(kind)
    ensures ValidateDesired(f, kind, desired).Ok? <==>
      && Desired(kind) == desired
      && (kind.CgroupUclampMin? ==>
            && kind.clamp.UclampValue? && Usable(f, kind.cgroup, CpuController)
            && ClampsOrdered(kind.clamp, f.groups[kind.cgroup.handle].uclampMax))
      && (kind.CgroupUclampMax? ==>
            && Usable(f, kind.cgroup, CpuController)
            && ClampsOrdered(f.groups[kind.cgroup.handle].uclampMin, kind.clamp))
      && (kind.ProcessPlacement? ==> Found(f, kind.cgroup))
      && (LifecycleKind(kind) ==> Usable(f, kind.parent, CpuController))
  {
  }

  // ----- writing

  /** The group is replaced and nothing else. */
  predicate Replaces(f: Fixture, c: CgroupId, g: Group, r: Result<Fixture>) {
    if Found(f, c) then r == Ok(Fixture(f.groups[c.handle := g], f.processes)) else r == Err(TargetError)
  }

  /** Each operation on the values of a group writes its own fields and no others. */
  lemma {:induction false} WritesValues(
    f: Fixture, c: CgroupId, w: Weight, q: Quota, d: CpuPeriod, s: CpuSet, u: Uclamp, largest: u64)
    requires c.handle in f.groups
    ensures Replaces(f, c, At(f, c).(cpuWeight := w), Write(f, CgroupCpuWeight(c, w), CpuWeightValue(w), largest))
    ensures Replaces(f, c, At(f, c).(quota := q, period := d), Write(f, CgroupCpuMax(c, q, d), CpuMaxValue(q, d), largest))
    ensures Replaces(f, c, At(f, c).(cpuset := s), Write(f, CgroupCpuset(c, s), CpusetValue(s), largest))
    ensures Replaces(f, c, At(f, c).(ioWeight := w), Write(f, CgroupIoWeight(c, w), IoWeightValue(w), largest))
    ensures Replaces(f, c, At(f, c).(uclampMin := u), Write(f, CgroupUclampMin(c, u), UclampSetting(u), largest))
    ensures Replaces(f, c, At(f, c).(uclampMax := u), Write(f, CgroupUclampMax(c, u), UclampSetting(u), largest))
  {
  }

  /** Operations on a process write its nice value or its I/O priority and nothing else. */
  lemma {:induction false} WritesProcess(f: Fixture, p: ProcessId, n: NiceValue, i: IoPriority, largest: u64)
    requires p in f.processes
    ensures Write(f, ProcessNice(p, n), NiceSetting(n), largest)
            == Ok(Fixture(f.groups, f.processes[p := f.processes[p].(nice := n)]))
    ensures Write(f, ProcessIoPriority(p, i), IoPriorityValue(i), largest)
            == Ok(Fixture(f.groups, f.processes[p := f.processes[p].(priority := i)]))
  {
  }

  /** A new managed group hangs below its parent under the next inode, inherits controllers, delegation and CPUs, and
      starts with default weights, no quota, no clamps and no processes. */
  lemma {:induction false} CreatesDefaults(f: Fixture, parent: CgroupId, name: CgroupName, largest: u64)
    requires Found(f, parent)
    ensures var child := parent.handle + [0x2E] + name;
      var g := f.groups[parent.handle];
      var path := if g.path == [] then name else g.path + [0x2F] + name;
      var inode: u64 := if largest < 0xFFFF_FFFF_FFFF_FFFF then largest + 1 else largest;
      && (IsName(child, 128) && child !in f.groups ==>
            Create(f, parent, name, largest) == Ok(Fixture(
              f.groups[child := Group(CgroupId(g.identity.mountId, inode, child), path, g.controllers, g.delegated,
                                      100, QuotaMax, 100_000, g.cpuset, 100, UclampValue(0), UclampMax, {})],
              f.processes)))
      && (!IsName(child, 128) ==> Create(f, parent, name, largest) == Err(TargetError))
      && (IsName(child, 128) && child in f.groups ==> Create(f, parent, name, largest) == Err(ApplyError))
  {
  }

  /** A managed group is removed, and nothing else, exactly when it is there, holds no process, has no group below its
      path, and is not at the path of its parent. */
  lemma {:induction false} RemovesExactly(f: Fixture, parent: CgroupId, name: CgroupName)
    ensures var child := parent.handle + [0x2E] + name;
      && (Remove(f, parent, name).Ok? <==>
            && Found(f, parent) && IsName(child, 128) && child in f.groups && f.groups[child].processes == {}
            && (forall h :: h in f.groups ==> !(f.groups[child].path + [0x2F] <= f.groups[h].path))
            && f.groups[child].path != f.groups[parent.handle].path)
      && (Remove(f, parent, name).Ok? ==>
            Remove(f, parent, name).value == Fixture(f.groups - {child}, f.processes))
  {
  }

  /** A move changes the placement of the process and the membership of the two groups, and nothing else. */
  lemma {:induction false} MovesOnly(f: Fixture, p: ProcessId, destination: CgroupId)
    requires Consistent(f)
    ensures MoveProcess(f, p, destination).Ok? <==> Found(f, destination) && p in f.processes
    ensures MoveProcess(f, p, destination).Ok? ==>
      var g := MoveProcess(f, p, destination).value;
      && g.groups.Keys == f.groups.Keys
      && g.processes == f.processes[p := f.processes[p].(cgroup := destination.handle)]
      && (forall h :: h in f.groups ==>
            g.groups[h] == f.groups[h].(processes :=
              if h == destination.handle then f.groups[h].processes + {p} else f.groups[h].processes - {p}))
  {
  }
}
