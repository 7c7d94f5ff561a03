/**
  The deterministic cgroup hierarchy as a value: reading and writing it by typed operations
  (crates/sysboost-linux/src/workload.rs, 1995-2016, 2225-2487, 2550-2861).  The raw bytes of an
  observation are not part of this model.
 */
module Hierarchy {
  import opened Outcome
  import opened Bytes
  import opened Text
  import opened Mutation

  datatype Controller = CpuController | CpusetController | IoController

  datatype Group = Group(
    identity: CgroupId, path: seq<byte>, controllers: set<Controller>, delegated: set<Controller>,
    cpuWeight: Weight, quota: Quota, period: CpuPeriod, cpuset: CpuSet, ioWeight: Weight,
    uclampMin: Uclamp, uclampMax: Uclamp, processes: set<ProcessId>)

  datatype Process = Process(identity: ProcessId, cgroup: Identifier, nice: NiceValue, priority: IoPriority)

  datatype Fixture = Fixture(groups: map<Identifier, Group>, processes: map<ProcessId, Process>)

  /** An observed value and the identity of its target. */
  datatype Reading = Reading(typed: TypedValue, identity: Bytes16)

  /** The eleven operations the workload backend owns. */
  predicate OwnedKind(kind: MutationKind) {
    || kind.CgroupCpuWeight? || kind.CgroupCpuMax? || kind.CgroupCpuset? || kind.CgroupIoWeight?
    || kind.CgroupUclampMin? || kind.CgroupUclampMax? || kind.CgroupWorkload? || kind.CgroupBackground?
    || kind.ProcessPlacement? || kind.ProcessNice? || kind.ProcessIoPriority?
  }

  predicate ProcessKind(kind: MutationKind) {
    kind.ProcessPlacement? || kind.ProcessNice? || kind.ProcessIoPriority?
  }

  predicate LifecycleKind(kind: MutationKind) {
    kind.CgroupWorkload? || kind.CgroupBackground?
  }

  // ----- resolving groups

  /** `resolve_group`: a zero mount or inode in the request stands for any. */
  function Resolve(f: Fixture, c: CgroupId): (r: Result<Group>)
    ensures r.Ok? ==> c.handle in f.groups && r.value == f.groups[c.handle]
  {
    if c.handle !in f.groups then Err(TargetError)
    else
      var g := f.groups[c.handle];
      if (c.mountId != 0 && c.mountId != g.identity.mountId) || (c.inode != 0 && c.inode != g.identity.inode)
      then Err(TargetError)
      else Ok(g)
  }

  function RequireController(g: Group, c: Controller): Result<Unit> {
    if c !in g.controllers then Err(Unsupported)
    else if c !in g.delegated then Err(AuthorizationError)
    else Ok(Unit)
  }

  /** `child_target`: the handle of a managed child. */
  function ChildTarget(parent: Identifier, name: CgroupName): Result<Identifier> {
    var s := parent + [0x2E] + name;
    if IsName(s, 128) then Ok(s) else Err(TargetError)
  }

  function GroupIdentity(c: CgroupId): Bytes16 {
    BigEndian(c.mountId, 8) + BigEndian(c.inode, 8)
  }

  function ProcessIdentity(p: ProcessId): Bytes16 {
    BigEndian(p.pid, 4) + [0, 0, 0, 0] + BigEndian(p.startTicks, 8)
  }

  // ----- reading

  function Observe(g: Group, c: Controller, typed: TypedValue): Result<Reading> {
    var allowed :- RequireController(g, c);
    Ok(Reading(typed, GroupIdentity(g.identity)))
  }

  function ReadLifecycle(f: Fixture, parent: CgroupId, name: CgroupName, kind: GroupKind): Result<Reading> {
    var g :- Resolve(f, parent);
    var allowed :- RequireController(g, CpuController);
    var target :- ChildTarget(parent.handle, name);
    Ok(Reading(LifecycleValue(kind, name, target in f.groups), GroupIdentity(g.identity)))
  }

  /** `read_mutation`. */
  function ReadGroup(f: Fixture, kind: MutationKind): Result<Reading> {
    match kind
    case CgroupCpuWeight(c, _) => var g :- Resolve(f, c); Observe(g, CpuController, CpuWeightValue(g.cpuWeight))
    case CgroupCpuMax(c, _, _) => var g :- Resolve(f, c); Observe(g, CpuController, CpuMaxValue(g.quota, g.period))
    case CgroupCpuset(c, _) => var g :- Resolve(f, c); Observe(g, CpusetController, CpusetValue(g.cpuset))
    case CgroupIoWeight(c, _) => var g :- Resolve(f, c); Observe(g, IoController, IoWeightValue(g.ioWeight))
    case CgroupUclampMin(c, _) => var g :- Resolve(f, c); Observe(g, CpuController, UclampSetting(g.uclampMin))
    case CgroupUclampMax(c, _) => var g :- Resolve(f, c); Observe(g, CpuController, UclampSetting(g.uclampMax))
    case CgroupWorkload(parent, name) => ReadLifecycle(f, parent, name, Workload)
    case CgroupBackground(parent, name) => ReadLifecycle(f, parent, name, ConservativeBackground)
    case _ => Err(Unsupported)
  }

  function ProcessOf(kind: MutationKind): ProcessId
    requires ProcessKind(kind)
  {
    match kind
    case ProcessNice(p, _) => p
    case ProcessIoPriority(p, _) => p
    case ProcessPlacement(p, _) => p
  }

  /** `read_process`. */
  function ReadProcess(f: Fixture, kind: MutationKind): Result<Reading> {
    if !ProcessKind(kind) then Err(Unsupported)
    else
      var id := ProcessOf(kind);
      if id !in f.processes then Err(TargetError)
      else
        var p := f.processes[id];
        if p.identity != id then Err(TargetError)
        else if p.cgroup !in f.groups then Err(TargetError)
        else
          var typed := if kind.ProcessNice? then NiceSetting(p.nice)
                       else if kind.ProcessIoPriority? then IoPriorityValue(p.priority)
                       else PlacementValue(f.groups[p.cgroup].identity);
          Ok(Reading(typed, ProcessIdentity(id)))
  }

  function Read(f: Fixture, kind: MutationKind): Result<Reading> {
    if ProcessKind(kind) then ReadProcess(f, kind) else ReadGroup(f, kind)
  }

  // ----- checking a request

  function ClampLevel(c: Uclamp): nat {
    if c.UclampValue? then c.value else 1024
  }

  /** `validate_uclamp_pair`. */
  function ClampPair(min: Uclamp, max: Uclamp): Result<Unit> {
    if ClampLevel(min) > ClampLevel(max) then Err(TargetError) else Ok(Unit)
  }

  /** `validate_desired`. */
  function ValidateDesired(f: Fixture, kind: MutationKind, desired: TypedValue): Result<Unit> {
    if Desired(kind) != desired then Err(PlanningError)
    else
      match kind
      case CgroupUclampMin(c, clamp) =>
        if clamp.UclampMax? then Err(InvalidInput)
        else
          var g :- Resolve(f, c);
          var allowed :- RequireController(g, CpuController);
          ClampPair(clamp, g.uclampMax)
      case CgroupUclampMax(c, clamp) =>
        var g :- Resolve(f, c);
        var allowed :- RequireController(g, CpuController);
        ClampPair(g.uclampMin, clamp)
      case ProcessPlacement(_, c) => var g :- Resolve(f, c); Ok(Unit)
      case CgroupWorkload(parent, _) => var g :- Resolve(f, parent); RequireController(g, CpuController)
      case CgroupBackground(parent, _) => var g :- Resolve(f, parent); RequireController(g, CpuController)
      case _ => Ok(Unit)
  }

  // ----- writing

  function WithGroup(f: Fixture, handle: Identifier, g: Group): Fixture {
    f.(groups := f.groups[handle := g])
  }

  /** A bound that every inode of the hierarchy respects and some inode reaches, or 1 without groups. */
  ghost predicate LargestInode(f: Fixture, n: u64) {
    if f.groups == map[] then n == 1
    else (forall h :: h in f.groups ==> f.groups[h].identity.inode <= n)
         && exists h :: h in f.groups && f.groups[h].identity.inode == n
  }

  function ChildPath(parent: seq<byte>, name: seq<byte>): seq<byte> {
    if parent == [] then name else parent + [0x2F] + name
  }

  function NewGroup(parent: Group, target: Identifier, name: CgroupName, inode: u64): Group {
    Group(CgroupId(parent.identity.mountId, inode, target), ChildPath(parent.path, name),
          parent.controllers, parent.delegated, 100, QuotaMax, 100_000, parent.cpuset, 100,
          UclampValue(0), UclampMax, {})
  }

  /** `create_fixture_group`, with the largest inode in use given. */
  function Create(f: Fixture, parent: CgroupId, name: CgroupName, largest: u64): Result<Fixture> {
    var g :- Resolve(f, parent);
    var target :- ChildTarget(parent.handle, name);
    if target in f.groups then Err(ApplyError)
    else
      var inode: u64 := if largest == 0xFFFF_FFFF_FFFF_FFFF then largest else largest + 1;
      Ok(WithGroup(f, target, NewGroup(g, target, name, inode)))
  }

  predicate IsBelow(path: seq<byte>, top: seq<byte>) {
    top + [0x2F] <= path
  }

  predicate HasGroupBelow(f: Fixture, top: seq<byte>) {
    exists h :: h in f.groups && IsBelow(f.groups[h].path, top)
  }

  /** `remove_fixture_group`. */
  function Remove(f: Fixture, parent: CgroupId, name: CgroupName): Result<Fixture> {
    var g :- Resolve(f, parent);
    var target :- ChildTarget(parent.handle, name);
    if target !in f.groups then Err(TargetError)
    else
      var group := f.groups[target];
      if group.processes != {} || HasGroupBelow(f, group.path) then Err(RestoreError)
      else if g.path == group.path then Err(TargetError)
      else Ok(f.(groups := f.groups - {target}))
  }

  function Leave(f: Fixture, handle: Identifier, p: ProcessId): Fixture {
    if handle in f.groups then WithGroup(f, handle, f.groups[handle].(processes := f.groups[handle].processes - {p}))
    else f
  }

  /** `move_fixture_process`. */
  function MoveProcess(f: Fixture, p: ProcessId, destination: CgroupId): Result<Fixture> {
    var g :- Resolve(f, destination);
    var to := g.identity.handle;
    if p !in f.processes then Err(TargetError)
    else
      var left := Leave(f, f.processes[p].cgroup, p);
      if to !in left.groups then Err(TargetError)
      else
        var joined := WithGroup(left, to, left.groups[to].(processes := left.groups[to].processes + {p}));
        Ok(joined.(processes := joined.processes[p := joined.processes[p].(cgroup := to)]))
  }

  function WriteProcess(f: Fixture, id: ProcessId, p: Process): Fixture {
    f.(processes := f.processes[id := p])
  }

  /** `write_mutation`. */
  function Write(f: Fixture, kind: MutationKind, typed: TypedValue, largest: u64): Result<Fixture> {
    match kind
    case CgroupCpuWeight(c, _) =>
      if !typed.CpuWeightValue? then Err(InvariantViolation)
      else var g :- Resolve(f, c); Ok(WithGroup(f, c.handle, g.(cpuWeight := typed.weight)))
    case CgroupCpuMax(c, _, _) =>
      if !typed.CpuMaxValue? then Err(InvariantViolation)
      else var g :- Resolve(f, c); Ok(WithGroup(f, c.handle, g.(quota := typed.quota, period := typed.period)))
    case CgroupCpuset(c, _) =>
      if !typed.CpusetValue? then Err(InvariantViolation)
      else var g :- Resolve(f, c); Ok(WithGroup(f, c.handle, g.(cpuset := typed.cpus)))
    case CgroupIoWeight(c, _) =>
      if !typed.IoWeightValue? then Err(InvariantViolation)
      else var g :- Resolve(f, c); Ok(WithGroup(f, c.handle, g.(ioWeight := typed.weight)))
    case CgroupUclampMin(c, _) =>
      if !typed.UclampSetting? then Err(InvariantViolation)
      else var g :- Resolve(f, c); Ok(WithGroup(f, c.handle, g.(uclampMin := typed.clamp)))
    case CgroupUclampMax(c, _) =>
      if !typed.UclampSetting? then Err(InvariantViolation)
      else var g :- Resolve(f, c); Ok(WithGroup(f, c.handle, g.(uclampMax := typed.clamp)))
    case CgroupWorkload(parent, name) => WriteLifecycle(f, parent, name, typed, largest)
    case CgroupBackground(parent, name) => WriteLifecycle(f, parent, name, typed, largest)
    case ProcessNice(p, _) =>
      if !typed.NiceSetting? then Err(InvariantViolation)
      else if p !in f.processes then Err(TargetError)
      else Ok(WriteProcess(f, p, f.processes[p].(nice := typed.nice)))
    case ProcessIoPriority(p, _) =>
      if !typed.IoPriorityValue? then Err(InvariantViolation)
      else if p !in f.processes then Err(TargetError)
      else Ok(WriteProcess(f, p, f.processes[p].(priority := typed.priority)))
    case ProcessPlacement(p, _) =>
      if !typed.PlacementValue? then Err(InvariantViolation) else MoveProcess(f, p, typed.cgroup)
    case _ => Err(InvariantViolation)
  }

  function WriteLifecycle(f: Fixture, parent: CgroupId, name: CgroupName, typed: TypedValue, largest: u64): Result<Fixture> {
    if !typed.LifecycleValue? then Err(InvariantViolation)
    else if typed.present then Create(f, parent, name, largest)
    else Remove(f, parent, name)
  }

  // ----- the invariant of the hierarchy

  /** Groups are filed under their own handle, processes under their own identity and in an existing group,
      and groups list exactly their processes. */
  ghost predicate Consistent(f: Fixture) {
    && (forall h :: h in f.groups ==> f.groups[h].identity.handle == h)
    && (forall p :: p in f.processes ==> f.processes[p].identity == p && f.processes[p].cgroup in f.groups)
    && (forall h, p :: h in f.groups ==>
          (p in f.groups[h].processes <==> p in f.processes && f.processes[p].cgroup == h))
  }

  lemma {:induction false} MoveKeepsConsistent(f: Fixture, p: ProcessId, destination: CgroupId)
    requires Consistent(f) && MoveProcess(f, p, destination).Ok?
    ensures Consistent(MoveProcess(f, p, destination).value)
  {
  }

  lemma {:induction false} CreateKeepsConsistent(f: Fixture, parent: CgroupId, name: CgroupName, largest: u64)
    requires Consistent(f) && Create(f, parent, name, largest).Ok?
    ensures Consistent(Create(f, parent, name, largest).value)
  {
  }

  lemma {:induction false} RemoveKeepsConsistent(f: Fixture, parent: CgroupId, name: CgroupName)
    requires Consistent(f) && Remove(f, parent, name).Ok?
    ensures Consistent(Remove(f, parent, name).value)
  {
  }

  /** Only values changed: no identity, no membership. */
  ghost predicate SameShape(f: Fixture, f': Fixture) {
    && f'.groups.Keys == f.groups.Keys && f'.processes.Keys == f.processes.Keys
    && (forall h :: h in f.groups ==>
          f'.groups[h].identity == f.groups[h].identity && f'.groups[h].processes == f.groups[h].processes)
    && (forall p :: p in f.processes ==>
          f'.processes[p].identity == f.processes[p].identity && f'.processes[p].cgroup == f.processes[p].cgroup)
  }

  lemma {:induction false} SameShapeConsistent(f: Fixture, f': Fixture)
    requires Consistent(f) && SameShape(f, f')
    ensures Consistent(f')
  {
  }

  lemma {:induction false} GroupKeepsShape(f: Fixture, handle: Identifier, g: Group)
    requires handle in f.groups
    requires g.identity == f.groups[handle].identity && g.processes == f.groups[handle].processes
    ensures SameShape(f, WithGroup(f, handle, g))
  {
  }

  lemma {:induction false} ProcessKeepsShape(f: Fixture, id: ProcessId, p: Process)
    requires id in f.processes
    requires p.identity == f.processes[id].identity && p.cgroup == f.processes[id].cgroup
    ensures SameShape(f, WriteProcess(f, id, p))
  {
  }

  lemma {:induction false} ValueWriteKeepsShape(f: Fixture, kind: MutationKind, typed: TypedValue, largest: u64)
    requires Write(f, kind, typed, largest).Ok? && !kind.ProcessPlacement? && !LifecycleKind(kind)
    ensures SameShape(f, Write(f, kind, typed, largest).value)
  {
    var f' := Write(f, kind, typed, largest).value;
    if ProcessKind(kind) {
      var p := f'.processes[kind.process];
      assert f' == WriteProcess(f, kind.process, p);
      ProcessKeepsShape(f, kind.process, p);
    } else {
      var g := f'.groups[kind.cgroup.handle];
      assert f' == WithGroup(f, kind.cgroup.handle, g);
      GroupKeepsShape(f, kind.cgroup.handle, g);
    }
  }

  /** Every write keeps the hierarchy consistent. */
  lemma {:induction false} WriteKeepsConsistent(f: Fixture, kind: MutationKind, typed: TypedValue, largest: u64)
    requires Consistent(f) && Write(f, kind, typed, largest).Ok?
    ensures Consistent(Write(f, kind, typed, largest).value)
  {
    if kind.ProcessPlacement? {
      MoveKeepsConsistent(f, kind.process, typed.cgroup);
    } else if LifecycleKind(kind) {
      if typed.present {
        CreateKeepsConsistent(f, kind.parent, kind.name, largest);
      } else {
        RemoveKeepsConsistent(f, kind.parent, kind.name);
      }
    } else {
      ValueWriteKeepsShape(f, kind, typed, largest);
      SameShapeConsistent(f, Write(f, kind, typed, largest).value);
    }
  }
}
