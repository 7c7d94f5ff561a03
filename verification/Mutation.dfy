/**
  The closed mutation vocabulary (crates/sysboost-core/src/mutation.rs, ids.rs, capability.rs).

  A Rust newtype with a private field and a validating constructor is a subset type here.  Types
  whose fields are public (`UclampValue`, `CpuQuota`, `PlannedMutation`) carry no such guarantee,
  and neither do their models.
 */
module Mutation {
  import opened Outcome
  import opened Bytes
  import opened Text

  const MAX_PREIMAGE_BYTES: nat := 4096

  type Identifier = s: seq<byte> | IsName(s, 128) witness [0x61]
  type SemanticName = s: seq<byte> | IsName(s, 64) witness [0x61]

  predicate IsCgroupName(s: seq<byte>) {
    IsName(s, 64) && 0x3A !in s && s != [0x2E] && s != [0x2E, 0x2E]
  }

  type CgroupName = s: seq<byte> | IsCgroupName(s) witness [0x61]
  type BoundedBytes = s: seq<byte> | |s| <= MAX_PREIMAGE_BYTES
  type MutationId = u32
  type Fingerprint = Bytes32
  type FrequencyKHz = n: u64 | n > 0 witness 1
  type Weight = n: u16 | 1 <= n <= 10_000 witness 1
  type CpuPeriod = n: u64 | 1_000 <= n <= 1_000_000 witness 1_000
  type PowerMilliwatts = n: u32 | n > 0 witness 1
  type NiceValue = n: int | -20 <= n <= 19
  type IoLevel = n: int | 0 <= n <= 7
  type Pid = n: u32 | n > 0 witness 1
  type StartTicks = n: u64 | n > 0 witness 1

  predicate StrictlyIncreasing(s: seq<int>) {
    forall i, j :: 0 <= i < j < |s| ==> s[i] < s[j]
  }

  /** A sorted, duplicate-free, non-empty CPU set. */
  type CpuSet = s: seq<u32> | s != [] && StrictlyIncreasing(s) witness [0]

  datatype CgroupId = CgroupId(mountId: u64, inode: u64, handle: Identifier)
  datatype ProcessId = ProcessId(pid: Pid, startTicks: StartTicks)
  datatype IoClass = IoNone | IoBestEffort | IoIdle
  datatype IoPriority = IoPriority(ioClass: IoClass, level: IoLevel)
  datatype Uclamp = UclampValue(value: u16) | UclampMax
  datatype GroupKind = Workload | ConservativeBackground
  datatype Energy = Performance | BalancePerformance | BalancePower | Power
  datatype BoostState = BoostEnabled | BoostDisabled
  datatype GpuProfile = GpuPerformance | GpuBalanced | GpuPowerSave
  datatype Quota = QuotaMax | QuotaMicros(micros: u64)
  datatype SysctlKey = SchedulerUtilClamping
  datatype Equality = ByteExact | ScalarExact | SetExact

  datatype MutationKind =
    | CpuFrequency(policy: u32, minKhz: Option<FrequencyKHz>, maxKhz: Option<FrequencyKHz>)
    | CpuGovernor(policy: u32, governor: SemanticName)
    | CpuEnergyPreference(policy: u32, energy: Energy)
    | CpuBoost(boost: BoostState)
    | PlatformProfile(profile: SemanticName)
    | CgroupCpuWeight(cgroup: CgroupId, weight: Weight)
    | CgroupCpuMax(cgroup: CgroupId, quota: Quota, period: CpuPeriod)
    | CgroupCpuset(cgroup: CgroupId, cpus: CpuSet)
    | CgroupIoWeight(cgroup: CgroupId, weight: Weight)
    | CgroupUclampMin(cgroup: CgroupId, clamp: Uclamp)
    | CgroupUclampMax(cgroup: CgroupId, clamp: Uclamp)
    | CgroupWorkload(parent: CgroupId, name: CgroupName)
    | CgroupBackground(parent: CgroupId, name: CgroupName)
    | ProcessPlacement(process: ProcessId, cgroup: CgroupId)
    | ProcessNice(process: ProcessId, nice: NiceValue)
    | ProcessIoPriority(process: ProcessId, priority: IoPriority)
    | GpuPerformanceProfile(device: u32, gpu: GpuProfile)
    | GpuPowerLimit(device: u32, milliwatts: PowerMilliwatts)
    | IrqAffinity(irq: u32, cpus: CpuSet)
    | RuntimeSysctl(key: SysctlKey, setting: i64)

  datatype TypedValue =
    | FrequencyValue(minKhz: Option<FrequencyKHz>, maxKhz: Option<FrequencyKHz>)
    | GovernorValue(governor: SemanticName)
    | EnergyValue(energy: Energy)
    | BoostValue(boost: BoostState)
    | ProfileValue(profile: SemanticName)
    | CpuWeightValue(weight: Weight)
    | CpuMaxValue(quota: Quota, period: CpuPeriod)
    | CpusetValue(cpus: CpuSet)
    | IoWeightValue(weight: Weight)
    | UclampSetting(clamp: Uclamp)
    | LifecycleValue(kind: GroupKind, name: CgroupName, present: bool)
    | PlacementValue(cgroup: CgroupId)
    | NiceSetting(nice: NiceValue)
    | IoPriorityValue(priority: IoPriority)
    | GpuProfileValue(gpu: GpuProfile)
    | GpuPowerValue(milliwatts: PowerMilliwatts)
    | IrqValue(cpus: CpuSet)
    | SysctlValue(key: SysctlKey, setting: i64)

  /** The desired value an operation stands for (`MutationKind::typed_value`). */
  function Desired(kind: MutationKind): TypedValue {
    match kind
    case CpuFrequency(_, lo, hi) => FrequencyValue(lo, hi)
    case CpuGovernor(_, governor) => GovernorValue(governor)
    case CpuEnergyPreference(_, energy) => EnergyValue(energy)
    case CpuBoost(boost) => BoostValue(boost)
    case PlatformProfile(profile) => ProfileValue(profile)
    case CgroupCpuWeight(_, weight) => CpuWeightValue(weight)
    case CgroupCpuMax(_, quota, period) => CpuMaxValue(quota, period)
    case CgroupCpuset(_, cpus) => CpusetValue(cpus)
    case CgroupIoWeight(_, weight) => IoWeightValue(weight)
    case CgroupUclampMin(_, clamp) => UclampSetting(clamp)
    case CgroupUclampMax(_, clamp) => UclampSetting(clamp)
    case CgroupWorkload(_, name) => LifecycleValue(Workload, name, true)
    case CgroupBackground(_, name) => LifecycleValue(ConservativeBackground, name, true)
    case ProcessPlacement(_, cgroup) => PlacementValue(cgroup)
    case ProcessNice(_, nice) => NiceSetting(nice)
    case ProcessIoPriority(_, priority) => IoPriorityValue(priority)
    case GpuPerformanceProfile(_, gpu) => GpuProfileValue(gpu)
    case GpuPowerLimit(_, milliwatts) => GpuPowerValue(milliwatts)
    case IrqAffinity(_, cpus) => IrqValue(cpus)
    case RuntimeSysctl(key, setting) => SysctlValue(key, setting)
  }

  /** `MutationKind::validate`. */
  predicate KindAccepted(kind: MutationKind) {
    match kind
    case CpuFrequency(_, lo, hi) =>
      && !(lo.None? && hi.None?)
      && (lo.Some? && hi.Some? ==> lo.value <= hi.value)
    case CgroupUclampMin(_, clamp) => !clamp.UclampMax?
    case _ => true
  }

  datatype RestoreMode = CompareAndRestore
  datatype RollbackContract = RollbackContract(equality: Equality, mode: RestoreMode)

  datatype PlannedMutation = PlannedMutation(
    id: MutationId,
    capability: Identifier,
    target: Identifier,
    kind: MutationKind,
    desired: TypedValue,
    precondition: Fingerprint,
    equality: Equality,
    dependencies: seq<MutationId>,
    rollback: RollbackContract)

  /** `PlannedMutation::new`. */
  function NewMutation(
    id: MutationId, capability: Identifier, target: Identifier, kind: MutationKind,
    desired: TypedValue, precondition: Fingerprint, equality: Equality,
    dependencies: seq<MutationId>): (r: Result<PlannedMutation>)
    ensures r.Ok? <==> KindAccepted(kind) && Desired(kind) == desired && id !in dependencies
    ensures r.Ok? ==> Constructed(r.value)
  {
    if !KindAccepted(kind) then Err(PlanningError)
    else if Desired(kind) != desired then Err(PlanningError)
    else if id in dependencies then Err(PlanningError)
    else Ok(PlannedMutation(id, capability, target, kind, desired, precondition, equality,
                            dependencies, RollbackContract(equality, CompareAndRestore)))
  }

  /** The mutations `PlannedMutation::new` can return. */
  predicate Constructed(m: PlannedMutation) {
    && KindAccepted(m.kind)
    && m.desired == Desired(m.kind)
    && m.id !in m.dependencies
    && m.rollback == RollbackContract(m.equality, CompareAndRestore)
  }

  predicate UniqueIds(ms: seq<PlannedMutation>) {
    forall i, j :: 0 <= i < j < |ms| ==> ms[i].id != ms[j].id
  }

  // Values in the image of the constructors of the two types with public payloads.

  predicate UclampBounded(c: Uclamp) { c.UclampValue? ==> c.value <= 1024 }

  predicate QuotaPositive(q: Quota) { q.QuotaMicros? ==> q.micros > 0 }

  predicate KindBounded(kind: MutationKind) {
    match kind
    case CgroupCpuMax(_, quota, _) => QuotaPositive(quota)
    case CgroupUclampMin(_, clamp) => UclampBounded(clamp)
    case CgroupUclampMax(_, clamp) => UclampBounded(clamp)
    case _ => true
  }

  predicate ValueBounded(value: TypedValue) {
    match value
    case CpuMaxValue(quota, _) => QuotaPositive(quota)
    case UclampSetting(clamp) => UclampBounded(clamp)
    case _ => true
  }

  datatype Snapshot = Snapshot(
    id: MutationId,
    target: Identifier,
    raw: BoundedBytes,
    typed: TypedValue,
    fingerprint: Fingerprint,
    equality: Equality,
    identity: Bytes16,
    capturedAt: u128)

  datatype ApplyReceipt = ApplyReceipt(
    id: MutationId, precondition: Fingerprint, postcondition: Fingerprint, ownership: Fingerprint)

  datatype RestoreReceipt = RestoreReceipt(id: MutationId, restored: Fingerprint, verified: bool)

  // ----- `CpuSet::new`: sort and remove duplicates

  function Insert(x: u32, s: seq<u32>): (r: seq<u32>)
    requires StrictlyIncreasing(s)
    ensures StrictlyIncreasing(r) && r != [] && |r| <= |s| + 1
    ensures forall y :: y in r <==> y == x || y in s
    ensures s == [] || x < s[0] ==> r == [x] + s
  {
    if s == [] || x < s[0] then [x] + s
    else if x == s[0] then s
    else
      var t := Insert(x, s[1..]);
      assert forall y :: y in s <==> y == s[0] || y in s[1..];
      assert forall i :: 0 <= i < |t| ==> t[i] in t;
      [s[0]] + t
  }

  function SortDedup(s: seq<u32>): (r: seq<u32>)
    ensures StrictlyIncreasing(r) && |r| <= |s|
    ensures forall y :: y in r <==> y in s
    ensures s != [] <==> r != []
  {
    if s == [] then [] else Insert(s[0], SortDedup(s[1..]))
  }

  function NewCpuSet(s: seq<u32>): (r: Result<CpuSet>)
    ensures r.Ok? <==> s != []
    ensures r.Ok? ==> (forall y :: y in r.value <==> y in s) && |r.value| <= |s|
  {
    var t := SortDedup(s);
    if t == [] then Err(InvalidInput) else Ok(t)
  }

  /** A canonical list is its own normal form. */
  lemma {:induction false} SortedIsFixed(s: seq<u32>)
    requires StrictlyIncreasing(s)
    ensures SortDedup(s) == s
  {
    if s != [] {
      SortedIsFixed(s[1..]);
      assert s == [s[0]] + s[1..];
    }
  }
}
