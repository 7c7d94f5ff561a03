/**
  The bytes of a state file, written out part by part with their numbers
  (crates/sysboost-core/src/transaction.rs, 26-40, 474-509, 770-812, 931-1229 and 1231-1893).

  A format that reads back what it wrote could still number its variants or order its fields in
  another way.  The tables here are independent of the layout tables of the codec; the lemmas say
  that the codec writes exactly these bytes.
 */
module WireFormat {
  import opened Outcome
  import opened Bytes
  import opened Mutation
  import opened Session
  import opened Wire
  import opened VocabularyWire
  import opened LayoutWire
  import opened RecordWire
  import opened StructureWire
  import opened TupleWire
  import opened CodecWire
  import Checksum

  /** The parts one after the other; one part that cannot be written makes the whole unwritable. */
  function Cat(parts: seq<Bits>): Bits {
    if parts == [] then Ok([]) else Join(parts[0], Cat(parts[1..]))
  }

  // ----- the parts

  /** The last `width` digits of `n` in base 256, most significant first. */
  function Num(n: nat, width: nat): Bits {
    Ok(seq(width, i requires 0 <= i < width => n / Pow256(width - 1 - i) % 0x100))
  }

  /** A 64-bit integer in two's complement. */
  function Int(n: i64): Bits { Num(if n < 0 then n + 0x1_0000_0000_0000_0000 else n, 8) }

  function Chars(t: seq<byte>, max: nat): Bits {
    if 0 < |t| <= max && 0 !in t then Cat([Num(|t|, 4), Ok(t)]) else Err(JournalCorrupt)
  }

  function Label(t: seq<byte>): Bits { Chars(t, 4096) }

  function Maybe<T>(put: T -> Bits, x: Option<T>): Bits {
    match x case None => Num(0, 1) case Some(v) => Cat([Num(1, 1), put(v)])
  }

  function Counted<T>(put: T -> Bits, xs: seq<T>, max: nat): Bits {
    if |xs| > max then Err(JournalCorrupt)
    else Join(Num(|xs|, 4), Cat(seq(|xs|, i requires 0 <= i < |xs| => put(xs[i]))))
  }

  function Speed(khz: Option<FrequencyKHz>): Bits { Maybe((f: FrequencyKHz) => Num(f, 8), khz) }
  function Group(c: CgroupId): Bits { Cat([Num(c.mountId, 8), Num(c.inode, 8), Label(c.handle)]) }
  function Task(p: ProcessId): Bits { Cat([Num(p.pid, 4), Num(p.startTicks, 8)]) }
  function CpuBytes(cpus: CpuSet): Bits { Counted((n: u32) => Num(n, 4), cpus, 4096) }
  function QuotaBytes(q: Quota): Bits {
    match q case QuotaMax => Num(0, 1) case QuotaMicros(micros) => Cat([Num(1, 1), Num(micros, 8)])
  }
  function PriorityBytes(p: IoPriority): Bits { Cat([Num(IoClassTag(p.ioClass), 1), Num(p.level, 1)]) }
  function ClampBytes(c: Uclamp): Bits {
    match c case UclampValue(value) => Cat([Num(0, 1), Num(value, 2)]) case UclampMax => Num(1, 1)
  }

  // ----- the numbers of the closed enumerations: the position in the list

  const ENERGIES := [Performance, BalancePerformance, BalancePower, Power]
  const BOOSTS := [BoostEnabled, BoostDisabled]
  const GPUS := [GpuPerformance, GpuBalanced, GpuPowerSave]
  const GROUPS := [Workload, ConservativeBackground]
  const CLASSES := [IoNone, IoBestEffort, IoIdle]
  const SESSIONS := [New, Detected, Planned, Snapshotted, IntentDurable, Applying, Active, Restoring, Restored,
                     RollingBack, Degraded, RecoveryPending]
  const STATES := [OpPlanned, OpSnapshotted, OpIntentRecorded, OpApplying, OpApplied, OpVerified, OpRestoring,
                   OpRestored, OpFailed, OpRestoreFailed]
  const EQUALITIES := [ByteExact, ScalarExact, SetExact]
  const STAGES := [DetectStage, PlanStage, SnapshotStage, DurableIntentStage, ApplyStage, VerifyStage, RestoreStage,
                   RecoveryStage, TransportStage, ConfigStage]
  // Error codes are numbered from 1.
  const CODES := [ConfigError, CapabilityError, Unsupported, AuthorizationError, TargetError, PlanningError,
                  SnapshotError, DurabilityError, TransportError, ApplyError, VerificationError, RestoreConflict,
                  RestoreError, JournalCorrupt, InvariantViolation, InvalidInput]

  lemma {:induction false} NumberedFrom0()
    ensures forall i: nat :: i < 4 ==> EnergyTag(ENERGIES[i]) == i
    ensures forall i: nat :: i < 2 ==> BoostTag(BOOSTS[i]) == i
    ensures forall i: nat :: i < 3 ==> GpuTag(GPUS[i]) == i
    ensures forall i: nat :: i < 2 ==> GroupTag(GROUPS[i]) == i
    ensures forall i: nat :: i < 3 ==> IoClassTag(CLASSES[i]) == i
    ensures forall i: nat :: i < 12 ==> SessionStateTag(SESSIONS[i]) == i
    ensures forall i: nat :: i < 10 ==> OperationStateTag(STATES[i]) == i
    ensures forall i: nat :: i < 3 ==> EqualityTag(EQUALITIES[i]) == i
    ensures forall i: nat :: i < 10 ==> StageTag(STAGES[i]) == i
    ensures forall i: nat :: i < 16 ==> CodeTag(CODES[i]) == i + 1
    ensures SysctlTag(SchedulerUtilClamping) == 0
  {
  }

  // ----- operation kinds and typed values

  function KindParts(kind: MutationKind): seq<Bits> {
    match kind
    case CpuFrequency(policy, lo, hi) => [Num(0, 1), Num(policy, 4), Speed(lo), Speed(hi)]
    case CpuGovernor(policy, governor) => [Num(1, 1), Num(policy, 4), Label(governor)]
    case CpuEnergyPreference(policy, energy) => [Num(2, 1), Num(policy, 4), Num(EnergyTag(energy), 1)]
    case CgroupCpuWeight(cgroup, weight) => [Num(3, 1), Group(cgroup), Num(weight, 2)]
    case CgroupCpuMax(cgroup, quota, period) => [Num(4, 1), Group(cgroup), QuotaBytes(quota), Num(period, 8)]
    case CgroupCpuset(cgroup, cpus) => [Num(5, 1), Group(cgroup), CpuBytes(cpus)]
    case GpuPerformanceProfile(device, gpu) => [Num(6, 1), Num(device, 4), Num(GpuTag(gpu), 1)]
    case GpuPowerLimit(device, milliwatts) => [Num(7, 1), Num(device, 4), Num(milliwatts, 4)]
    case IrqAffinity(irq, cpus) => [Num(8, 1), Num(irq, 4), CpuBytes(cpus)]
    case RuntimeSysctl(key, setting) => [Num(9, 1), Num(SysctlTag(key), 1), Int(setting)]
    case CpuBoost(boost) => [Num(10, 1), Num(BoostTag(boost), 1)]
    case PlatformProfile(profile) => [Num(11, 1), Label(profile)]
    case CgroupIoWeight(cgroup, weight) => [Num(12, 1), Group(cgroup), Num(weight, 2)]
    case CgroupUclampMin(cgroup, clamp) => [Num(13, 1), Group(cgroup), ClampBytes(clamp)]
    case CgroupUclampMax(cgroup, clamp) => [Num(14, 1), Group(cgroup), ClampBytes(clamp)]
    case CgroupWorkload(parent, name) => [Num(15, 1), Group(parent), Label(name)]
    case CgroupBackground(parent, name) => [Num(16, 1), Group(parent), Label(name)]
    case ProcessPlacement(process, cgroup) => [Num(17, 1), Task(process), Group(cgroup)]
    case ProcessNice(process, nice) => [Num(18, 1), Task(process), Int(nice)]
    case ProcessIoPriority(process, priority) => [Num(19, 1), Task(process), PriorityBytes(priority)]
  }

  function ValueParts(value: TypedValue): seq<Bits> {
    match value
    case FrequencyValue(lo, hi) => [Num(0, 1), Speed(lo), Speed(hi)]
    case GovernorValue(governor) => [Num(1, 1), Label(governor)]
    case EnergyValue(energy) => [Num(2, 1), Num(EnergyTag(energy), 1)]
    case CpuWeightValue(weight) => [Num(3, 1), Num(weight, 2)]
    case CpuMaxValue(quota, period) => [Num(4, 1), QuotaBytes(quota), Num(period, 8)]
    case CpusetValue(cpus) => [Num(5, 1), CpuBytes(cpus)]
    case GpuProfileValue(gpu) => [Num(6, 1), Num(GpuTag(gpu), 1)]
    case GpuPowerValue(milliwatts) => [Num(7, 1), Num(milliwatts, 4)]
    case IrqValue(cpus) => [Num(8, 1), CpuBytes(cpus)]
    case SysctlValue(key, setting) => [Num(9, 1), Num(SysctlTag(key), 1), Int(setting)]
    case BoostValue(boost) => [Num(10, 1), Num(BoostTag(boost), 1)]
    case ProfileValue(profile) => [Num(11, 1), Label(profile)]
    case IoWeightValue(weight) => [Num(12, 1), Num(weight, 2)]
    case UclampSetting(clamp) => [Num(13, 1), ClampBytes(clamp)]
    case LifecycleValue(kind, name, present) =>
      [Num(14, 1), Num(GroupTag(kind), 1), Label(name), Num(if present then 1 else 0, 1)]
    case PlacementValue(cgroup) => [Num(15, 1), Group(cgroup)]
    case NiceSetting(nice) => [Num(16, 1), Int(nice)]
    case IoPriorityValue(priority) => [Num(17, 1), PriorityBytes(priority)]
  }

  // ----- the parts are what the codec writes

  lemma {:induction false} CatOne(a: Bits)
    ensures Cat([a]) == a
  {
    assert [a][1..] == [];
    assert a.Ok? ==> a.value + [] == a.value;
  }

  lemma {:induction false} CatTwo(a: Bits, b: Bits)
    ensures Cat([a, b]) == Join(a, b)
  {
    assert [a, b][1..] == [b] && [b][1..] == [];
    CatOne(b);
  }

  lemma {:induction false} CatThree(a: Bits, b: Bits, c: Bits)
    ensures Cat([a, b, c]) == Join(a, Join(b, c))
  {
    assert [a, b, c][1..] == [b, c];
    CatTwo(b, c);
  }

  lemma {:induction false} OneByte(n: byte)
    ensures Num(n, 1) == Ok([n])
  {
    assert Pow256(0) == 1;
    assert Num(n, 1).value == [n];
  }

  lemma {:induction false} WordBytes(n: nat, width: nat)
    ensures Num(n, width) == Ok(BigEndian(n, width))
  {
    assert Num(n, width).value == BigEndian(n, width);
  }

  lemma {:induction false} SignedBytes(n: i64)
    ensures Int(n) == Ok(PutI64(n))
  {
    WordBytes(Unsigned(n), 8);
  }

  lemma {:induction false} LabelBytes(t: seq<byte>, max: nat)
    requires max <= 4096
    ensures Chars(t, max) == PutString(t, max)
  {
    CatTwo(Num(|t|, 4), Ok(t));
    WordBytes(|t|, 4);
  }

  lemma {:induction false} GroupBytes(c: CgroupId)
    ensures Group(c) == PutCgroup(c)
  {
    CatThree(Num(c.mountId, 8), Num(c.inode, 8), Label(c.handle));
    WordBytes(c.mountId, 8);
    WordBytes(c.inode, 8);
    LabelBytes(c.handle, 4096);
    Assoc();
  }

  /** Elements written one after the other are the parts `put` gives. */
  lemma {:induction false} AllParts<T>(put: T -> Bits, xs: seq<T>, parts: seq<Bits>)
    requires |parts| == |xs| && forall i :: 0 <= i < |xs| ==> parts[i] == put(xs[i])
    ensures PutAll(put, xs) == Cat(parts)
  {
    if xs != [] {
      AllParts(put, xs[1..], parts[1..]);
    }
  }

  lemma {:induction false} CountedBytes<T>(put: T -> Bits, part: T -> Bits, xs: seq<T>, max: nat)
    requires max <= 16_384
    requires forall i :: 0 <= i < |xs| ==> put(xs[i]) == part(xs[i])
    ensures Counted(part, xs, max) == PutList(put, xs, max)
  {
    if |xs| <= max {
      AllParts(put, xs, seq(|xs|, i requires 0 <= i < |xs| => part(xs[i])));
      WordBytes(|xs|, 4);
    }
  }

  lemma {:induction false} CpuSetBytes(cpus: CpuSet)
    ensures CpuBytes(cpus) == PutCpuSet(cpus)
  {
    forall i | 0 <= i < |cpus|
      ensures PutWord32(cpus[i]) == Num(cpus[i], 4)
    {
      WordBytes(cpus[i], 4);
    }
    CountedBytes(PutWord32, (n: u32) => Num(n, 4), cpus, 4096);
  }

  /** A field as the parts above spell it. */
  function FieldPart(f: Field): Bits {
    match f
    case Byte(n) => Num(n, 1)
    case Flag(b) => Num(if b then 1 else 0, 1)
    case Word16(n) => Num(n, 2)
    case Word32(n) => Num(n, 4)
    case Word64(n) => Num(n, 8)
    case Signed64(n) => Int(n)
    case Name(t) => Label(t)
    case Frequency(khz) => Speed(khz)
    case Cgroup(c) => Group(c)
    case Process(p) => Task(p)
    case Clamp(c) => ClampBytes(c)
    case QuotaField(q) => QuotaBytes(q)
    case Priority(p) => PriorityBytes(p)
    case Cpus(cpus) => CpuBytes(cpus)
  }

  lemma {:induction false} SmallParts(khz: Option<FrequencyKHz>, p: ProcessId, c: Uclamp, q: Quota, i: IoPriority)
    ensures Speed(khz) == Ok(PutFrequency(khz))
    ensures Task(p) == Ok(PutProcess(p))
    ensures ClampBytes(c) == Ok(PutUclamp(c))
    ensures QuotaBytes(q) == Ok(PutQuota(q))
    ensures PriorityBytes(i) == Ok(PutIoPriority(i))
  {
    OneByte(0);
    OneByte(1);
    if khz.Some? {
      WordBytes(khz.value, 8);
      CatTwo(Num(1, 1), Num(khz.value, 8));
    }
    WordBytes(p.pid, 4);
    WordBytes(p.startTicks, 8);
    CatTwo(Num(p.pid, 4), Num(p.startTicks, 8));
    if c.UclampValue? {
      WordBytes(c.value, 2);
      CatTwo(Num(0, 1), Num(c.value, 2));
    }
    if q.QuotaMicros? {
      WordBytes(q.micros, 8);
      CatTwo(Num(1, 1), Num(q.micros, 8));
    }
    OneByte(IoClassTag(i.ioClass));
    OneByte(i.level);
    CatTwo(Num(IoClassTag(i.ioClass), 1), Num(i.level, 1));
  }

  lemma {:induction false} FieldBytes(f: Field)
    ensures PutField(f) == FieldPart(f)
  {
    match f {
      case Byte(n) => OneByte(n);
      case Flag(b) => OneByte(if b then 1 else 0);
      case Word16(n) => WordBytes(n, 2);
      case Word32(n) => WordBytes(n, 4);
      case Word64(n) => WordBytes(n, 8);
      case Signed64(n) => SignedBytes(n);
      case Name(t) => LabelBytes(t, 4096);
      case Frequency(khz) => SmallParts(khz, ProcessId(1, 1), UclampMax, QuotaMax, IoPriority(IoNone, 0));
      case Cgroup(c) => GroupBytes(c);
      case Process(p) => SmallParts(None, p, UclampMax, QuotaMax, IoPriority(IoNone, 0));
      case Clamp(c) => SmallParts(None, ProcessId(1, 1), c, QuotaMax, IoPriority(IoNone, 0));
      case QuotaField(q) => SmallParts(None, ProcessId(1, 1), UclampMax, q, IoPriority(IoNone, 0));
      case Priority(p) => SmallParts(None, ProcessId(1, 1), UclampMax, QuotaMax, p);
      case Cpus(cpus) => CpuSetBytes(cpus);
    }
  }

  lemma {:induction false} TaggedFields(tag: byte, fields: seq<Field>, parts: seq<Bits>)
    requires Spelt(fields, parts) && parts[0] == Num(tag, 1)
    ensures Join(Ok(PutU8(tag)), PutAll(PutField, fields)) == Cat(parts)
  {
    OneByte(tag);
    forall i | 0 <= i < |fields|
      ensures parts[1..][i] == PutField(fields[i])
    {
      FieldBytes(fields[i]);
    }
    AllParts(PutField, fields, parts[1..]);
  }

  ghost predicate Spelt(fields: seq<Field>, parts: seq<Bits>) {
    |parts| == |fields| + 1 && forall i :: 0 <= i < |fields| ==> parts[i + 1] == FieldPart(fields[i])
  }

  ghost predicate KindSpelt(kind: MutationKind) {
    Spelt(KindFields(kind), KindParts(kind)) && KindParts(kind)[0] == Num(KindTag(kind), 1)
  }

  ghost predicate ValueSpelt(value: TypedValue) {
    Spelt(ValueFields(value), ValueParts(value)) && ValueParts(value)[0] == Num(ValueTag(value), 1)
  }

  lemma {:induction false} PolicySpelt(kind: MutationKind)
    requires kind.CpuFrequency? || kind.CpuGovernor? || kind.CpuEnergyPreference? || kind.CpuBoost?
      || kind.PlatformProfile?
    ensures KindSpelt(kind)
  {
  }

  lemma {:induction false} DeviceSpelt(kind: MutationKind)
    requires kind.GpuPerformanceProfile? || kind.GpuPowerLimit? || kind.IrqAffinity?
      || kind.RuntimeSysctl?
    ensures KindSpelt(kind)
  {
  }

  lemma {:induction false} ShareSpelt(kind: MutationKind)
    requires kind.CgroupCpuWeight? || kind.CgroupCpuMax? || kind.CgroupCpuset?
    ensures KindSpelt(kind)
  {
  }

  lemma {:induction false} ClampSpelt(kind: MutationKind)
    requires kind.CgroupIoWeight? || kind.CgroupUclampMin? || kind.CgroupUclampMax?
    ensures KindSpelt(kind)
  {
  }

  lemma {:induction false} LifecycleSpelt(kind: MutationKind)
    requires kind.CgroupWorkload? || kind.CgroupBackground?
    ensures KindSpelt(kind)
  {
  }

  lemma {:induction false} ProcessSpelt(kind: MutationKind)
    requires kind.ProcessPlacement? || kind.ProcessNice? || kind.ProcessIoPriority?
    ensures KindSpelt(kind)
  {
  }

  lemma {:induction false} PolicyValue(value: TypedValue)
    requires value.FrequencyValue? || value.GovernorValue? || value.EnergyValue? || value.BoostValue?
      || value.ProfileValue?
    ensures ValueSpelt(value)
  {
  }

  lemma {:induction false} DeviceValue(value: TypedValue)
    requires value.GpuProfileValue? || value.GpuPowerValue? || value.IrqValue? || value.SysctlValue?
    ensures ValueSpelt(value)
  {
  }

  lemma {:induction false} ShareValue(value: TypedValue)
    requires value.CpuWeightValue? || value.CpuMaxValue? || value.CpusetValue? || value.IoWeightValue?
      || value.UclampSetting?
    ensures ValueSpelt(value)
  {
  }

  lemma {:induction false} ProcessValue(value: TypedValue)
    requires value.LifecycleValue? || value.PlacementValue? || value.NiceSetting?
      || value.IoPriorityValue?
    ensures ValueSpelt(value)
  {
  }

  lemma {:induction false} EveryKindSpelt(kind: MutationKind)
    ensures KindSpelt(kind)
  {
    if kind.CpuFrequency? || kind.CpuGovernor? || kind.CpuEnergyPreference? || kind.CpuBoost?
      || kind.PlatformProfile? {
      PolicySpelt(kind);
    } else if kind.GpuPerformanceProfile? || kind.GpuPowerLimit? || kind.IrqAffinity?
      || kind.RuntimeSysctl? {
      DeviceSpelt(kind);
    } else if kind.CgroupCpuWeight? || kind.CgroupCpuMax? || kind.CgroupCpuset? {
      ShareSpelt(kind);
    } else if kind.CgroupIoWeight? || kind.CgroupUclampMin? || kind.CgroupUclampMax? {
      ClampSpelt(kind);
    } else if kind.CgroupWorkload? || kind.CgroupBackground? {
      LifecycleSpelt(kind);
    } else {
      ProcessSpelt(kind);
    }
  }

  /** An operation kind is written as its number and its fields, in this order. */
  lemma {:induction false} KindWritten(kind: MutationKind)
    ensures PutKind(kind) == Cat(KindParts(kind))
  {
    EveryKindSpelt(kind);
    TaggedFields(KindTag(kind), KindFields(kind), KindParts(kind));
  }

  /** A typed value is written as its number and its fields, in this order. */
  lemma {:induction false} ValueWritten(value: TypedValue)
    ensures PutValue(value) == Cat(ValueParts(value))
  {
    if value.FrequencyValue? || value.GovernorValue? || value.EnergyValue? || value.BoostValue?
      || value.ProfileValue? {
      PolicyValue(value);
    } else if value.GpuProfileValue? || value.GpuPowerValue? || value.IrqValue? || value.SysctlValue? {
      DeviceValue(value);
    } else if value.CpuWeightValue? || value.CpuMaxValue? || value.CpusetValue? || value.IoWeightValue?
      || value.UclampSetting? {
      ShareValue(value);
    } else {
      ProcessValue(value);
    }
    TaggedFields(ValueTag(value), ValueFields(value), ValueParts(value));
  }

  // ----- structures

  function KindBits(kind: MutationKind): Bits { Cat(KindParts(kind)) }
  function ValueBits(value: TypedValue): Bits { Cat(ValueParts(value)) }

  function MutationParts(m: PlannedMutation): seq<Bits> {
    [Num(m.id, 4), Label(m.capability), Label(m.target), KindBits(m.kind), ValueBits(m.desired), Ok(m.precondition),
     Num(EqualityTag(m.equality), 1), Counted((n: u32) => Num(n, 4), m.dependencies, 4096)]
  }

  function SnapshotParts(x: Snapshot): seq<Bits> {
    [Num(x.id, 4), Label(x.target), Cat([Num(|x.raw|, 4), Ok(x.raw)]), ValueBits(x.typed), Ok(x.fingerprint),
     Num(EqualityTag(x.equality), 1), Ok(x.identity), Num(x.capturedAt, 16)]
  }

  function ApplyParts(x: ApplyReceipt): seq<Bits> {
    [Num(x.id, 4), Ok(x.precondition), Ok(x.postcondition), Ok(x.ownership)]
  }

  function VerificationParts(x: Verification): seq<Bits> {
    [Num(x.id, 4), Ok(x.expected), Maybe((f: Fingerprint) => Ok(f), x.observed), Num(if x.matched then 1 else 0, 1)]
  }

  function RestoreParts(x: RestoreReceipt): seq<Bits> {
    [Num(x.id, 4), Ok(x.restored), Num(if x.verified then 1 else 0, 1)]
  }

  function FailureParts(x: Failure): seq<Bits> {
    [Num(CodeTag(x.code), 2), Num(StageTag(x.stage), 1), Maybe((n: MutationId) => Num(n, 4), x.id),
     Chars(x.message, 1024)]
  }

  function TransitionParts(x: TransitionRecord): seq<Bits> {
    [Num(x.sequence, 8), Ok(x.sessionId), Num(SessionStateTag(x.from), 1), Num(SessionStateTag(x.to), 1),
     Num(x.at, 16), Chars(x.reason, 1024)]
  }

  function SessionParts(x: Session): seq<Bits> {
    [Ok(x.header.sessionId), Ok(x.header.planId), Ok(x.header.planDigest), Num(x.header.createdAt, 16),
     Num(SessionStateTag(x.state), 1), Counted((t: Identifier) => Label(t), x.header.targets, 4096)]
  }

  function OperationParts(op: Operation): seq<Bits> {
    [Cat(MutationParts(op.mutation)), Num(OperationStateTag(op.state), 1),
     Maybe((x: Snapshot) => Cat(SnapshotParts(x)), op.snapshot),
     Maybe((x: ApplyReceipt) => Cat(ApplyParts(x)), op.apply),
     Maybe((x: Verification) => Cat(VerificationParts(x)), op.verification),
     Maybe((x: RestoreReceipt) => Cat(RestoreParts(x)), op.restore),
     Maybe((x: Failure) => Cat(FailureParts(x)), op.failure)]
  }

  function PayloadParts(r: Record): seq<Bits> {
    [Cat(SessionParts(r.session)),
     Counted((op: Operation) => Cat(OperationParts(op)), r.operations, 4096),
     Counted((x: TransitionRecord) => Cat(TransitionParts(x)), r.transitions, 16_384),
     Counted((x: Failure) => Cat(FailureParts(x)), r.failures, 4096)]
  }

  // ----- the structures are what the codec writes

  function CellPart(c: Cell): Bits {
    match c
    case Scalar(f) => FieldPart(f)
    case Fixed16(x) => Ok(x)
    case Fixed32(x) => Ok(x)
    case Word128(n) => Num(n, 16)
    case Raw(x) => Cat([Num(|x|, 4), Ok(x)])
    case Text(t) => Chars(t, 1024)
    case Kind(kind) => KindBits(kind)
    case Value(value) => ValueBits(value)
    case MaybePrint(x) => Maybe((f: Fingerprint) => Ok(f), x)
    case MaybeId(x) => Maybe((n: MutationId) => Num(n, 4), x)
    case Ids(ids) => Counted((n: u32) => Num(n, 4), ids, 4096)
    case Names(names) => Counted((t: Identifier) => Label(t), names, 4096)
  }

  lemma {:induction false} MaybeBytes<T>(put: T -> Bits, part: T -> Bits, x: Option<T>)
    requires x.Some? ==> put(x.value) == part(x.value)
    ensures Maybe(part, x) == PutOption(put, x)
  {
    OneByte(0);
    OneByte(1);
    if x.Some? {
      CatTwo(Num(1, 1), part(x.value));
    }
  }

  lemma {:induction false} CellBytes(c: Cell)
    ensures PutCell(c) == CellPart(c)
  {
    match c {
      case Scalar(f) => FieldBytes(f);
      case Fixed16(x) =>
      case Fixed32(x) =>
      case Word128(n) => WordBytes(n, 16);
      case Raw(x) =>
        WordBytes(|x|, 4);
        CatTwo(Num(|x|, 4), Ok(x));
      case Text(t) => LabelBytes(t, 1024);
      case Kind(kind) => KindWritten(kind);
      case Value(value) => ValueWritten(value);
      case MaybePrint(x) => MaybeBytes(PutFixed32, (f: Fingerprint) => Ok(f), x);
      case MaybeId(x) =>
        if x.Some? {
          WordBytes(x.value, 4);
        }
        MaybeBytes(PutWord32, (n: MutationId) => Num(n, 4), x);
      case Ids(ids) =>
        forall i | 0 <= i < |ids|
          ensures PutWord32(ids[i]) == Num(ids[i], 4)
        {
          WordBytes(ids[i], 4);
        }
        CountedBytes(PutWord32, (n: u32) => Num(n, 4), ids, 4096);
      case Names(names) =>
        forall i | 0 <= i < |names|
          ensures PutIdentifier(names[i]) == Label(names[i])
        {
          LabelBytes(names[i], 4096);
        }
        CountedBytes(PutIdentifier, (t: Identifier) => Label(t), names, 4096);
    }
  }

  lemma {:induction false} CellsBytes(cells: seq<Cell>, parts: seq<Bits>)
    requires |parts| == |cells| && forall i :: 0 <= i < |cells| ==> parts[i] == CellPart(cells[i])
    ensures PutAll(PutCell, cells) == Cat(parts)
  {
    forall i | 0 <= i < |cells|
      ensures parts[i] == PutCell(cells[i])
    {
      CellBytes(cells[i]);
    }
    AllParts(PutCell, cells, parts);
  }

  lemma {:induction false} MutationWritten(m: PlannedMutation)
    ensures PutMutation(m) == Cat(MutationParts(m))
  {
    CellsBytes(MutationCells(m), MutationParts(m));
  }

  lemma {:induction false} SnapshotWritten(x: Snapshot)
    ensures PutSnapshot(x) == Cat(SnapshotParts(x))
  {
    CellsBytes(SnapshotCells(x), SnapshotParts(x));
  }

  lemma {:induction false} ApplyWritten(x: ApplyReceipt)
    ensures PutApply(x) == Cat(ApplyParts(x))
  {
    CellsBytes(ApplyCells(x), ApplyParts(x));
  }

  lemma {:induction false} VerificationWritten(x: Verification)
    ensures PutVerification(x) == Cat(VerificationParts(x))
  {
    CellsBytes(VerificationCells(x), VerificationParts(x));
  }

  lemma {:induction false} RestoreWritten(x: RestoreReceipt)
    ensures PutRestore(x) == Cat(RestoreParts(x))
  {
    CellsBytes(RestoreCells(x), RestoreParts(x));
  }

  lemma {:induction false} FailureWritten(x: Failure)
    ensures PutFailure(x) == Cat(FailureParts(x))
  {
    CellsBytes(FailureCells(x), FailureParts(x));
  }

  lemma {:induction false} TransitionWritten(x: TransitionRecord)
    ensures PutTransition(x) == Cat(TransitionParts(x))
  {
    CellsBytes(TransitionCells(x), TransitionParts(x));
  }

  lemma {:induction false} SessionWritten(x: Session)
    ensures PutSession(x) == Cat(SessionParts(x))
  {
    CellsBytes(SessionCells(x), SessionParts(x));
  }

  lemma {:induction false} ReceiptsWritten(op: Operation)
    ensures Maybe((x: Snapshot) => Cat(SnapshotParts(x)), op.snapshot) == PutMaybeSnapshot(op.snapshot)
    ensures Maybe((x: ApplyReceipt) => Cat(ApplyParts(x)), op.apply) == PutMaybeApply(op.apply)
    ensures Maybe((x: Verification) => Cat(VerificationParts(x)), op.verification)
         == PutMaybeVerification(op.verification)
    ensures Maybe((x: RestoreReceipt) => Cat(RestoreParts(x)), op.restore) == PutMaybeRestore(op.restore)
    ensures Maybe((x: Failure) => Cat(FailureParts(x)), op.failure) == PutMaybeFailure(op.failure)
  {
    if op.snapshot.Some? {
      SnapshotWritten(op.snapshot.value);
    }
    if op.apply.Some? {
      ApplyWritten(op.apply.value);
    }
    if op.verification.Some? {
      VerificationWritten(op.verification.value);
    }
    if op.restore.Some? {
      RestoreWritten(op.restore.value);
    }
    if op.failure.Some? {
      FailureWritten(op.failure.value);
    }
    MaybeBytes(PutSnapshot, (x: Snapshot) => Cat(SnapshotParts(x)), op.snapshot);
    MaybeBytes(PutApply, (x: ApplyReceipt) => Cat(ApplyParts(x)), op.apply);
    MaybeBytes(PutVerification, (x: Verification) => Cat(VerificationParts(x)), op.verification);
    MaybeBytes(PutRestore, (x: RestoreReceipt) => Cat(RestoreParts(x)), op.restore);
    MaybeBytes(PutFailure, (x: Failure) => Cat(FailureParts(x)), op.failure);
  }

  /** An operation is its mutation, its state and its five optional receipts. */
  lemma {:induction false} OperationWritten(op: Operation)
    ensures PutOperation(op) == Cat(OperationParts(op))
  {
    MutationWritten(op.mutation);
    OneByte(OperationStateTag(op.state));
    ReceiptsWritten(op);
    SevenParts(OperationParts(op));
  }

  lemma {:induction false} SevenParts(p: seq<Bits>)
    requires |p| == 7
    ensures Cat(p) == Join(p[0], Join(p[1], Join(p[2], Join(p[3], Join(p[4], Join(p[5], p[6]))))))
  {
    var q := p[1..];
    var r := q[1..];
    var s := r[1..];
    var t := s[1..];
    assert q[0] == p[1] && r[0] == p[2] && s[0] == p[3] && t[0] == p[4];
    assert t[1..] == [p[5], p[6]];
    CatTwo(p[5], p[6]);
    assert Cat(t) == Join(p[4], Join(p[5], p[6]));
    assert Cat(r) == Join(p[2], Join(p[3], Cat(t)));
  }

  /** The payload is the session and three counted lists. */
  lemma {:induction false} PayloadWritten(r: Record)
    ensures PutPayload(r) == Cat(PayloadParts(r))
  {
    SessionWritten(r.session);
    forall i | 0 <= i < |r.operations|
      ensures PutOperation(r.operations[i]) == Cat(OperationParts(r.operations[i]))
    {
      OperationWritten(r.operations[i]);
    }
    forall i | 0 <= i < |r.transitions|
      ensures PutTransition(r.transitions[i]) == Cat(TransitionParts(r.transitions[i]))
    {
      TransitionWritten(r.transitions[i]);
    }
    forall i | 0 <= i < |r.failures|
      ensures PutFailure(r.failures[i]) == Cat(FailureParts(r.failures[i]))
    {
      FailureWritten(r.failures[i]);
    }
    CountedBytes(PutOperation, (op: Operation) => Cat(OperationParts(op)), r.operations, 4096);
    CountedBytes(PutTransition, (x: TransitionRecord) => Cat(TransitionParts(x)), r.transitions, 16_384);
    CountedBytes(PutFailure, (x: Failure) => Cat(FailureParts(x)), r.failures, 4096);
    var p := PayloadParts(r);
    assert p[1..] == [p[1], p[2], p[3]];
    CatThree(p[1], p[2], p[3]);
  }

  // ----- the frame

  lemma {:induction false} CatFirst(a: seq<byte>, parts: seq<Bits>)
    requires parts != [] && parts[0] == Ok(a) && Cat(parts[1..]).Ok?
    ensures Cat(parts) == Ok(a + Cat(parts[1..]).value)
  {
  }

  lemma {:induction false} LanesWritten(payload: seq<byte>)
    ensures var l := Checksum.Lanes(payload);
            Cat([Num(l[0], 8), Num(l[1], 8), Num(l[2], 8), Num(l[3], 8)]) == Ok(Checksum.Digest(payload))
  {
    var l := Checksum.Lanes(payload);
    WordBytes(l[0], 8);
    WordBytes(l[1], 8);
    WordBytes(l[2], 8);
    WordBytes(l[3], 8);
    var p := [Num(l[0], 8), Num(l[1], 8), Num(l[2], 8), Num(l[3], 8)];
    assert p[1..] == [p[1], p[2], p[3]];
    CatThree(p[1], p[2], p[3]);
    Assoc();
  }

  /** The file: "SYSBST01", version 1, the length of the payload, the payload and the four checksum lanes. */
  function FrameParts(payload: seq<byte>): seq<Bits> {
    var l := Checksum.Lanes(payload);
    [Ok([0x53, 0x59, 0x53, 0x42, 0x53, 0x54, 0x30, 0x31]), Num(1, 2), Num(|payload|, 4), Ok(payload),
     Num(l[0], 8), Num(l[1], 8), Num(l[2], 8), Num(l[3], 8)]
  }

  lemma {:induction false} FrameWritten(payload: seq<byte>)
    ensures Ok(Frame(payload)) == Cat(FrameParts(payload))
  {
    var p := FrameParts(payload);
    var q := p[1..];
    var r := q[1..];
    var s := r[1..];
    assert q[0] == Num(1, 2) && r[0] == Num(|payload|, 4) && s[0] == Ok(payload);
    assert s[1..] == [p[4], p[5], p[6], p[7]];
    LanesWritten(payload);
    CatFirst(payload, s);
    WordBytes(|payload|, 4);
    CatFirst(BigEndian(|payload|, 4), r);
    WordBytes(1, 2);
    CatFirst(BigEndian(1, 2), q);
    CatFirst(MAGIC, p);
    Assoc();
  }

  /** A valid record is written as the frame of its payload, unless a part cannot be written or the file would be
      longer than a mebibyte. */
  lemma {:induction false} EncodeWritten(r: Record)
    ensures Encode(r) ==
            if !ValidRecord(r) then Err(JournalCorrupt)
            else
              var payload := Cat(PayloadParts(r));
              if payload.Err? then Err(payload.code)
              else if 8 + 2 + 4 + |payload.value| + 32 > 1_048_576 then Err(DurabilityError)
              else Cat(FrameParts(payload.value))
  {
    PayloadWritten(r);
    if PutPayload(r).Ok? {
      FrameWritten(PutPayload(r).value);
    }
    EncodesAs(PutPayload, r);
  }

  lemma {:induction false} EncodesAs(put: Record -> Bits, r: Record)
    ensures EncodeWith(put, r) ==
            if !ValidRecord(r) then Err(JournalCorrupt)
            else if put(r).Err? then Err(put(r).code)
            else if 8 + 2 + 4 + |put(r).value| + 32 > 1_048_576 then Err(DurabilityError)
            else Ok(Frame(put(r).value))
  {
  }
}
