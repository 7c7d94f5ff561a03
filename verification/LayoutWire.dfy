/**
  The layout tables of the wire format: the tag of every operation kind and typed value, and the
  fields written after it (crates/sysboost-core/src/transaction.rs, 1392-1729).

  `KindFields`/`BuildKind` and `ValueFields`/`BuildValue` are proved mutually inverse against the
  tables, which turns the codec of 38 variants into two lemmas about lists of fields.
 */
module LayoutWire {
  import opened Outcome
  import opened Bytes
  import opened Text
  import opened Mutation
  import opened Wire
  import opened VocabularyWire

  function GetFields(layout: seq<FieldType>, s: seq<byte>): Result<Parsed<seq<Field>>> {
    GetEach(GetField, layout, s)
  }

  lemma {:induction false} FieldsRead(fields: seq<Field>, layout: seq<FieldType>)
    requires Typed(fields, layout) && AllBounded(fields) && PutAll(PutField, fields).Ok?
    ensures forall rest :: GetFields(layout, PutAll(PutField, fields).value + rest) == Ok(Parsed(fields, rest))
  {
    forall i | 0 <= i < |fields|
      ensures ReadsAs(PutField, GetField, layout[i], fields[i])
    {
      EveryFieldLaw(layout[i]);
    }
    EachReads(PutField, GetField, fields, layout);
  }

  lemma {:induction false} FieldsRewrite(layout: seq<FieldType>, s: seq<byte>)
    requires GetFields(layout, s).Ok?
    ensures var p := GetFields(layout, s).value;
            Typed(p.value, layout) && AllBounded(p.value) && Fits(PutAll(PutField, p.value), p.rest, s)
  {
    forall t: FieldType, rest: seq<byte>
      ensures RewritesAt(PutField, GetField, FieldFits, t, rest)
    {
      EveryFieldLaw(t);
    }
    EachRewrites(PutField, GetField, FieldFits, layout, s);
    var fields := GetFields(layout, s).value.value;
    assert forall i :: 0 <= i < |fields| ==> FieldFits(layout[i], fields[i]);
  }

  // ----- operation kinds

  function KindTag(kind: MutationKind): byte {
    match kind
    case CpuFrequency(_, _, _) => 0
    case CpuGovernor(_, _) => 1
    case CpuEnergyPreference(_, _) => 2
    case CgroupCpuWeight(_, _) => 3
    case CgroupCpuMax(_, _, _) => 4
    case CgroupCpuset(_, _) => 5
    case GpuPerformanceProfile(_, _) => 6
    case GpuPowerLimit(_, _) => 7
    case IrqAffinity(_, _) => 8
    case RuntimeSysctl(_, _) => 9
    case CpuBoost(_) => 10
    case PlatformProfile(_) => 11
    case CgroupIoWeight(_, _) => 12
    case CgroupUclampMin(_, _) => 13
    case CgroupUclampMax(_, _) => 14
    case CgroupWorkload(_, _) => 15
    case CgroupBackground(_, _) => 16
    case ProcessPlacement(_, _) => 17
    case ProcessNice(_, _) => 18
    case ProcessIoPriority(_, _) => 19
  }

  function KindLayout(tag: byte): Option<seq<FieldType>> {
    match tag
    case 0 => Some([TWord32, TFrequency, TFrequency])
    case 1 => Some([TWord32, TName])
    case 2 => Some([TWord32, TByte])
    case 3 => Some([TCgroup, TWord16])
    case 4 => Some([TCgroup, TQuota, TWord64])
    case 5 => Some([TCgroup, TCpus])
    case 6 => Some([TWord32, TByte])
    case 7 => Some([TWord32, TWord32])
    case 8 => Some([TWord32, TCpus])
    case 9 => Some([TByte, TSigned64])
    case 10 => Some([TByte])
    case 11 => Some([TName])
    case 12 => Some([TCgroup, TWord16])
    case 13 => Some([TCgroup, TUclamp])
    case 14 => Some([TCgroup, TUclamp])
    case 15 => Some([TCgroup, TName])
    case 16 => Some([TCgroup, TName])
    case 17 => Some([TProcess, TCgroup])
    case 18 => Some([TProcess, TSigned64])
    case 19 => Some([TProcess, TIoPriority])
    case _ => None
  }

  function KindFields(kind: MutationKind): seq<Field> {
    match kind
    case CpuFrequency(policy, lo, hi) => [Word32(policy), Frequency(lo), Frequency(hi)]
    case CpuGovernor(policy, governor) => [Word32(policy), Name(governor)]
    case CpuEnergyPreference(policy, energy) => [Word32(policy), Byte(EnergyTag(energy))]
    case CpuBoost(boost) => [Byte(BoostTag(boost))]
    case PlatformProfile(profile) => [Name(profile)]
    case CgroupCpuWeight(cgroup, weight) => [Cgroup(cgroup), Word16(weight)]
    case CgroupCpuMax(cgroup, quota, period) => [Cgroup(cgroup), QuotaField(quota), Word64(period)]
    case CgroupCpuset(cgroup, cpus) => [Cgroup(cgroup), Cpus(cpus)]
    case CgroupIoWeight(cgroup, weight) => [Cgroup(cgroup), Word16(weight)]
    case CgroupUclampMin(cgroup, clamp) => [Cgroup(cgroup), Clamp(clamp)]
    case CgroupUclampMax(cgroup, clamp) => [Cgroup(cgroup), Clamp(clamp)]
    case CgroupWorkload(parent, name) => [Cgroup(parent), Name(name)]
    case CgroupBackground(parent, name) => [Cgroup(parent), Name(name)]
    case ProcessPlacement(process, cgroup) => [Process(process), Cgroup(cgroup)]
    case ProcessNice(process, nice) => [Process(process), Signed64(nice)]
    case ProcessIoPriority(process, priority) => [Process(process), Priority(priority)]
    case GpuPerformanceProfile(device, gpu) => [Word32(device), Byte(GpuTag(gpu))]
    case GpuPowerLimit(device, milliwatts) => [Word32(device), Word32(milliwatts)]
    case IrqAffinity(irq, cpus) => [Word32(irq), Cpus(cpus)]
    case RuntimeSysctl(key, setting) => [Byte(SysctlTag(key)), Signed64(setting)]
  }

  function BuildKind(tag: byte, f: seq<Field>): Result<MutationKind>
    requires KindLayout(tag).Some? && Typed(f, KindLayout(tag).value)
  {
    match tag
    case 0 => Ok(CpuFrequency(f[0].n32, f[1].khz, f[2].khz))
    case 1 => if IsName(f[1].name, 64) then Ok(CpuGovernor(f[0].n32, f[1].name)) else Err(JournalCorrupt)
    case 2 => var energy :- EnergyOf(f[1].n8); Ok(CpuEnergyPreference(f[0].n32, energy))
    case 3 =>
      if 1 <= f[1].n16 <= 10_000 then Ok(CgroupCpuWeight(f[0].cgroup, f[1].n16)) else Err(JournalCorrupt)
    case 4 =>
      if 1_000 <= f[2].n64 <= 1_000_000 then Ok(CgroupCpuMax(f[0].cgroup, f[1].quota, f[2].n64))
      else Err(JournalCorrupt)
    case 5 => Ok(CgroupCpuset(f[0].cgroup, f[1].cpus))
    case 6 => var gpu :- GpuOf(f[1].n8); Ok(GpuPerformanceProfile(f[0].n32, gpu))
    case 7 => if f[1].n32 > 0 then Ok(GpuPowerLimit(f[0].n32, f[1].n32)) else Err(JournalCorrupt)
    case 8 => Ok(IrqAffinity(f[0].n32, f[1].cpus))
    case 9 => var key :- SysctlOf(f[0].n8); Ok(RuntimeSysctl(key, f[1].i64))
    case 10 => var boost :- BoostOf(f[0].n8); Ok(CpuBoost(boost))
    case 11 => if IsName(f[0].name, 64) then Ok(PlatformProfile(f[0].name)) else Err(JournalCorrupt)
    case 12 =>
      if 1 <= f[1].n16 <= 10_000 then Ok(CgroupIoWeight(f[0].cgroup, f[1].n16)) else Err(JournalCorrupt)
    case 13 => Ok(CgroupUclampMin(f[0].cgroup, f[1].clamp))
    case 14 => Ok(CgroupUclampMax(f[0].cgroup, f[1].clamp))
    case 15 => if IsCgroupName(f[1].name) then Ok(CgroupWorkload(f[0].cgroup, f[1].name)) else Err(JournalCorrupt)
    case 16 => if IsCgroupName(f[1].name) then Ok(CgroupBackground(f[0].cgroup, f[1].name)) else Err(JournalCorrupt)
    case 17 => Ok(ProcessPlacement(f[0].process, f[1].cgroup))
    case 18 => if -20 <= f[1].i64 <= 19 then Ok(ProcessNice(f[0].process, f[1].i64)) else Err(JournalCorrupt)
    case 19 => Ok(ProcessIoPriority(f[0].process, f[1].priority))
    case _ => Err(JournalCorrupt)
  }

  lemma {:induction false} KindFieldsTyped(kind: MutationKind)
    ensures KindLayout(KindTag(kind)).Some?
    ensures Typed(KindFields(kind), KindLayout(KindTag(kind)).value)
  {
  }

  lemma {:induction false} KindFieldsBuild(kind: MutationKind)
    requires KindLayout(KindTag(kind)).Some?
    requires Typed(KindFields(kind), KindLayout(KindTag(kind)).value)
    ensures BuildKind(KindTag(kind), KindFields(kind)) == Ok(kind)
  {
    match kind {
      case CpuFrequency(_, _, _) =>
      case CpuGovernor(_, _) =>
      case CpuEnergyPreference(_, _) =>
      case CpuBoost(_) =>
      case PlatformProfile(_) =>
      case CgroupCpuWeight(_, _) =>
      case CgroupCpuMax(_, _, _) =>
      case CgroupCpuset(_, _) =>
      case CgroupIoWeight(_, _) =>
      case CgroupUclampMin(_, _) =>
      case CgroupUclampMax(_, _) =>
      case CgroupWorkload(_, _) =>
      case CgroupBackground(_, _) =>
      case ProcessPlacement(_, _) =>
      case ProcessNice(_, _) =>
      case ProcessIoPriority(_, _) =>
      case GpuPerformanceProfile(_, _) =>
      case GpuPowerLimit(_, _) =>
      case IrqAffinity(_, _) =>
      case RuntimeSysctl(key, _) => assert key == SchedulerUtilClamping;
    }
  }

  lemma {:induction false} KindFieldsBounded(kind: MutationKind)
    requires KindBounded(kind)
    ensures AllBounded(KindFields(kind))
  {
  }

  lemma {:induction false} BuildKindFields(tag: byte, fields: seq<Field>)
    requires KindLayout(tag).Some? && Typed(fields, KindLayout(tag).value) && AllBounded(fields)
    requires BuildKind(tag, fields).Ok?
    ensures var kind := BuildKind(tag, fields).value;
            KindTag(kind) == tag && KindFields(kind) == fields && KindBounded(kind)
  {
    assert |fields| > 1 ==> fields[1].Bounded();
  }

  function PutKind(kind: MutationKind): Bits {
    var body :- PutAll(PutField, KindFields(kind));
    Ok(PutU8(KindTag(kind)) + body)
  }

  function GetKind(s: seq<byte>): (r: Result<Parsed<MutationKind>>)
  {
    var tag :- GetU8(s);
    var layout := KindLayout(tag.value);
    if layout.None? then Err(JournalCorrupt)
    else
      var fields :- GetFields(layout.value, tag.rest);
      FieldsRewrite(layout.value, tag.rest);
      var kind :- BuildKind(tag.value, fields.value);
      Ok(Parsed(kind, fields.rest))
  }

  lemma {:induction false} KindReads(kind: MutationKind)
    requires KindBounded(kind) && PutKind(kind).Ok?
    ensures forall rest :: GetKind(PutKind(kind).value + rest) == Ok(Parsed(kind, rest))
  {
    var tag, fields := KindTag(kind), KindFields(kind);
    KindFieldsTyped(kind);
    KindFieldsBuild(kind);
    KindFieldsBounded(kind);
    FieldsRead(fields, KindLayout(tag).value);
    forall rest: seq<byte>
      ensures GetKind(PutKind(kind).value + rest) == Ok(Parsed(kind, rest))
    {
      var body := PutAll(PutField, fields).value;
      TaggedReads(tag, body, rest);
      assert GetFields(KindLayout(tag).value, body + rest) == Ok(Parsed(fields, rest));
    }
  }

  lemma {:induction false} TaggedReads(tag: byte, body: seq<byte>, rest: seq<byte>)
    ensures GetU8((PutU8(tag) + body) + rest) == Ok(Parsed(tag, body + rest))
  {
    U8Reads(tag);
    assert (PutU8(tag) + body) + rest == PutU8(tag) + (body + rest);
  }

  lemma {:induction false} KindRewrites(s: seq<byte>)
    requires GetKind(s).Ok?
    ensures var p := GetKind(s).value;
            KindBounded(p.value) && Fits(PutKind(p.value), p.rest, s)
  {
    var tag := GetU8(s).value;
    var layout := KindLayout(tag.value).value;
    FieldsRewrite(layout, tag.rest);
    BuildKindFields(tag.value, GetFields(layout, tag.rest).value.value);
  }

  lemma {:induction false} KindCodec()
    ensures Codec(PutKind, GetKind, KindBounded)
  {
    forall kind: MutationKind | KindBounded(kind)
      ensures Reads(PutKind, GetKind, kind)
    {
      if PutKind(kind).Ok? {
        KindReads(kind);
      }
    }
    forall s: seq<byte> | GetKind(s).Ok?
      ensures KindBounded(GetKind(s).value.value)
      ensures Fits(PutKind(GetKind(s).value.value), GetKind(s).value.rest, s)
    {
      KindRewrites(s);
    }
  }

  // ----- typed values

  function ValueTag(value: TypedValue): byte {
    match value
    case FrequencyValue(_, _) => 0
    case GovernorValue(_) => 1
    case EnergyValue(_) => 2
    case CpuWeightValue(_) => 3
    case CpuMaxValue(_, _) => 4
    case CpusetValue(_) => 5
    case GpuProfileValue(_) => 6
    case GpuPowerValue(_) => 7
    case IrqValue(_) => 8
    case SysctlValue(_, _) => 9
    case BoostValue(_) => 10
    case ProfileValue(_) => 11
    case IoWeightValue(_) => 12
    case UclampSetting(_) => 13
    case LifecycleValue(_, _, _) => 14
    case PlacementValue(_) => 15
    case NiceSetting(_) => 16
    case IoPriorityValue(_) => 17
  }

  function ValueLayout(tag: byte): Option<seq<FieldType>> {
    match tag
    case 0 => Some([TFrequency, TFrequency])
    case 1 => Some([TName])
    case 2 => Some([TByte])
    case 3 => Some([TWord16])
    case 4 => Some([TQuota, TWord64])
    case 5 => Some([TCpus])
    case 6 => Some([TByte])
    case 7 => Some([TWord32])
    case 8 => Some([TCpus])
    case 9 => Some([TByte, TSigned64])
    case 10 => Some([TByte])
    case 11 => Some([TName])
    case 12 => Some([TWord16])
    case 13 => Some([TUclamp])
    case 14 => Some([TByte, TName, TFlag])
    case 15 => Some([TCgroup])
    case 16 => Some([TSigned64])
    case 17 => Some([TIoPriority])
    case _ => None
  }

  function ValueFields(value: TypedValue): seq<Field> {
    match value
    case FrequencyValue(lo, hi) => [Frequency(lo), Frequency(hi)]
    case GovernorValue(governor) => [Name(governor)]
    case EnergyValue(energy) => [Byte(EnergyTag(energy))]
    case BoostValue(boost) => [Byte(BoostTag(boost))]
    case ProfileValue(profile) => [Name(profile)]
    case CpuWeightValue(weight) => [Word16(weight)]
    case CpuMaxValue(quota, period) => [QuotaField(quota), Word64(period)]
    case CpusetValue(cpus) => [Cpus(cpus)]
    case IoWeightValue(weight) => [Word16(weight)]
    case UclampSetting(clamp) => [Clamp(clamp)]
    case LifecycleValue(kind, name, present) => [Byte(GroupTag(kind)), Name(name), Flag(present)]
    case PlacementValue(cgroup) => [Cgroup(cgroup)]
    case NiceSetting(nice) => [Signed64(nice)]
    case IoPriorityValue(priority) => [Priority(priority)]
    case GpuProfileValue(gpu) => [Byte(GpuTag(gpu))]
    case GpuPowerValue(milliwatts) => [Word32(milliwatts)]
    case IrqValue(cpus) => [Cpus(cpus)]
    case SysctlValue(key, setting) => [Byte(SysctlTag(key)), Signed64(setting)]
  }

  function BuildValue(tag: byte, f: seq<Field>): Result<TypedValue>
    requires ValueLayout(tag).Some? && Typed(f, ValueLayout(tag).value)
  {
    match tag
    case 0 => Ok(FrequencyValue(f[0].khz, f[1].khz))
    case 1 => if IsName(f[0].name, 64) then Ok(GovernorValue(f[0].name)) else Err(JournalCorrupt)
    case 2 => var energy :- EnergyOf(f[0].n8); Ok(EnergyValue(energy))
    case 3 => if 1 <= f[0].n16 <= 10_000 then Ok(CpuWeightValue(f[0].n16)) else Err(JournalCorrupt)
    case 4 =>
      if 1_000 <= f[1].n64 <= 1_000_000 then Ok(CpuMaxValue(f[0].quota, f[1].n64)) else Err(JournalCorrupt)
    case 5 => Ok(CpusetValue(f[0].cpus))
    case 6 => var gpu :- GpuOf(f[0].n8); Ok(GpuProfileValue(gpu))
    case 7 => if f[0].n32 > 0 then Ok(GpuPowerValue(f[0].n32)) else Err(JournalCorrupt)
    case 8 => Ok(IrqValue(f[0].cpus))
    case 9 => var key :- SysctlOf(f[0].n8); Ok(SysctlValue(key, f[1].i64))
    case 10 => var boost :- BoostOf(f[0].n8); Ok(BoostValue(boost))
    case 11 => if IsName(f[0].name, 64) then Ok(ProfileValue(f[0].name)) else Err(JournalCorrupt)
    case 12 => if 1 <= f[0].n16 <= 10_000 then Ok(IoWeightValue(f[0].n16)) else Err(JournalCorrupt)
    case 13 => Ok(UclampSetting(f[0].clamp))
    case 14 =>
      var kind :- GroupOf(f[0].n8);
      if IsCgroupName(f[1].name) then Ok(LifecycleValue(kind, f[1].name, f[2].flag)) else Err(JournalCorrupt)
    case 15 => Ok(PlacementValue(f[0].cgroup))
    case 16 => if -20 <= f[0].i64 <= 19 then Ok(NiceSetting(f[0].i64)) else Err(JournalCorrupt)
    case 17 => Ok(IoPriorityValue(f[0].priority))
    case _ => Err(JournalCorrupt)
  }

  lemma {:induction false} ValueFieldsTyped(value: TypedValue)
    ensures ValueLayout(ValueTag(value)).Some?
    ensures Typed(ValueFields(value), ValueLayout(ValueTag(value)).value)
    ensures ValueBounded(value) ==> AllBounded(ValueFields(value))
  {
  }

  lemma {:induction false} ValueFieldsBuild(value: TypedValue)
    requires ValueLayout(ValueTag(value)).Some?
    requires Typed(ValueFields(value), ValueLayout(ValueTag(value)).value)
    ensures BuildValue(ValueTag(value), ValueFields(value)) == Ok(value)
  {
    match value {
      case SysctlValue(key, _) => assert key == SchedulerUtilClamping;
      case _ =>
    }
  }

  lemma {:induction false} BuildValueFields(tag: byte, fields: seq<Field>)
    requires ValueLayout(tag).Some? && Typed(fields, ValueLayout(tag).value) && AllBounded(fields)
    requires BuildValue(tag, fields).Ok?
    ensures var value := BuildValue(tag, fields).value;
            ValueTag(value) == tag && ValueFields(value) == fields && ValueBounded(value)
  {
    assert fields[0].Bounded();
  }

  function PutValue(value: TypedValue): Bits {
    var body :- PutAll(PutField, ValueFields(value));
    Ok(PutU8(ValueTag(value)) + body)
  }

  function GetValue(s: seq<byte>): (r: Result<Parsed<TypedValue>>)
  {
    var tag :- GetU8(s);
    var layout := ValueLayout(tag.value);
    if layout.None? then Err(JournalCorrupt)
    else
      var fields :- GetFields(layout.value, tag.rest);
      FieldsRewrite(layout.value, tag.rest);
      var value :- BuildValue(tag.value, fields.value);
      Ok(Parsed(value, fields.rest))
  }

  lemma {:induction false} ValueReads(value: TypedValue)
    requires ValueBounded(value) && PutValue(value).Ok?
    ensures forall rest :: GetValue(PutValue(value).value + rest) == Ok(Parsed(value, rest))
  {
    var tag, fields := ValueTag(value), ValueFields(value);
    ValueFieldsTyped(value);
    ValueFieldsBuild(value);
    FieldsRead(fields, ValueLayout(tag).value);
    forall rest: seq<byte>
      ensures GetValue(PutValue(value).value + rest) == Ok(Parsed(value, rest))
    {
      var body := PutAll(PutField, fields).value;
      TaggedReads(tag, body, rest);
      assert GetFields(ValueLayout(tag).value, body + rest) == Ok(Parsed(fields, rest));
    }
  }

  lemma {:induction false} ValueRewrites(s: seq<byte>)
    requires GetValue(s).Ok?
    ensures var p := GetValue(s).value;
            ValueBounded(p.value) && Fits(PutValue(p.value), p.rest, s)
  {
    var tag := GetU8(s).value;
    var layout := ValueLayout(tag.value).value;
    FieldsRewrite(layout, tag.rest);
    BuildValueFields(tag.value, GetFields(layout, tag.rest).value.value);
  }

  lemma {:induction false} ValueCodec()
    ensures Codec(PutValue, GetValue, ValueBounded)
  {
    forall value: TypedValue | ValueBounded(value)
      ensures Reads(PutValue, GetValue, value)
    {
      if PutValue(value).Ok? {
        ValueReads(value);
      }
    }
    forall s: seq<byte> | GetValue(s).Ok?
      ensures ValueBounded(GetValue(s).value.value)
      ensures Fits(PutValue(GetValue(s).value.value), GetValue(s).value.rest, s)
    {
      ValueRewrites(s);
    }
  }
}
