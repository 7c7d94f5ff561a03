/**
  The codec of the mutation vocabulary: 20 operation kinds and 18 typed values
  (crates/sysboost-core/src/transaction.rs, 1392-1957).
 */
module VocabularyWire {
  import opened Outcome
  import opened Bytes
  import opened Text
  import opened Mutation
  import opened Wire

  // ----- tags of the closed enumerations

  function EnergyTag(e: Energy): byte {
    match e case Performance => 0 case BalancePerformance => 1 case BalancePower => 2 case Power => 3
  }

  function EnergyOf(tag: byte): Result<Energy> {
    match tag
    case 0 => Ok(Performance) case 1 => Ok(BalancePerformance)
    case 2 => Ok(BalancePower) case 3 => Ok(Power) case _ => Err(JournalCorrupt)
  }

  function BoostTag(b: BoostState): byte {
    match b case BoostEnabled => 0 case BoostDisabled => 1
  }

  function BoostOf(tag: byte): Result<BoostState> {
    match tag case 0 => Ok(BoostEnabled) case 1 => Ok(BoostDisabled) case _ => Err(JournalCorrupt)
  }

  function GpuTag(p: GpuProfile): byte {
    match p case GpuPerformance => 0 case GpuBalanced => 1 case GpuPowerSave => 2
  }

  function GpuOf(tag: byte): Result<GpuProfile> {
    match tag
    case 0 => Ok(GpuPerformance) case 1 => Ok(GpuBalanced) case 2 => Ok(GpuPowerSave)
    case _ => Err(JournalCorrupt)
  }

  function SysctlTag(k: SysctlKey): byte { 0 }

  function SysctlOf(tag: byte): Result<SysctlKey> {
    match tag case 0 => Ok(SchedulerUtilClamping) case _ => Err(JournalCorrupt)
  }

  function GroupTag(k: GroupKind): byte {
    match k case Workload => 0 case ConservativeBackground => 1
  }

  function GroupOf(tag: byte): Result<GroupKind> {
    match tag case 0 => Ok(Workload) case 1 => Ok(ConservativeBackground) case _ => Err(JournalCorrupt)
  }

  function IoClassTag(c: IoClass): byte {
    match c case IoNone => 0 case IoBestEffort => 1 case IoIdle => 2
  }

  function IoClassOf(tag: byte): Result<IoClass> {
    match tag
    case 0 => Ok(IoNone) case 1 => Ok(IoBestEffort) case 2 => Ok(IoIdle) case _ => Err(JournalCorrupt)
  }

  // ----- validated scalars and identities

  function PutFrequency(f: Option<FrequencyKHz>): (r: seq<byte>) {
    match f
    case None => PutBool(false)
    case Some(khz) => PutBool(true) + PutU64(khz)
  }

  function GetFrequency(s: seq<byte>): (r: Result<Parsed<Option<FrequencyKHz>>>)
    ensures r.Ok? ==> Fits(Ok(PutFrequency(r.value.value)), r.value.rest, s)
  {
    var present :- GetBool(s);
    if !present.value then Ok(Parsed(None, present.rest))
    else
      var khz :- GetU64(present.rest);
      if khz.value == 0 then Err(JournalCorrupt) else Ok(Parsed(Some(khz.value), khz.rest))
  }

  lemma {:induction false} FrequencyReads(f: Option<FrequencyKHz>)
    ensures forall rest :: GetFrequency(PutFrequency(f) + rest) == Ok(Parsed(f, rest))
  {
    Assoc();
    BoolReads(f.Some?);
    if f.Some? {
      U64Reads(f.value);
    }
  }

  function PutName(n: seq<byte>): Bits { PutString(n, MAX_STRING_BYTES) }

  function GetIdentifier(s: seq<byte>): (r: Result<Parsed<Identifier>>)
    ensures r.Ok? ==> Fits(PutName(r.value.value), r.value.rest, s)
  {
    var p :- GetString(s, MAX_STRING_BYTES);
    if IsName(p.value, 128) then Ok(Parsed(p.value, p.rest)) else Err(JournalCorrupt)
  }

  /** A validated name is always encodable and reads back as itself. */
  lemma {:induction false} NameReads(n: seq<byte>)
    requires IsName(n, 128)
    ensures PutName(n).Ok?
    ensures forall rest :: GetIdentifier(PutName(n).value + rest) == Ok(Parsed(n, rest))
  {
    NamesAreText(n);
    StringReads(n, MAX_STRING_BYTES);
  }

  function PutCgroup(c: CgroupId): Bits {
    var handle :- PutName(c.handle);
    Ok(PutU64(c.mountId) + PutU64(c.inode) + handle)
  }

  function GetCgroup(s: seq<byte>): (r: Result<Parsed<CgroupId>>)
    ensures r.Ok? ==> Fits(PutCgroup(r.value.value), r.value.rest, s)
  {
    var mount :- GetU64(s);
    var inode :- GetU64(mount.rest);
    var handle :- GetIdentifier(inode.rest);
    Ok(Parsed(CgroupId(mount.value, inode.value, handle.value), handle.rest))
  }

  lemma {:induction false} CgroupReads(c: CgroupId)
    ensures PutCgroup(c).Ok?
    ensures forall rest :: GetCgroup(PutCgroup(c).value + rest) == Ok(Parsed(c, rest))
  {
    Assoc();
    U64Reads(c.mountId);
    U64Reads(c.inode);
    NameReads(c.handle);
  }

  function PutProcess(p: ProcessId): seq<byte> {
    PutU32(p.pid) + PutU64(p.startTicks)
  }

  function GetProcess(s: seq<byte>): (r: Result<Parsed<ProcessId>>)
    ensures r.Ok? ==> Fits(Ok(PutProcess(r.value.value)), r.value.rest, s)
  {
    var pid :- GetU32(s);
    var start :- GetU64(pid.rest);
    if pid.value == 0 || start.value == 0 then Err(JournalCorrupt)
    else Ok(Parsed(ProcessId(pid.value, start.value), start.rest))
  }

  lemma {:induction false} ProcessReads(p: ProcessId)
    ensures forall rest :: GetProcess(PutProcess(p) + rest) == Ok(Parsed(p, rest))
  {
    Assoc();
    U32Reads(p.pid);
    U64Reads(p.startTicks);
  }

  function PutUclamp(c: Uclamp): seq<byte> {
    match c
    case UclampValue(value) => PutU8(0) + PutU16(value)
    case UclampMax => PutU8(1)
  }

  function GetUclamp(s: seq<byte>): (r: Result<Parsed<Uclamp>>)
    ensures r.Ok? ==> UclampBounded(r.value.value) && Fits(Ok(PutUclamp(r.value.value)), r.value.rest, s)
  {
    var tag :- GetU8(s);
    match tag.value
    case 0 =>
      var value :- GetU16(tag.rest);
      if value.value > 1024 then Err(JournalCorrupt) else Ok(Parsed(UclampValue(value.value), value.rest))
    case 1 => Ok(Parsed(UclampMax, tag.rest))
    case _ => Err(JournalCorrupt)
  }

  lemma {:induction false} UclampReads(c: Uclamp)
    requires UclampBounded(c)
    ensures forall rest :: GetUclamp(PutUclamp(c) + rest) == Ok(Parsed(c, rest))
  {
    Assoc();
    U8Reads(0);
    U8Reads(1);
    if c.UclampValue? {
      U16Reads(c.value);
    }
  }

  function PutQuota(q: Quota): seq<byte> {
    match q
    case QuotaMax => PutU8(0)
    case QuotaMicros(micros) => PutU8(1) + PutU64(micros)
  }

  function GetQuota(s: seq<byte>): (r: Result<Parsed<Quota>>)
    ensures r.Ok? ==> QuotaPositive(r.value.value) && Fits(Ok(PutQuota(r.value.value)), r.value.rest, s)
  {
    var tag :- GetU8(s);
    match tag.value
    case 0 => Ok(Parsed(QuotaMax, tag.rest))
    case 1 =>
      var micros :- GetU64(tag.rest);
      if micros.value == 0 then Err(JournalCorrupt) else Ok(Parsed(QuotaMicros(micros.value), micros.rest))
    case _ => Err(JournalCorrupt)
  }

  lemma {:induction false} QuotaReads(q: Quota)
    requires QuotaPositive(q)
    ensures forall rest :: GetQuota(PutQuota(q) + rest) == Ok(Parsed(q, rest))
  {
    Assoc();
    U8Reads(0);
    U8Reads(1);
    if q.QuotaMicros? {
      U64Reads(q.micros);
    }
  }

  function PutIoPriority(p: IoPriority): seq<byte> {
    PutU8(IoClassTag(p.ioClass)) + PutU8(p.level)
  }

  function GetIoPriority(s: seq<byte>): (r: Result<Parsed<IoPriority>>)
    ensures r.Ok? ==> Fits(Ok(PutIoPriority(r.value.value)), r.value.rest, s)
  {
    var tag :- GetU8(s);
    var ioClass :- IoClassOf(tag.value);
    var level :- GetU8(tag.rest);
    if level.value > 7 then Err(JournalCorrupt)
    else Ok(Parsed(IoPriority(ioClass, level.value), level.rest))
  }

  lemma {:induction false} IoPriorityReads(p: IoPriority)
    ensures forall rest :: GetIoPriority(PutIoPriority(p) + rest) == Ok(Parsed(p, rest))
  {
    Assoc();
    U8Reads(IoClassTag(p.ioClass));
    U8Reads(p.level);
  }

  // ----- CPU sets: decoding sorts and removes duplicates

  function PutWord32(n: u32): Bits { Ok(PutU32(n)) }

  function PutCpuSet(cpus: CpuSet): Bits { PutList(PutWord32, cpus, MAX_DEPENDENCIES) }

  lemma {:induction false} Word32Codec()
    ensures Codec(PutWord32, GetU32, Any)
  {
    forall n: u32
      ensures Reads(PutWord32, GetU32, n)
    {
      U32Reads(n);
    }
  }

  lemma {:induction false} Words32Length(ns: seq<u32>)
    ensures PutAll(PutWord32, ns).Ok? && |PutAll(PutWord32, ns).value| == 4 * |ns|
  {
    if ns != [] {
      Words32Length(ns[1..]);
    }
  }

  lemma {:induction false} GetWordsLength(count: nat, s: seq<byte>)
    requires GetAll(GetU32, count, s).Ok?
    ensures |GetAll(GetU32, count, s).value.rest| + 4 * count == |s|
  {
    if count > 0 {
      GetWordsLength(count - 1, GetU32(s).value.rest);
    }
  }

  function GetCpuSet(s: seq<byte>): (r: Result<Parsed<CpuSet>>)
    ensures r.Ok? ==> Fits(PutCpuSet(r.value.value), r.value.rest, s)
  {
    var p :- GetList(GetU32, MAX_DEPENDENCIES, s);
    var cpus := NewCpuSet(p.value);
    if cpus.Err? then Err(JournalCorrupt)
    else
      Words32Length(cpus.value);
      GetWordsLength(|p.value|, GetU32(s).value.rest);
      Ok(Parsed(cpus.value, p.rest))
  }

  lemma {:induction false} CpuSetReads(cpus: CpuSet)
    requires PutCpuSet(cpus).Ok?
    ensures forall rest :: GetCpuSet(PutCpuSet(cpus).value + rest) == Ok(Parsed(cpus, rest))
  {
    Word32Codec();
    ListReads(PutWord32, GetU32, cpus, MAX_DEPENDENCIES);
    SortedIsFixed(cpus);
  }

  // ----- fields and layouts

  /** The kinds of field an operation or a typed value is written as. */
  datatype FieldType =
    | TByte | TFlag | TWord16 | TWord32 | TWord64 | TSigned64 | TName
    | TFrequency | TCgroup | TProcess | TUclamp | TQuota | TIoPriority | TCpus

  datatype Field =
    | Byte(n8: byte) | Flag(flag: bool) | Word16(n16: u16) | Word32(n32: u32) | Word64(n64: u64)
    | Signed64(i64: i64) | Name(name: Identifier) | Frequency(khz: Option<FrequencyKHz>)
    | Cgroup(cgroup: CgroupId) | Process(process: ProcessId) | Clamp(clamp: Uclamp)
    | QuotaField(quota: Quota) | Priority(priority: IoPriority) | Cpus(cpus: CpuSet)
  {
    function Type(): FieldType {
      match this
      case Byte(_) => TByte case Flag(_) => TFlag case Word16(_) => TWord16 case Word32(_) => TWord32
      case Word64(_) => TWord64 case Signed64(_) => TSigned64 case Name(_) => TName
      case Frequency(_) => TFrequency case Cgroup(_) => TCgroup case Process(_) => TProcess
      case Clamp(_) => TUclamp case QuotaField(_) => TQuota case Priority(_) => TIoPriority
      case Cpus(_) => TCpus
    }

    predicate Bounded() {
      && (Clamp? ==> UclampBounded(clamp))
      && (QuotaField? ==> QuotaPositive(quota))
    }
  }

  predicate Typed(fields: seq<Field>, layout: seq<FieldType>) {
    |fields| == |layout| && forall i :: 0 <= i < |fields| ==> fields[i].Type() == layout[i]
  }

  predicate AllBounded(fields: seq<Field>) {
    forall i :: 0 <= i < |fields| ==> fields[i].Bounded()
  }

  function PutByteBits(x: byte): Bits { Ok(PutU8(x)) }
  function PutFlagBits(x: bool): Bits { Ok(PutBool(x)) }
  function PutWord16(x: u16): Bits { Ok(PutU16(x)) }
  function PutWord64(x: u64): Bits { Ok(PutU64(x)) }
  function PutSigned64(x: i64): Bits { Ok(PutI64(x)) }
  function PutIdentifier(x: Identifier): Bits { PutName(x) }
  function PutFrequencyBits(x: Option<FrequencyKHz>): Bits { Ok(PutFrequency(x)) }
  function PutProcessBits(x: ProcessId): Bits { Ok(PutProcess(x)) }
  function PutUclampBits(x: Uclamp): Bits { Ok(PutUclamp(x)) }
  function PutQuotaBits(x: Quota): Bits { Ok(PutQuota(x)) }
  function PutPriorityBits(x: IoPriority): Bits { Ok(PutIoPriority(x)) }

  function PutField(f: Field): Bits {
    match f
    case Byte(x) => PutByteBits(x)
    case Flag(x) => PutFlagBits(x)
    case Word16(x) => PutWord16(x)
    case Word32(x) => PutWord32(x)
    case Word64(x) => PutWord64(x)
    case Signed64(x) => PutSigned64(x)
    case Name(x) => PutIdentifier(x)
    case Frequency(x) => PutFrequencyBits(x)
    case Cgroup(x) => PutCgroup(x)
    case Process(x) => PutProcessBits(x)
    case Clamp(x) => PutUclampBits(x)
    case QuotaField(x) => PutQuotaBits(x)
    case Priority(x) => PutPriorityBits(x)
    case Cpus(x) => PutCpuSet(x)
  }

  function GetField(t: FieldType, s: seq<byte>): (r: Result<Parsed<Field>>)
  {
    match t
    case TByte => var p :- GetU8(s); Ok(Parsed(Byte(p.value), p.rest))
    case TFlag => var p :- GetBool(s); Ok(Parsed(Flag(p.value), p.rest))
    case TWord16 => var p :- GetU16(s); Ok(Parsed(Word16(p.value), p.rest))
    case TWord32 => var p :- GetU32(s); Ok(Parsed(Word32(p.value), p.rest))
    case TWord64 => var p :- GetU64(s); Ok(Parsed(Word64(p.value), p.rest))
    case TSigned64 => var p :- GetI64(s); Ok(Parsed(Signed64(p.value), p.rest))
    case TName => var p :- GetIdentifier(s); Ok(Parsed(Name(p.value), p.rest))
    case TFrequency => var p :- GetFrequency(s); Ok(Parsed(Frequency(p.value), p.rest))
    case TCgroup => var p :- GetCgroup(s); Ok(Parsed(Cgroup(p.value), p.rest))
    case TProcess => var p :- GetProcess(s); Ok(Parsed(Process(p.value), p.rest))
    case TUclamp => var p :- GetUclamp(s); Ok(Parsed(Clamp(p.value), p.rest))
    case TQuota => var p :- GetQuota(s); Ok(Parsed(QuotaField(p.value), p.rest))
    case TIoPriority => var p :- GetIoPriority(s); Ok(Parsed(Priority(p.value), p.rest))
    case TCpus => var p :- GetCpuSet(s); Ok(Parsed(Cpus(p.value), p.rest))
  }

  predicate FieldFits(t: FieldType, f: Field) { f.Type() == t && f.Bounded() }

  /**
    A bounded field of type `t` reads back as itself in front of any continuation, and whatever is
    read as a field of type `t` is such a field and can be written in no more room.
   */
  ghost predicate FieldLaw(t: FieldType) {
    && (forall f: Field :: FieldFits(t, f) ==> ReadsAs(PutField, GetField, t, f))
    && (forall s: seq<byte> :: RewritesAt(PutField, GetField, FieldFits, t, s))
  }

  lemma {:induction false} U8FieldLaw()
    ensures FieldLaw(TByte)
  {
    forall x: byte
      ensures Reads(PutByteBits, GetU8, x)
    {
      U8Reads(x);
    }
    var wrap := (x: byte) => Byte(x);
    WrapCodec(PutByteBits, GetU8, Any, PutField, GetField, FieldFits, TByte, wrap);
    assert forall f: Field :: FieldFits(TByte, f) ==> f == wrap(f.n8);
  }

  lemma {:induction false} FlagFieldLaw()
    ensures FieldLaw(TFlag)
  {
    forall x: bool
      ensures Reads(PutFlagBits, GetBool, x)
    {
      BoolReads(x);
    }
    var wrap := (x: bool) => Flag(x);
    WrapCodec(PutFlagBits, GetBool, Any, PutField, GetField, FieldFits, TFlag, wrap);
    assert forall f: Field :: FieldFits(TFlag, f) ==> f == wrap(f.flag);
  }

  lemma {:induction false} Word16FieldLaw()
    ensures FieldLaw(TWord16)
  {
    forall x: u16
      ensures Reads(PutWord16, GetU16, x)
    {
      U16Reads(x);
    }
    var wrap := (x: u16) => Word16(x);
    WrapCodec(PutWord16, GetU16, Any, PutField, GetField, FieldFits, TWord16, wrap);
    assert forall f: Field :: FieldFits(TWord16, f) ==> f == wrap(f.n16);
  }

  lemma {:induction false} Word32FieldLaw()
    ensures FieldLaw(TWord32)
  {
    Word32Codec();
    var wrap := (x: u32) => Word32(x);
    WrapCodec(PutWord32, GetU32, Any, PutField, GetField, FieldFits, TWord32, wrap);
    assert forall f: Field :: FieldFits(TWord32, f) ==> f == wrap(f.n32);
  }

  lemma {:induction false} Word64FieldLaw()
    ensures FieldLaw(TWord64)
  {
    forall x: u64
      ensures Reads(PutWord64, GetU64, x)
    {
      U64Reads(x);
    }
    var wrap := (x: u64) => Word64(x);
    WrapCodec(PutWord64, GetU64, Any, PutField, GetField, FieldFits, TWord64, wrap);
    assert forall f: Field :: FieldFits(TWord64, f) ==> f == wrap(f.n64);
  }

  lemma {:induction false} Signed64FieldLaw()
    ensures FieldLaw(TSigned64)
  {
    forall x: i64
      ensures Reads(PutSigned64, GetI64, x)
    {
      I64Reads(x);
    }
    var wrap := (x: i64) => Signed64(x);
    WrapCodec(PutSigned64, GetI64, Any, PutField, GetField, FieldFits, TSigned64, wrap);
    assert forall f: Field :: FieldFits(TSigned64, f) ==> f == wrap(f.i64);
  }

  lemma {:induction false} NameFieldLaw()
    ensures FieldLaw(TName)
  {
    forall x: Identifier
      ensures Reads(PutIdentifier, GetIdentifier, x)
    {
      NameReads(x);
    }
    var wrap := (x: Identifier) => Name(x);
    WrapCodec(PutIdentifier, GetIdentifier, Any, PutField, GetField, FieldFits, TName, wrap);
    assert forall f: Field :: FieldFits(TName, f) ==> f == wrap(f.name);
  }

  lemma {:induction false} FrequencyFieldLaw()
    ensures FieldLaw(TFrequency)
  {
    forall x: Option<FrequencyKHz>
      ensures Reads(PutFrequencyBits, GetFrequency, x)
    {
      FrequencyReads(x);
    }
    var wrap := (x: Option<FrequencyKHz>) => Frequency(x);
    WrapCodec(PutFrequencyBits, GetFrequency, Any, PutField, GetField, FieldFits, TFrequency, wrap);
    assert forall f: Field :: FieldFits(TFrequency, f) ==> f == wrap(f.khz);
  }

  lemma {:induction false} CgroupFieldLaw()
    ensures FieldLaw(TCgroup)
  {
    forall x: CgroupId
      ensures Reads(PutCgroup, GetCgroup, x)
    {
      CgroupReads(x);
    }
    var wrap := (x: CgroupId) => Cgroup(x);
    WrapCodec(PutCgroup, GetCgroup, Any, PutField, GetField, FieldFits, TCgroup, wrap);
    assert forall f: Field :: FieldFits(TCgroup, f) ==> f == wrap(f.cgroup);
  }

  lemma {:induction false} ProcessFieldLaw()
    ensures FieldLaw(TProcess)
  {
    forall x: ProcessId
      ensures Reads(PutProcessBits, GetProcess, x)
    {
      ProcessReads(x);
    }
    var wrap := (x: ProcessId) => Process(x);
    WrapCodec(PutProcessBits, GetProcess, Any, PutField, GetField, FieldFits, TProcess, wrap);
    assert forall f: Field :: FieldFits(TProcess, f) ==> f == wrap(f.process);
  }

  lemma {:induction false} ClampFieldLaw()
    ensures FieldLaw(TUclamp)
  {
    forall x: Uclamp | UclampBounded(x)
      ensures Reads(PutUclampBits, GetUclamp, x)
    {
      UclampReads(x);
    }
    var wrap := (x: Uclamp) => Clamp(x);
    WrapCodec(PutUclampBits, GetUclamp, UclampBounded, PutField, GetField, FieldFits, TUclamp, wrap);
    assert forall f: Field :: FieldFits(TUclamp, f) ==> f == wrap(f.clamp);
  }

  lemma {:induction false} QuotaFieldLaw()
    ensures FieldLaw(TQuota)
  {
    forall x: Quota | QuotaPositive(x)
      ensures Reads(PutQuotaBits, GetQuota, x)
    {
      QuotaReads(x);
    }
    var wrap := (x: Quota) => QuotaField(x);
    WrapCodec(PutQuotaBits, GetQuota, QuotaPositive, PutField, GetField, FieldFits, TQuota, wrap);
    assert forall f: Field :: FieldFits(TQuota, f) ==> f == wrap(f.quota);
  }

  lemma {:induction false} PriorityFieldLaw()
    ensures FieldLaw(TIoPriority)
  {
    forall x: IoPriority
      ensures Reads(PutPriorityBits, GetIoPriority, x)
    {
      IoPriorityReads(x);
    }
    var wrap := (x: IoPriority) => Priority(x);
    WrapCodec(PutPriorityBits, GetIoPriority, Any, PutField, GetField, FieldFits, TIoPriority, wrap);
    assert forall f: Field :: FieldFits(TIoPriority, f) ==> f == wrap(f.priority);
  }

  lemma {:induction false} CpusFieldLaw()
    ensures FieldLaw(TCpus)
  {
    forall x: CpuSet | PutCpuSet(x).Ok?
      ensures Reads(PutCpuSet, GetCpuSet, x)
    {
      CpuSetReads(x);
    }
    var wrap := (x: CpuSet) => Cpus(x);
    WrapCodec(PutCpuSet, GetCpuSet, Any, PutField, GetField, FieldFits, TCpus, wrap);
    assert forall f: Field :: FieldFits(TCpus, f) ==> f == wrap(f.cpus);
  }

  lemma {:induction false} EveryFieldLaw(t: FieldType)
    ensures FieldLaw(t)
  {
    match t {
      case TByte => U8FieldLaw();
      case TFlag => FlagFieldLaw();
      case TWord16 => Word16FieldLaw();
      case TWord32 => Word32FieldLaw();
      case TWord64 => Word64FieldLaw();
      case TSigned64 => Signed64FieldLaw();
      case TName => NameFieldLaw();
      case TFrequency => FrequencyFieldLaw();
      case TCgroup => CgroupFieldLaw();
      case TProcess => ProcessFieldLaw();
      case TUclamp => ClampFieldLaw();
      case TQuota => QuotaFieldLaw();
      case TIoPriority => PriorityFieldLaw();
      case TCpus => CpusFieldLaw();
    }
  }
}
