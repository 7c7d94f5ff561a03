/**
  Which input bytes are the ones the encoder would write (crates/sysboost-core/src/transaction.rs, 829-938 and
  1868-1875).  The decoder is lenient at two places only: any byte but 0 is a set flag, and a CPU list may be unsorted
  or repeat itself.  `PlainX(s)` says of the input of the reader of an `X` that it makes no use of this: every flag it
  meets is 0 or 1 and every CPU list it meets is strictly increasing.
 */
module PlainWire {
  import opened Outcome
  import opened Bytes
  import opened Text
  import opened Mutation
  import opened Session
  import opened Wire
  import opened TupleWire
  import opened VocabularyWire
  import opened LayoutWire
  import opened RecordWire

  predicate IsRest(rest: seq<byte>, s: seq<byte>) {
    |rest| <= |s| && s[|s| - |rest|..] == rest
  }

  /** The value read from `s` would be written with the bytes it was read from exactly when `plain` holds. */
  ghost predicate ExactOn<T(!new)>(put: T -> Bits, p: Parsed<T>, plain: bool, s: seq<byte>) {
    && IsRest(p.rest, s)
    && Fits(put(p.value), p.rest, s)
    && (plain <==> put(p.value).value + p.rest == s)
  }

  ghost predicate Exact<T(!new)>(put: T -> Bits, get: seq<byte> -> Result<Parsed<T>>, plain: seq<byte> -> bool) {
    forall s :: get(s).Ok? ==> ExactOn(put, get(s).value, plain(s), s)
  }

  ghost predicate ExactAt<L, T(!new)>(
    put: T -> Bits, get: (L, seq<byte>) -> Result<Parsed<T>>, plain: (L, seq<byte>) -> bool, layout: L)
  {
    forall s :: get(layout, s).Ok? ==> ExactOn(put, get(layout, s).value, plain(layout, s), s)
  }

  predicate Always(s: seq<byte>) { true }

  /** Two pieces are written as they were read exactly when each of them is. */
  lemma {:induction false} Chain(a: seq<byte>, b: seq<byte>, s: seq<byte>, middle: seq<byte>, rest: seq<byte>)
    requires IsRest(middle, s) && IsRest(rest, middle)
    requires |a| + |middle| <= |s| && |b| + |rest| <= |middle|
    ensures IsRest(rest, s)
    ensures (a + b) + rest == s <==> a + middle == s && b + rest == middle
  {
    assert middle[|middle| - |rest|..] == s[|s| - |rest|..];
    assert (a + b) + rest == a + (b + rest);
    if (a + b) + rest == s {
      assert |a| + |middle| == |s|;
      assert s[|a|..] == b + rest && s[|a|..] == middle;
    }
  }

  /** A case of a larger type is exact when what it wraps is. */
  lemma {:induction false} WrapExact<L, T(!new), C(!new)>(
    put: T -> Bits, get: seq<byte> -> Result<Parsed<T>>, plain: seq<byte> -> bool,
    putC: C -> Bits, getC: (L, seq<byte>) -> Result<Parsed<C>>, plainC: (L, seq<byte>) -> bool,
    layout: L, wrap: T -> C)
    requires Exact(put, get, plain)
    requires forall x :: putC(wrap(x)) == put(x)
    requires forall s :: getC(layout, s) == Wrapped(get(s), wrap) && plainC(layout, s) == plain(s)
    ensures ExactAt(putC, getC, plainC, layout)
  {
    forall s | getC(layout, s).Ok? ensures ExactOn(putC, getC(layout, s).value, plainC(layout, s), s) {
      assert ExactOn(put, get(s).value, plain(s), s);
    }
  }

  // ----- fixed-size fields, names and text

  lemma {:induction false} TakeExact(s: seq<byte>, n: nat)
    requires n <= |s|
    ensures var p := Take(s, n).value; IsRest(p.rest, s) && p.value + p.rest == s
  {
  }

  lemma {:induction false} WordExact(s: seq<byte>, width: nat)
    requires GetWord(s, width).Ok?
    ensures var p := GetWord(s, width).value; IsRest(p.rest, s) && BigEndian(p.value, width) + p.rest == s
  {
    TakeExact(s, width);
    ToFromBigEndian(Take(s, width).value.value);
  }

  lemma {:induction false} ByteExact()
    ensures Exact(PutByteBits, GetU8, Always)
  {
  }

  lemma {:induction false} Word16Exact()
    ensures Exact(PutWord16, GetU16, Always)
  {
    forall s | GetU16(s).Ok? ensures ExactOn(PutWord16, GetU16(s).value, true, s) {
      WordExact(s, 2);
    }
  }

  lemma {:induction false} Word32Exact()
    ensures Exact(PutWord32, GetU32, Always)
  {
    forall s | GetU32(s).Ok? ensures ExactOn(PutWord32, GetU32(s).value, true, s) {
      WordExact(s, 4);
    }
  }

  lemma {:induction false} Word64Exact()
    ensures Exact(PutWord64, GetU64, Always)
  {
    forall s | GetU64(s).Ok? ensures ExactOn(PutWord64, GetU64(s).value, true, s) {
      WordExact(s, 8);
    }
  }

  lemma {:induction false} Word128Exact()
    ensures Exact(PutWord128, GetU128, Always)
  {
    forall s | GetU128(s).Ok? ensures ExactOn(PutWord128, GetU128(s).value, true, s) {
      WordExact(s, 16);
    }
  }

  lemma {:induction false} Signed64Exact()
    ensures Exact(PutSigned64, GetI64, Always)
  {
    forall s | GetI64(s).Ok? ensures ExactOn(PutSigned64, GetI64(s).value, true, s) {
      WordExact(s, 8);
    }
  }

  lemma {:induction false} Fixed16Exact()
    ensures Exact(PutFixed16, GetFixed16, Always)
  {
    forall s | GetFixed16(s).Ok? ensures ExactOn(PutFixed16, GetFixed16(s).value, true, s) {
      TakeExact(s, 16);
    }
  }

  lemma {:induction false} Fixed32Exact()
    ensures Exact(PutFixed32, GetFixed32, Always)
  {
    forall s | GetFixed32(s).Ok? ensures ExactOn(PutFixed32, GetFixed32(s).value, true, s) {
      TakeExact(s, 32);
    }
  }

  lemma {:induction false} BytesExact(s: seq<byte>, max: nat)
    requires GetBytes(s, max).Ok?
    ensures ExactOn(PutBytes, GetBytes(s, max).value, true, s)
  {
    WordExact(s, 4);
    var n := GetU32(s).value;
    TakeExact(n.rest, n.value);
    var p := Take(n.rest, n.value).value;
    Chain(PutU32(n.value), p.value, s, n.rest, p.rest);
  }

  lemma {:induction false} RawExact()
    ensures Exact(PutRaw, GetRaw, Always)
  {
    forall s | GetRaw(s).Ok? ensures ExactOn(PutRaw, GetRaw(s).value, true, s) {
      BytesExact(s, MAX_PREIMAGE_BYTES);
    }
  }

  lemma {:induction false} TextExact()
    ensures Exact(PutText, GetText, Always)
  {
    forall s | GetText(s).Ok? ensures ExactOn(PutText, GetText(s).value, true, s) {
      BytesExact(s, MAX_REASON_BYTES);
    }
  }

  lemma {:induction false} NameExact()
    ensures Exact(PutIdentifier, GetIdentifier, Always)
  {
    forall s | GetIdentifier(s).Ok? ensures ExactOn(PutIdentifier, GetIdentifier(s).value, true, s) {
      BytesExact(s, MAX_STRING_BYTES);
    }
  }

  // ----- identities and scalars

  lemma {:induction false} CgroupExact()
    ensures Exact(PutCgroup, GetCgroup, Always)
  {
    Word64Exact();
    NameExact();
    forall s | GetCgroup(s).Ok? ensures ExactOn(PutCgroup, GetCgroup(s).value, true, s) {
      var mount := GetU64(s).value;
      var inode := GetU64(mount.rest).value;
      var handle := GetIdentifier(inode.rest).value;
      Chain(PutU64(mount.value), PutU64(inode.value), s, mount.rest, inode.rest);
      Chain(PutU64(mount.value) + PutU64(inode.value), PutName(handle.value).value, s, inode.rest, handle.rest);
    }
  }

  lemma {:induction false} ProcessExact()
    ensures Exact(PutProcessBits, GetProcess, Always)
  {
    forall s | GetProcess(s).Ok? ensures ExactOn(PutProcessBits, GetProcess(s).value, true, s) {
      WordExact(s, 4);
      var pid := GetU32(s).value;
      WordExact(pid.rest, 8);
      var start := GetU64(pid.rest).value;
      Chain(PutU32(pid.value), PutU64(start.value), s, pid.rest, start.rest);
    }
  }

  lemma {:induction false} UclampExact()
    ensures Exact(PutUclampBits, GetUclamp, Always)
  {
    forall s | GetUclamp(s).Ok? ensures ExactOn(PutUclampBits, GetUclamp(s).value, true, s) {
      if s[0] == 0 {
        WordExact(s[1..], 2);
        var value := GetU16(s[1..]).value;
        Chain([0], PutU16(value.value), s, s[1..], value.rest);
      }
    }
  }

  lemma {:induction false} QuotaExact()
    ensures Exact(PutQuotaBits, GetQuota, Always)
  {
    forall s | GetQuota(s).Ok? ensures ExactOn(PutQuotaBits, GetQuota(s).value, true, s) {
      if s[0] == 1 {
        WordExact(s[1..], 8);
        var micros := GetU64(s[1..]).value;
        Chain([1], PutU64(micros.value), s, s[1..], micros.rest);
      }
    }
  }

  lemma {:induction false} PriorityExact()
    ensures Exact(PutPriorityBits, GetIoPriority, Always)
  {
    forall s | GetIoPriority(s).Ok? ensures ExactOn(PutPriorityBits, GetIoPriority(s).value, true, s) {
      assert s == [s[0], s[1]] + s[2..];
    }
  }

  // ----- flags, options and lists

  /** The flag or presence byte the input starts with. */
  predicate PlainFlag(s: seq<byte>) { s != [] ==> s[0] <= 1 }

  lemma {:induction false} FlagExact()
    ensures Exact(PutFlagBits, GetBool, PlainFlag)
  {
  }

  predicate PlainOption(plain: seq<byte> -> bool, s: seq<byte>) {
    PlainFlag(s) && (s != [] && s[0] == 1 ==> plain(s[1..]))
  }

  lemma {:induction false} OptionExact<T(!new)>(
    put: T -> Bits, get: seq<byte> -> Result<Parsed<T>>, plain: seq<byte> -> bool,
    putMaybe: Option<T> -> Bits, getMaybe: seq<byte> -> Result<Parsed<Option<T>>>, plainMaybe: seq<byte> -> bool)
    requires Exact(put, get, plain)
    requires forall x :: putMaybe(x) == PutOption(put, x)
    requires forall s :: getMaybe(s) == GetOption(get, s) && plainMaybe(s) == PlainOption(plain, s)
    ensures Exact(putMaybe, getMaybe, plainMaybe)
  {
    forall s | getMaybe(s).Ok? ensures ExactOn(putMaybe, getMaybe(s).value, plainMaybe(s), s) {
      if s[0] != 0 {
        var p := get(s[1..]).value;
        assert ExactOn(put, p, plain(s[1..]), s[1..]);
        Chain([1], put(p.value).value, s, s[1..], p.rest);
      }
    }
  }

  lemma {:induction false} FrequencyExact()
    ensures Exact(PutFrequencyBits, GetFrequency, PlainFlag)
  {
    forall s | GetFrequency(s).Ok? ensures ExactOn(PutFrequencyBits, GetFrequency(s).value, PlainFlag(s), s) {
      if s[0] != 0 {
        WordExact(s[1..], 8);
        var khz := GetU64(s[1..]).value;
        Chain([1], PutU64(khz.value), s, s[1..], khz.rest);
      }
    }
  }

  predicate PlainAll<T>(get: seq<byte> -> Result<Parsed<T>>, plain: seq<byte> -> bool, count: nat, s: seq<byte>) {
    count > 0 ==> plain(s) && (get(s).Ok? ==> PlainAll(get, plain, count - 1, get(s).value.rest))
  }

  lemma {:induction false} AllExact<T(!new)>(
    put: T -> Bits, get: seq<byte> -> Result<Parsed<T>>, plain: seq<byte> -> bool, count: nat, s: seq<byte>)
    requires Exact(put, get, plain) && GetAll(get, count, s).Ok?
    ensures ExactOn((xs: seq<T>) => PutAll(put, xs), GetAll(get, count, s).value, PlainAll(get, plain, count, s), s)
  {
    var all := GetAll(get, count, s).value;
    if count > 0 {
      var first := get(s).value;
      AllExact(put, get, plain, count - 1, first.rest);
      var others := GetAll(get, count - 1, first.rest).value;
      assert all.value[1..] == others.value;
      Chain(put(first.value).value, PutAll(put, others.value).value, s, first.rest, others.rest);
    } else {
      assert [] + s == s;
    }
  }

  predicate PlainList<T>(get: seq<byte> -> Result<Parsed<T>>, plain: seq<byte> -> bool, s: seq<byte>) {
    GetU32(s).Ok? ==> PlainAll(get, plain, GetU32(s).value.value, GetU32(s).value.rest)
  }

  lemma {:induction false} ListExact<T(!new)>(
    put: T -> Bits, get: seq<byte> -> Result<Parsed<T>>, plain: seq<byte> -> bool, max: nat,
    putMany: seq<T> -> Bits, getMany: seq<byte> -> Result<Parsed<seq<T>>>, plainMany: seq<byte> -> bool)
    requires Exact(put, get, plain)
    requires forall xs :: putMany(xs) == PutList(put, xs, max)
    requires forall s :: getMany(s) == GetList(get, max, s) && plainMany(s) == PlainList(get, plain, s)
    ensures Exact(putMany, getMany, plainMany)
  {
    forall s | getMany(s).Ok? ensures ExactOn(putMany, getMany(s).value, plainMany(s), s) {
      WordExact(s, 4);
      var count := GetU32(s).value;
      AllExact(put, get, plain, count.value, count.rest);
      var all := GetAll(get, count.value, count.rest).value;
      Chain(PutU32(count.value), PutAll(put, all.value).value, s, count.rest, all.rest);
    }
  }

  /** The list read is the CPU set itself. */
  predicate PlainCpus(s: seq<byte>) {
    var p := GetList(GetU32, MAX_DEPENDENCIES, s);
    p.Ok? ==> StrictlyIncreasing(p.value.value)
  }

  lemma {:induction false} CpusExact()
    ensures Exact(PutCpuSet, GetCpuSet, PlainCpus)
  {
    Word32Exact();
    var putMany := (ns: seq<u32>) => PutList(PutWord32, ns, MAX_DEPENDENCIES);
    var getMany := (s: seq<byte>) => GetList(GetU32, MAX_DEPENDENCIES, s);
    var plainMany := (s: seq<byte>) => PlainList(GetU32, Always, s);
    ListExact(PutWord32, GetU32, Always, MAX_DEPENDENCIES, putMany, getMany, plainMany);
    forall s | GetCpuSet(s).Ok? ensures ExactOn(PutCpuSet, GetCpuSet(s).value, PlainCpus(s), s) {
      var p := getMany(s).value;
      assert ExactOn(putMany, p, plainMany(s), s);
      AlwaysPlain(GetU32, GetU32(s).value.value, GetU32(s).value.rest);
      var cpus := GetCpuSet(s).value.value;
      assert putMany(p.value).value + p.rest == s;
      if StrictlyIncreasing(p.value) {
        SortedIsFixed(p.value);
      } else if putMany(cpus).value + p.rest == s {
        WordsInjective(cpus, p.value, p.rest);
        assert false;
      }
    }
  }

  lemma {:induction false} AlwaysPlain<T>(get: seq<byte> -> Result<Parsed<T>>, count: nat, s: seq<byte>)
    ensures PlainAll(get, Always, count, s)
  {
    if count > 0 && get(s).Ok? {
      AlwaysPlain(get, count - 1, get(s).value.rest);
    }
  }

  lemma {:induction false} WordsInjective(a: seq<u32>, b: seq<u32>, rest: seq<byte>)
    requires PutList(PutWord32, a, MAX_DEPENDENCIES).Ok? && PutList(PutWord32, b, MAX_DEPENDENCIES).Ok?
    requires PutList(PutWord32, a, MAX_DEPENDENCIES).value + rest == PutList(PutWord32, b, MAX_DEPENDENCIES).value + rest
    ensures a == b
  {
    Word32Codec();
    ListReads(PutWord32, GetU32, a, MAX_DEPENDENCIES);
    ListReads(PutWord32, GetU32, b, MAX_DEPENDENCIES);
  }

  // ----- elements with one layout each

  predicate PlainEach<L, T>(
    get: (L, seq<byte>) -> Result<Parsed<T>>, plain: (L, seq<byte>) -> bool, layouts: seq<L>, s: seq<byte>)
  {
    layouts != [] ==>
      && plain(layouts[0], s)
      && (get(layouts[0], s).Ok? ==> PlainEach(get, plain, layouts[1..], get(layouts[0], s).value.rest))
  }

  lemma {:induction false} EachExact<L(!new), T(!new)>(
    put: T -> Bits, get: (L, seq<byte>) -> Result<Parsed<T>>, plain: (L, seq<byte>) -> bool,
    layouts: seq<L>, s: seq<byte>)
    requires forall layout :: ExactAt(put, get, plain, layout)
    requires GetEach(get, layouts, s).Ok?
    ensures ExactOn((xs: seq<T>) => PutAll(put, xs), GetEach(get, layouts, s).value, PlainEach(get, plain, layouts, s), s)
  {
    var all := GetEach(get, layouts, s).value;
    if layouts != [] {
      assert ExactAt(put, get, plain, layouts[0]);
      var first := get(layouts[0], s).value;
      EachExact(put, get, plain, layouts[1..], first.rest);
      var others := GetEach(get, layouts[1..], first.rest).value;
      assert all.value[1..] == others.value;
      Chain(put(first.value).value, PutAll(put, others.value).value, s, first.rest, others.rest);
    } else {
      assert [] + s == s;
    }
  }

  // ----- fields, operation kinds and typed values

  predicate PlainField(t: FieldType, s: seq<byte>) {
    match t
    case TFlag => PlainFlag(s)
    case TFrequency => PlainFlag(s)
    case TCpus => PlainCpus(s)
    case _ => true
  }

  /** The fields the decoder is lenient on. */
  lemma {:induction false} LenientFieldExact(t: FieldType)
    requires t.TFlag? || t.TFrequency? || t.TCpus?
    ensures ExactAt(PutField, GetField, PlainField, t)
  {
    match t {
      case TFlag =>
        FlagExact();
        WrapExact(PutFlagBits, GetBool, PlainFlag, PutField, GetField, PlainField, t, (x: bool) => Flag(x));
      case TFrequency =>
        FrequencyExact();
        WrapExact(PutFrequencyBits, GetFrequency, PlainFlag, PutField, GetField, PlainField, t,
                  (x: Option<FrequencyKHz>) => Frequency(x));
      case TCpus =>
        CpusExact();
        WrapExact(PutCpuSet, GetCpuSet, PlainCpus, PutField, GetField, PlainField, t, (x: CpuSet) => Cpus(x));
    }
  }

  lemma {:induction false} NumberFieldExact(t: FieldType)
    requires t.TByte? || t.TWord16? || t.TWord32? || t.TWord64? || t.TSigned64?
    ensures ExactAt(PutField, GetField, PlainField, t)
  {
    match t {
      case TByte =>
        ByteExact();
        WrapExact(PutByteBits, GetU8, Always, PutField, GetField, PlainField, t, (x: byte) => Byte(x));
      case TWord16 =>
        Word16Exact();
        WrapExact(PutWord16, GetU16, Always, PutField, GetField, PlainField, t, (x: u16) => Word16(x));
      case TWord32 =>
        Word32Exact();
        WrapExact(PutWord32, GetU32, Always, PutField, GetField, PlainField, t, (x: u32) => Word32(x));
      case TWord64 =>
        Word64Exact();
        WrapExact(PutWord64, GetU64, Always, PutField, GetField, PlainField, t, (x: u64) => Word64(x));
      case TSigned64 =>
        Signed64Exact();
        WrapExact(PutSigned64, GetI64, Always, PutField, GetField, PlainField, t, (x: i64) => Signed64(x));
    }
  }

  lemma {:induction false} FieldExact(t: FieldType)
    ensures ExactAt(PutField, GetField, PlainField, t)
  {
    match t {
      case TName =>
        NameExact();
        WrapExact(PutIdentifier, GetIdentifier, Always, PutField, GetField, PlainField, t, (x: Identifier) => Name(x));
      case TCgroup =>
        CgroupExact();
        WrapExact(PutCgroup, GetCgroup, Always, PutField, GetField, PlainField, t, (x: CgroupId) => Cgroup(x));
      case TProcess =>
        ProcessExact();
        WrapExact(PutProcessBits, GetProcess, Always, PutField, GetField, PlainField, t, (x: ProcessId) => Process(x));
      case TUclamp =>
        UclampExact();
        WrapExact(PutUclampBits, GetUclamp, Always, PutField, GetField, PlainField, t, (x: Uclamp) => Clamp(x));
      case TQuota =>
        QuotaExact();
        WrapExact(PutQuotaBits, GetQuota, Always, PutField, GetField, PlainField, t, (x: Quota) => QuotaField(x));
      case TIoPriority =>
        PriorityExact();
        WrapExact(PutPriorityBits, GetIoPriority, Always, PutField, GetField, PlainField, t, (x: IoPriority) => Priority(x));
      case _ =>
        if t.TFlag? || t.TFrequency? || t.TCpus? {
          LenientFieldExact(t);
        } else {
          NumberFieldExact(t);
        }
    }
  }

  predicate PlainFields(layout: seq<FieldType>, s: seq<byte>) {
    PlainEach(GetField, PlainField, layout, s)
  }

  lemma {:induction false} FieldsExact(layout: seq<FieldType>, s: seq<byte>)
    requires GetFields(layout, s).Ok?
    ensures ExactOn((fs: seq<Field>) => PutAll(PutField, fs), GetFields(layout, s).value, PlainFields(layout, s), s)
  {
    forall t ensures ExactAt(PutField, GetField, PlainField, t) {
      FieldExact(t);
    }
    EachExact(PutField, GetField, PlainField, layout, s);
  }

  predicate PlainKind(s: seq<byte>) {
    s != [] && KindLayout(s[0]).Some? ==> PlainFields(KindLayout(s[0]).value, s[1..])
  }

  lemma {:induction false} KindExact()
    ensures Exact(PutKind, GetKind, PlainKind)
  {
    forall s | GetKind(s).Ok? ensures ExactOn(PutKind, GetKind(s).value, PlainKind(s), s) {
      var layout := KindLayout(s[0]).value;
      var fields := GetFields(layout, s[1..]).value;
      FieldsRewrite(layout, s[1..]);
      FieldsExact(layout, s[1..]);
      BuildKindFields(s[0], fields.value);
      Chain([s[0]], PutAll(PutField, fields.value).value, s, s[1..], fields.rest);
    }
  }

  predicate PlainValue(s: seq<byte>) {
    s != [] && ValueLayout(s[0]).Some? ==> PlainFields(ValueLayout(s[0]).value, s[1..])
  }

  lemma {:induction false} ValueExact()
    ensures Exact(PutValue, GetValue, PlainValue)
  {
    forall s | GetValue(s).Ok? ensures ExactOn(PutValue, GetValue(s).value, PlainValue(s), s) {
      var layout := ValueLayout(s[0]).value;
      var fields := GetFields(layout, s[1..]).value;
      FieldsRewrite(layout, s[1..]);
      FieldsExact(layout, s[1..]);
      BuildValueFields(s[0], fields.value);
      Chain([s[0]], PutAll(PutField, fields.value).value, s, s[1..], fields.rest);
    }
  }

  // ----- cells

  predicate PlainCell(t: CellType, s: seq<byte>) {
    match t
    case TScalar(f) => PlainField(f, s)
    case TKind => PlainKind(s)
    case TValue => PlainValue(s)
    case TMaybePrint => PlainFlag(s)
    case TMaybeId => PlainFlag(s)
    case _ => true
  }

  lemma {:induction false} MaybeExact()
    ensures Exact(PutMaybePrint, GetMaybePrint, PlainFlag)
    ensures Exact(PutMaybeId, GetMaybeId, PlainFlag)
  {
    Fixed32Exact();
    Word32Exact();
    OptionExact(PutFixed32, GetFixed32, Always, PutMaybePrint, GetMaybePrint, PlainFlag);
    OptionExact(PutWord32, GetU32, Always, PutMaybeId, GetMaybeId, PlainFlag);
  }

  lemma {:induction false} ListsExact()
    ensures Exact(PutIds, GetIds, Always)
    ensures Exact(PutNames, GetNames, Always)
  {
    Word32Exact();
    NameExact();
    forall s ensures PlainList(GetU32, Always, s) && PlainList(GetIdentifier, Always, s) {
      if GetU32(s).Ok? {
        AlwaysPlain(GetU32, GetU32(s).value.value, GetU32(s).value.rest);
        AlwaysPlain(GetIdentifier, GetU32(s).value.value, GetU32(s).value.rest);
      }
    }
    ListExact(PutWord32, GetU32, Always, MAX_DEPENDENCIES, PutIds, GetIds, Always);
    ListExact(PutIdentifier, GetIdentifier, Always, MAX_TARGETS, PutNames, GetNames, Always);
  }

  lemma {:induction false} ScalarExact(f: FieldType)
    ensures ExactAt(PutCell, GetCell, PlainCell, TScalar(f))
  {
    FieldExact(f);
    forall s | GetCell(TScalar(f), s).Ok?
      ensures ExactOn(PutCell, GetCell(TScalar(f), s).value, PlainCell(TScalar(f), s), s)
    {
      assert ExactOn(PutField, GetField(f, s).value, PlainField(f, s), s);
    }
  }

  lemma {:induction false} BlockExact(t: CellType)
    requires t.TFixed16? || t.TFixed32? || t.TWord128? || t.TRaw? || t.TText?
    ensures ExactAt(PutCell, GetCell, PlainCell, t)
  {
    match t {
      case TFixed16 =>
        Fixed16Exact();
        WrapExact(PutFixed16, GetFixed16, Always, PutCell, GetCell, PlainCell, t, (x: Bytes16) => Fixed16(x));
      case TFixed32 =>
        Fixed32Exact();
        WrapExact(PutFixed32, GetFixed32, Always, PutCell, GetCell, PlainCell, t, (x: Bytes32) => Fixed32(x));
      case TWord128 =>
        Word128Exact();
        WrapExact(PutWord128, GetU128, Always, PutCell, GetCell, PlainCell, t, (x: u128) => Word128(x));
      case TRaw =>
        RawExact();
        WrapExact(PutRaw, GetRaw, Always, PutCell, GetCell, PlainCell, t, (x: BoundedBytes) => Raw(x));
      case TText =>
        TextExact();
        WrapExact(PutText, GetText, Always, PutCell, GetCell, PlainCell, t, (x: Utf8) => Cell.Text(x));
    }
  }

  lemma {:induction false} VocabularyExact(t: CellType)
    requires t.TKind? || t.TValue?
    ensures ExactAt(PutCell, GetCell, PlainCell, t)
  {
    match t {
      case TKind =>
        KindExact();
        WrapExact(PutKind, GetKind, PlainKind, PutCell, GetCell, PlainCell, t, (x: MutationKind) => Kind(x));
      case TValue =>
        ValueExact();
        WrapExact(PutValue, GetValue, PlainValue, PutCell, GetCell, PlainCell, t, (x: TypedValue) => Value(x));
    }
  }

  lemma {:induction false} CellExact(t: CellType)
    ensures ExactAt(PutCell, GetCell, PlainCell, t)
  {
    match t {
      case TScalar(f) => ScalarExact(f);
      case TMaybePrint =>
        MaybeExact();
        WrapExact(PutMaybePrint, GetMaybePrint, PlainFlag, PutCell, GetCell, PlainCell, t,
                  (x: Option<Bytes32>) => MaybePrint(x));
      case TMaybeId =>
        MaybeExact();
        WrapExact(PutMaybeId, GetMaybeId, PlainFlag, PutCell, GetCell, PlainCell, t, (x: Option<u32>) => MaybeId(x));
      case TIds =>
        ListsExact();
        WrapExact(PutIds, GetIds, Always, PutCell, GetCell, PlainCell, t, (x: seq<u32>) => Ids(x));
      case TNames =>
        ListsExact();
        WrapExact(PutNames, GetNames, Always, PutCell, GetCell, PlainCell, t, (x: seq<Identifier>) => Names(x));
      case _ =>
        if t.TKind? || t.TValue? {
          VocabularyExact(t);
        } else {
          BlockExact(t);
        }
    }
  }

  predicate PlainCells(layout: seq<CellType>, s: seq<byte>) {
    PlainEach(GetCell, PlainCell, layout, s)
  }

  lemma {:induction false} CellsExact(layout: seq<CellType>, s: seq<byte>)
    requires GetCells(layout, s).Ok?
    ensures ExactOn((cs: seq<Cell>) => PutAll(PutCell, cs), GetCells(layout, s).value, PlainCells(layout, s), s)
  {
    forall t ensures ExactAt(PutCell, GetCell, PlainCell, t) {
      CellExact(t);
    }
    EachExact(PutCell, GetCell, PlainCell, layout, s);
  }
}
