/**
  The reading cursor of the codec and the `decode_*` routines over it
  (crates/sysboost-core/src/transaction.rs, 833-931 and 1481-1957).  Every routine returns what its
  specification function makes of the bytes after the cursor, and on success leaves the cursor at
  the rest that function names.
 */
module DecoderIO {
  import opened Outcome
  import opened Bytes
  import opened Text
  import opened Mutation
  import opened Session
  import opened Wire
  import opened VocabularyWire
  import opened LayoutWire
  import opened RecordWire
  import opened StructureWire

  class Decoder {
    const bytes: seq<byte>
    var offset: nat

    predicate Valid()
      reads this
    {
      offset <= |bytes|
    }

    /** The bytes after the cursor. */
    function Rest(): seq<byte>
      requires Valid()
      reads this
    {
      bytes[offset..]
    }

    /** Result and cursor are those of a specified reading. */
    predicate Follows<T(==)>(r: Result<T>, spec: Result<Parsed<T>>)
      requires Valid()
      reads this
    {
      match spec
      case Ok(p) => r == Ok(p.value) && Rest() == p.rest
      case Err(code) => r == Err(code)
    }

    constructor (bytes: seq<byte>)
      ensures Valid() && this.bytes == bytes && Rest() == bytes
    {
      this.bytes := bytes;
      offset := 0;
    }

    method Take(count: nat) returns (r: Result<seq<byte>>)
      requires Valid()
      modifies this
      ensures Valid() && Follows(r, Wire.Take(old(Rest()), count))
    {
      if offset + count > |bytes| {
        return Err(JournalCorrupt);
      }
      r := Ok(bytes[offset..offset + count]);
      offset := offset + count;
      assert r.value == old(Rest())[..count];
    }

    method Word(width: nat) returns (r: Result<nat>)
      requires Valid()
      modifies this
      ensures Valid() && Follows(r, GetWord(old(Rest()), width))
    {
      var taken :- Take(width);
      r := Ok(FromBigEndian(taken));
    }

    method U8() returns (r: Result<byte>)
      requires Valid()
      modifies this
      ensures Valid() && Follows(r, GetU8(old(Rest())))
    {
      var taken :- Take(1);
      r := Ok(taken[0]);
    }

    method U16() returns (r: Result<u16>)
      requires Valid()
      modifies this
      ensures Valid() && Follows(r, GetU16(old(Rest())))
    {
      WordSizes();
      var n :- Word(2);
      r := Ok(n);
    }

    method U32() returns (r: Result<u32>)
      requires Valid()
      modifies this
      ensures Valid() && Follows(r, GetU32(old(Rest())))
    {
      WordSizes();
      var n :- Word(4);
      r := Ok(n);
    }

    method U64() returns (r: Result<u64>)
      requires Valid()
      modifies this
      ensures Valid() && Follows(r, GetU64(old(Rest())))
    {
      WordSizes();
      var n :- Word(8);
      r := Ok(n);
    }

    method U128() returns (r: Result<u128>)
      requires Valid()
      modifies this
      ensures Valid() && Follows(r, GetU128(old(Rest())))
    {
      WordSizes();
      var n :- Word(16);
      r := Ok(n);
    }

    method I64() returns (r: Result<i64>)
      requires Valid()
      modifies this
      ensures Valid() && Follows(r, GetI64(old(Rest())))
    {
      var n :- U64();
      r := Ok(Signed(n));
    }

    method Fixed16() returns (r: Result<Bytes16>)
      requires Valid()
      modifies this
      ensures Valid() && Follows(r, GetFixed16(old(Rest())))
    {
      var taken :- Take(16);
      r := Ok(taken);
    }

    method Fixed32() returns (r: Result<Bytes32>)
      requires Valid()
      modifies this
      ensures Valid() && Follows(r, GetFixed32(old(Rest())))
    {
      var taken :- Take(32);
      r := Ok(taken);
    }

    method Bool() returns (r: Result<bool>)
      requires Valid()
      modifies this
      ensures Valid() && Follows(r, GetBool(old(Rest())))
    {
      var n :- U8();
      r := Ok(n != 0);
    }

    method Bytes(max: nat) returns (r: Result<seq<byte>>)
      requires Valid()
      modifies this
      ensures Valid() && Follows(r, GetBytes(old(Rest()), max))
    {
      var length :- U32();
      if length > max {
        return Err(JournalCorrupt);
      }
      r := Take(length);
    }

    method String(max: nat) returns (r: Result<Utf8>)
      requires Valid()
      modifies this
      ensures Valid() && Follows(r, GetString(old(Rest()), max))
    {
      var value :- Bytes(max);
      if !ValidUtf8(value) || value == [] || 0 in value {
        return Err(JournalCorrupt);
      }
      r := Ok(value);
    }

    method Finish() returns (done: bool)
      requires Valid()
      ensures done <==> Rest() == []
    {
      done := offset == |bytes|;
    }

    // ----- components of the vocabulary

    method Frequency() returns (r: Result<Option<FrequencyKHz>>)
      requires Valid()
      modifies this
      ensures Valid() && Follows(r, GetFrequency(old(Rest())))
    {
      var present :- Bool();
      if !present {
        return Ok(None);
      }
      var khz :- U64();
      if khz == 0 {
        return Err(JournalCorrupt);
      }
      r := Ok(Some(khz));
    }

    method Identifier() returns (r: Result<Identifier>)
      requires Valid()
      modifies this
      ensures Valid() && Follows(r, GetIdentifier(old(Rest())))
    {
      var name :- String(MAX_STRING_BYTES);
      if !IsName(name, 128) {
        return Err(JournalCorrupt);
      }
      r := Ok(name);
    }

    method Cgroup() returns (r: Result<CgroupId>)
      requires Valid()
      modifies this
      ensures Valid() && Follows(r, GetCgroup(old(Rest())))
    {
      var mount :- U64();
      var inode :- U64();
      var handle :- Identifier();
      r := Ok(CgroupId(mount, inode, handle));
    }

    method Process() returns (r: Result<ProcessId>)
      requires Valid()
      modifies this
      ensures Valid() && Follows(r, GetProcess(old(Rest())))
    {
      var pid :- U32();
      var start :- U64();
      if pid == 0 || start == 0 {
        return Err(JournalCorrupt);
      }
      r := Ok(ProcessId(pid, start));
    }

    method Uclamp() returns (r: Result<Uclamp>)
      requires Valid()
      modifies this
      ensures Valid() && Follows(r, GetUclamp(old(Rest())))
    {
      var tag :- U8();
      match tag {
        case 0 =>
          var value :- U16();
          if value > 1024 {
            return Err(JournalCorrupt);
          }
          r := Ok(UclampValue(value));
        case 1 => r := Ok(UclampMax);
        case _ => r := Err(JournalCorrupt);
      }
    }

    method Quota() returns (r: Result<Quota>)
      requires Valid()
      modifies this
      ensures Valid() && Follows(r, GetQuota(old(Rest())))
    {
      var tag :- U8();
      match tag {
        case 0 => r := Ok(QuotaMax);
        case 1 =>
          var micros :- U64();
          if micros == 0 {
            return Err(JournalCorrupt);
          }
          r := Ok(QuotaMicros(micros));
        case _ => r := Err(JournalCorrupt);
      }
    }

    method IoPriority() returns (r: Result<IoPriority>)
      requires Valid()
      modifies this
      ensures Valid() && Follows(r, GetIoPriority(old(Rest())))
    {
      var tag :- U8();
      var ioClass :- IoClassOf(tag);
      var level :- U8();
      if level > 7 {
        return Err(JournalCorrupt);
      }
      r := Ok(Mutation.IoPriority(ioClass, level));
    }

    method Words(max: nat) returns (r: Result<seq<u32>>)
      requires Valid()
      modifies this
      ensures Valid() && Follows(r, GetList(GetU32, max, old(Rest())))
    {
      var count :- U32();
      if count > max {
        return Err(JournalCorrupt);
      }
      r := WordsCounted(count);
    }

    method WordsCounted(count: nat) returns (r: Result<seq<u32>>)
      requires Valid()
      modifies this
      ensures Valid() && Follows(r, GetAll(GetU32, count, old(Rest())))
    {
      var items: seq<u32> := [];
      ghost var whole := GetAll(GetU32, count, Rest());
      for i := 0 to count
        invariant Valid()
        invariant OnTrack(items, GetAll(GetU32, count - i, Rest()), whole)
      {
        OnTrackStep(GetU32, items, count - i, Rest(), whole);
        var item :- U32();
        items := items + [item];
      }
      assert items + [] == items;
      r := Ok(items);
    }

    method CpuSet() returns (r: Result<CpuSet>)
      requires Valid()
      modifies this
      ensures Valid() && Follows(r, GetCpuSet(old(Rest())))
    {
      var words :- Words(MAX_DEPENDENCIES);
      var cpus := NewCpuSet(words);
      if cpus.Err? {
        return Err(JournalCorrupt);
      }
      r := Ok(cpus.value);
    }

    /** One field of an operation or a typed value, through the routine for its type. */
    method Field(t: FieldType) returns (r: Result<Field>)
      requires Valid()
      modifies this
      ensures Valid() && Follows(r, GetField(t, old(Rest())))
    {
      match t {
        case TByte => var x :- U8(); r := Ok(Byte(x));
        case TFlag => var x :- Bool(); r := Ok(Flag(x));
        case TWord16 => var x :- U16(); r := Ok(Word16(x));
        case TWord32 => var x :- U32(); r := Ok(Word32(x));
        case TWord64 => var x :- U64(); r := Ok(Word64(x));
        case TSigned64 => var x :- I64(); r := Ok(Signed64(x));
        case TName => var x :- Identifier(); r := Ok(Name(x));
        case TFrequency => var x :- Frequency(); r := Ok(VocabularyWire.Frequency(x));
        case TCgroup => var x :- Cgroup(); r := Ok(VocabularyWire.Cgroup(x));
        case TProcess => var x :- Process(); r := Ok(VocabularyWire.Process(x));
        case TUclamp => var x :- Uclamp(); r := Ok(Clamp(x));
        case TQuota => var x :- Quota(); r := Ok(QuotaField(x));
        case TIoPriority => var x :- IoPriority(); r := Ok(Priority(x));
        case TCpus => var x :- CpuSet(); r := Ok(Cpus(x));
      }
    }

    method Fields(layout: seq<FieldType>) returns (r: Result<seq<Field>>)
      requires Valid()
      modifies this
      ensures Valid() && Follows(r, GetFields(layout, old(Rest())))
    {
      var items: seq<Field> := [];
      ghost var whole := GetFields(layout, Rest());
      assert layout[0..] == layout;
      for i := 0 to |layout|
        invariant Valid()
        invariant OnTrack(items, GetFields(layout[i..], Rest()), whole)
      {
        OnTrackEach(GetField, items, layout, i, Rest(), whole);
        var item :- Field(layout[i]);
        items := items + [item];
      }
      assert items + [] == items;
      r := Ok(items);
    }

    method Kind() returns (r: Result<MutationKind>)
      requires Valid()
      modifies this
      ensures Valid() && Follows(r, GetKind(old(Rest())))
    {
      var tag :- U8();
      var layout := KindLayout(tag);
      if layout.None? {
        return Err(JournalCorrupt);
      }
      ghost var start := Rest();
      var fields :- Fields(layout.value);
      FieldsRewrite(layout.value, start);
      r := BuildKind(tag, fields);
    }

    method Value() returns (r: Result<TypedValue>)
      requires Valid()
      modifies this
      ensures Valid() && Follows(r, GetValue(old(Rest())))
    {
      var tag :- U8();
      var layout := ValueLayout(tag);
      if layout.None? {
        return Err(JournalCorrupt);
      }
      ghost var start := Rest();
      var fields :- Fields(layout.value);
      FieldsRewrite(layout.value, start);
      r := BuildValue(tag, fields);
    }

    // ----- structures

    method Names(max: nat) returns (r: Result<seq<Identifier>>)
      requires Valid()
      modifies this
      ensures Valid() && Follows(r, GetList(GetIdentifier, max, old(Rest())))
    {
      var count :- U32();
      if count > max {
        return Err(JournalCorrupt);
      }
      r := NamesCounted(count, (n: nat, s) => GetAll(GetIdentifier, n, s));
    }

    /** Reads one more name of a list of which `left` are still to come. */
    method NextName(items: seq<Identifier>, ghost left: nat, ghost todo: (nat, seq<byte>) -> Result<Parsed<seq<Identifier>>>,
                    ghost whole: Result<Parsed<seq<Identifier>>>)
      returns (r: Result<seq<Identifier>>)
      requires Valid() && left > 0 && Tracks(todo, GetIdentifier)
      requires OnTrack(items, todo(left, Rest()), whole)
      modifies this
      ensures Valid()
      ensures r.Ok? ==> OnTrack(r.value, todo(left - 1, Rest()), whole)
      ensures r.Err? ==> whole == Err(r.code)
    {
      assert todo(left, Rest()) == GetAll(GetIdentifier, left, Rest());
      OnTrackStep(GetIdentifier, items, left, Rest(), whole);
      var item :- Identifier();
      assert todo(left - 1, Rest()) == GetAll(GetIdentifier, left - 1, Rest());
      r := Ok(items + [item]);
    }

    method NamesCounted(count: nat, ghost todo: (nat, seq<byte>) -> Result<Parsed<seq<Identifier>>>)
      returns (r: Result<seq<Identifier>>)
      requires Valid() && Tracks(todo, GetIdentifier)
      modifies this
      ensures Valid() && Follows(r, todo(count, old(Rest())))
    {
      var items: seq<Identifier> := [];
      ghost var whole := todo(count, Rest());
      for i := 0 to count
        invariant Valid()
        invariant OnTrack(items, todo(count - i, Rest()), whole)
      {
        items :- NextName(items, count - i, todo, whole);
      }
      NothingLeft(todo, GetIdentifier, Rest());
      assert items + [] == items;
      r := Ok(items);
    }

    method MaybePrint() returns (r: Result<Option<Bytes32>>)
      requires Valid()
      modifies this
      ensures Valid() && Follows(r, GetMaybePrint(old(Rest())))
    {
      var present :- Bool();
      if !present {
        return Ok(None);
      }
      var x :- Fixed32();
      r := Ok(Some(x));
    }

    method MaybeId() returns (r: Result<Option<u32>>)
      requires Valid()
      modifies this
      ensures Valid() && Follows(r, GetMaybeId(old(Rest())))
    {
      var present :- Bool();
      if !present {
        return Ok(None);
      }
      var x :- U32();
      r := Ok(Some(x));
    }

    method Cell(t: CellType) returns (r: Result<Cell>)
      requires Valid()
      modifies this
      ensures Valid() && Follows(r, GetCell(t, old(Rest())))
    {
      match t {
        case TScalar(f) => var x :- Field(f); r := Ok(Scalar(x));
        case TFixed16 => var x :- Fixed16(); r := Ok(RecordWire.Fixed16(x));
        case TFixed32 => var x :- Fixed32(); r := Ok(RecordWire.Fixed32(x));
        case TWord128 => var x :- U128(); r := Ok(Word128(x));
        case TRaw => var x :- Bytes(MAX_PREIMAGE_BYTES); r := Ok(Raw(x));
        case TText => var x :- String(MAX_REASON_BYTES); r := Ok(RecordWire.Text(x));
        case TKind => var x :- Kind(); r := Ok(RecordWire.Kind(x));
        case TValue => var x :- Value(); r := Ok(RecordWire.Value(x));
        case TMaybePrint => var x :- MaybePrint(); r := Ok(RecordWire.MaybePrint(x));
        case TMaybeId => var x :- MaybeId(); r := Ok(RecordWire.MaybeId(x));
        case TIds => var x :- Words(MAX_DEPENDENCIES); r := Ok(Ids(x));
        case TNames => var x :- Names(MAX_TARGETS); r := Ok(RecordWire.Names(x));
      }
    }

    method Cells(layout: seq<CellType>) returns (r: Result<seq<Cell>>)
      requires Valid()
      modifies this
      ensures Valid() && Follows(r, GetCells(layout, old(Rest())))
    {
      var items: seq<Cell> := [];
      ghost var whole := GetCells(layout, Rest());
      assert layout[0..] == layout;
      for i := 0 to |layout|
        invariant Valid()
        invariant OnTrack(items, GetCells(layout[i..], Rest()), whole)
      {
        OnTrackEach(GetCell, items, layout, i, Rest(), whole);
        var item :- Cell(layout[i]);
        items := items + [item];
      }
      assert items + [] == items;
      r := Ok(items);
    }
  }

  /** With `done` read and `todo` the reading still to come, the outcome will be `whole`. */
  predicate OnTrack<T(==)>(done: seq<T>, todo: Result<Parsed<seq<T>>>, whole: Result<Parsed<seq<T>>>) {
    match whole
    case Ok(p) => todo.Ok? && p.value == done + todo.value.value && p.rest == todo.value.rest
    case Err(code) => todo == Err(code)
  }

  lemma {:induction false} OnTrackStep<T(!new)>(
    get: seq<byte> -> Result<Parsed<T>>, done: seq<T>, left: nat, s: seq<byte>, whole: Result<Parsed<seq<T>>>)
    requires left > 0 && OnTrack(done, GetAll(get, left, s), whole)
    ensures get(s).Ok? ==>
              OnTrack(done + [get(s).value.value], GetAll(get, left - 1, get(s).value.rest), whole)
    ensures get(s).Err? ==> whole == Err(get(s).code)
  {
    if get(s).Ok? && GetAll(get, left - 1, get(s).value.rest).Ok? {
      var later := GetAll(get, left - 1, get(s).value.rest).value.value;
      assert done + ([get(s).value.value] + later) == done + [get(s).value.value] + later;
    }
  }

  lemma {:induction false} OnTrackEach<L, T(!new)>(
    get: (L, seq<byte>) -> Result<Parsed<T>>, done: seq<T>, layouts: seq<L>, i: nat, s: seq<byte>,
    whole: Result<Parsed<seq<T>>>)
    requires i < |layouts| && OnTrack(done, GetEach(get, layouts[i..], s), whole)
    ensures var first := get(layouts[i], s);
            && (first.Ok? ==>
                  OnTrack(done + [first.value.value], GetEach(get, layouts[i + 1..], first.value.rest), whole))
            && (first.Err? ==> whole == Err(first.code))
  {
    assert layouts[i..][0] == layouts[i] && layouts[i..][1..] == layouts[i + 1..];
    var first := get(layouts[i], s);
    if first.Ok? && GetEach(get, layouts[i + 1..], first.value.rest).Ok? {
      var later := GetEach(get, layouts[i + 1..], first.value.rest).value.value;
      assert done + ([first.value.value] + later) == done + [first.value.value] + later;
    }
  }

  /** `todo` is the reading of a counted list, so that a loop need not look inside it. */
  ghost predicate Tracks<T(!new)>(todo: (nat, seq<byte>) -> Result<Parsed<seq<T>>>, get: seq<byte> -> Result<Parsed<T>>) {
    forall n: nat, s: seq<byte> {:trigger GetAll(get, n, s)} :: todo(n, s) == GetAll(get, n, s)
  }

  lemma {:induction false} NothingLeft<T(!new)>(
    todo: (nat, seq<byte>) -> Result<Parsed<seq<T>>>, get: seq<byte> -> Result<Parsed<T>>, s: seq<byte>)
    requires Tracks(todo, get)
    ensures todo(0, s) == Ok(Parsed([], s))
  {
    assert GetAll(get, 0, s) == Ok(Parsed([], s));
  }
}
