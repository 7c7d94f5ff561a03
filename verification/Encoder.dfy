/**
  The growing output buffer of the codec and the `encode_*` routines over it
  (crates/sysboost-core/src/transaction.rs, 779-831 and 1392-1957).  Every routine appends exactly
  the bytes its specification function names, or reports that function's error.
 */
module EncoderIO {
  import opened Outcome
  import opened Bytes
  import opened Text
  import opened Mutation
  import opened Session
  import opened Wire
  import opened VocabularyWire
  import opened LayoutWire
  import opened RecordWire
  import opened StructureWire

  /** The buffer grew by the bytes of `bits`, or the routine failed as `bits` does. */
  predicate Appends(before: seq<byte>, after: seq<byte>, bits: Bits, r: Result<Unit>) {
    match bits
    case Ok(s) => r == Ok(Unit) && after == before + s
    case Err(code) => r == Err(code)
  }

  /** What is still to be written of a list, before and after its next element is. */
  lemma {:induction false} NextElement<T>(put: T -> Bits, xs: seq<T>, i: nat)
    requires i < |xs|
    ensures PutAll(put, xs[i..])
         == if put(xs[i]).Err? then put(xs[i])
            else if PutAll(put, xs[i + 1..]).Err? then PutAll(put, xs[i + 1..])
            else Ok(put(xs[i]).value + PutAll(put, xs[i + 1..]).value)
  {
    assert xs[i..][0] == xs[i] && xs[i..][1..] == xs[i + 1..];
  }

  /** With `written` in the buffer and `todo` still to come, the outcome will be that of `bits` on `before`. */
  predicate OnTrack(before: seq<byte>, written: seq<byte>, todo: Bits, bits: Bits) {
    match bits
    case Ok(s) => todo.Ok? && written + todo.value == before + s
    case Err(code) => todo == Err(code)
  }

  lemma {:induction false} OnTrackStep<T>(
    put: T -> Bits, xs: seq<T>, i: nat, before: seq<byte>, written: seq<byte>, after: seq<byte>,
    bits: Bits, r: Result<Unit>)
    requires i < |xs| && OnTrack(before, written, PutAll(put, xs[i..]), bits)
    requires Appends(written, after, put(xs[i]), r)
    ensures r.Ok? ==> OnTrack(before, after, PutAll(put, xs[i + 1..]), bits)
    ensures r.Err? ==> bits == Err(r.code)
  {
    NextElement(put, xs, i);
    if put(xs[i]).Ok? && PutAll(put, xs[i + 1..]).Ok? {
      var a, b := put(xs[i]).value, PutAll(put, xs[i + 1..]).value;
      assert written + (a + b) == written + a + b;
    }
  }

  class Encoder {
    var bytes: seq<byte>

    constructor ()
      ensures bytes == []
    {
      bytes := [];
    }

    method U8(n: byte)
      modifies this
      ensures bytes == old(bytes) + PutU8(n)
    {
      bytes := bytes + [n];
    }

    method U16(n: u16)
      modifies this
      ensures bytes == old(bytes) + PutU16(n)
    {
      bytes := bytes + BigEndian(n, 2);
    }

    method U32(n: u32)
      modifies this
      ensures bytes == old(bytes) + PutU32(n)
    {
      bytes := bytes + BigEndian(n, 4);
    }

    method U64(n: u64)
      modifies this
      ensures bytes == old(bytes) + PutU64(n)
    {
      bytes := bytes + BigEndian(n, 8);
    }

    method U128(n: u128)
      modifies this
      ensures bytes == old(bytes) + PutU128(n)
    {
      bytes := bytes + BigEndian(n, 16);
    }

    method I64(n: i64)
      modifies this
      ensures bytes == old(bytes) + PutI64(n)
    {
      bytes := bytes + BigEndian(Unsigned(n), 8);
    }

    method Fixed(value: seq<byte>)
      modifies this
      ensures bytes == old(bytes) + value
    {
      bytes := bytes + value;
    }

    method Bytes(value: seq<byte>) returns (r: Result<Unit>)
      modifies this
      ensures Appends(old(bytes), bytes, PutBytes(value), r)
    {
      if |value| > 0xFFFF_FFFF {
        return Err(JournalCorrupt);
      }
      U32(|value|);
      bytes := bytes + value;
      assert old(bytes) + PutU32(|value|) + value == old(bytes) + (PutU32(|value|) + value);
      r := Ok(Unit);
    }

    method String(value: seq<byte>, max: nat) returns (r: Result<Unit>)
      modifies this
      ensures Appends(old(bytes), bytes, PutString(value, max), r)
    {
      if value == [] || |value| > max || 0 in value {
        return Err(JournalCorrupt);
      }
      r := Bytes(value);
    }

    method Optional(present: bool)
      modifies this
      ensures bytes == old(bytes) + PutBool(present)
    {
      U8(if present then 1 else 0);
    }

    // ----- components of the vocabulary

    method Frequency(f: Option<FrequencyKHz>)
      modifies this
      ensures bytes == old(bytes) + PutFrequency(f)
    {
      Optional(f.Some?);
      if f.Some? {
        U64(f.value);
        assert old(bytes) + PutBool(true) + PutU64(f.value) == old(bytes) + (PutBool(true) + PutU64(f.value));
      }
    }

    method Cgroup(c: CgroupId) returns (r: Result<Unit>)
      modifies this
      ensures Appends(old(bytes), bytes, PutCgroup(c), r)
    {
      U64(c.mountId);
      U64(c.inode);
      r := String(c.handle, MAX_STRING_BYTES);
      ghost var a, b, h := PutU64(c.mountId), PutU64(c.inode), PutName(c.handle);
      assert h.Ok? ==> old(bytes) + a + b + h.value == old(bytes) + (a + b + h.value);
    }

    method Process(p: ProcessId)
      modifies this
      ensures bytes == old(bytes) + PutProcess(p)
    {
      U32(p.pid);
      U64(p.startTicks);
      assert old(bytes) + PutU32(p.pid) + PutU64(p.startTicks) == old(bytes) + PutProcess(p);
    }

    method Uclamp(c: Uclamp)
      modifies this
      ensures bytes == old(bytes) + PutUclamp(c)
    {
      match c {
        case UclampValue(value) =>
          U8(0);
          U16(value);
          assert old(bytes) + PutU8(0) + PutU16(value) == old(bytes) + PutUclamp(c);
        case UclampMax =>
          U8(1);
      }
    }

    method Quota(q: Quota)
      modifies this
      ensures bytes == old(bytes) + PutQuota(q)
    {
      match q {
        case QuotaMax =>
          U8(0);
        case QuotaMicros(micros) =>
          U8(1);
          U64(micros);
          assert old(bytes) + PutU8(1) + PutU64(micros) == old(bytes) + PutQuota(q);
      }
    }

    method IoPriority(p: IoPriority)
      modifies this
      ensures bytes == old(bytes) + PutIoPriority(p)
    {
      U8(IoClassTag(p.ioClass));
      U8(p.level);
      assert old(bytes) + PutU8(IoClassTag(p.ioClass)) + PutU8(p.level) == old(bytes) + PutIoPriority(p);
    }

    method Count(count: nat, max: nat) returns (r: Result<Unit>)
      modifies this
      ensures Appends(old(bytes), bytes,
                      if count > max || count > 0xFFFF_FFFF then Err(JournalCorrupt) else Ok(PutU32(count)), r)
    {
      if count > max || count > 0xFFFF_FFFF {
        return Err(JournalCorrupt);
      }
      U32(count);
      r := Ok(Unit);
    }

    method Words(ns: seq<u32>, max: nat) returns (r: Result<Unit>)
      modifies this
      ensures Appends(old(bytes), bytes, PutList(PutWord32, ns, max), r)
    {
      r := Count(|ns|, max);
      if r.Err? {
        return;
      }
      ghost var start, bits := bytes, PutAll(PutWord32, ns);
      assert ns[0..] == ns;
      for i := 0 to |ns|
        invariant r == Ok(Unit)
        invariant OnTrack(start, bytes, PutAll(PutWord32, ns[i..]), bits)
      {
        ghost var written := bytes;
        U32(ns[i]);
        OnTrackStep(PutWord32, ns, i, start, written, bytes, bits, r);
      }
      assert ns[|ns|..] == [] && bytes + [] == bytes;
      assert old(bytes) + PutU32(|ns|) + bits.value == old(bytes) + (PutU32(|ns|) + bits.value);
    }

    /** One field of an operation or a typed value, through the routine for its type. */
    method Field(f: Field) returns (r: Result<Unit>)
      modifies this
      ensures Appends(old(bytes), bytes, PutField(f), r)
    {
      r := Ok(Unit);
      match f {
        case Byte(n) => U8(n);
        case Flag(b) => Optional(b);
        case Word16(n) => U16(n);
        case Word32(n) => U32(n);
        case Word64(n) => U64(n);
        case Signed64(n) => I64(n);
        case Name(n) => r := String(n, MAX_STRING_BYTES);
        case Frequency(khz) => Frequency(khz);
        case Cgroup(c) => r := Cgroup(c);
        case Process(p) => Process(p);
        case Clamp(c) => Uclamp(c);
        case QuotaField(q) => Quota(q);
        case Priority(p) => IoPriority(p);
        case Cpus(cpus) => r := Words(cpus, MAX_DEPENDENCIES);
      }
    }

    /** The tag of an operation kind or typed value and, in table order, its fields. */
    method Tagged(tag: byte, fields: seq<Field>) returns (r: Result<Unit>)
      modifies this
      ensures Appends(old(bytes), bytes,
                      match PutAll(PutField, fields)
                      case Ok(body) => Ok(PutU8(tag) + body)
                      case Err(code) => Err(code), r)
    {
      U8(tag);
      r := Ok(Unit);
      ghost var start, bits := bytes, PutAll(PutField, fields);
      assert fields[0..] == fields;
      for i := 0 to |fields|
        invariant r == Ok(Unit)
        invariant OnTrack(start, bytes, PutAll(PutField, fields[i..]), bits)
      {
        ghost var written := bytes;
        r := Field(fields[i]);
        OnTrackStep(PutField, fields, i, start, written, bytes, bits, r);
        if r.Err? {
          return;
        }
      }
      assert fields[|fields|..] == [] && bytes + [] == bytes;
      assert old(bytes) + PutU8(tag) + bits.value == old(bytes) + (PutU8(tag) + bits.value);
    }

    method Kind(kind: MutationKind) returns (r: Result<Unit>)
      modifies this
      ensures Appends(old(bytes), bytes, PutKind(kind), r)
    {
      r := Tagged(KindTag(kind), KindFields(kind));
    }

    method Value(value: TypedValue) returns (r: Result<Unit>)
      modifies this
      ensures Appends(old(bytes), bytes, PutValue(value), r)
    {
      r := Tagged(ValueTag(value), ValueFields(value));
    }

    // ----- structures

    method Names(names: seq<Identifier>, max: nat) returns (r: Result<Unit>)
      modifies this
      ensures Appends(old(bytes), bytes, PutList(PutIdentifier, names, max), r)
    {
      r := Count(|names|, max);
      if r.Err? {
        return;
      }
      ghost var start, bits := bytes, PutAll(PutIdentifier, names);
      assert names[0..] == names;
      for i := 0 to |names|
        invariant r == Ok(Unit)
        invariant OnTrack(start, bytes, PutAll(PutIdentifier, names[i..]), bits)
      {
        ghost var written := bytes;
        r := String(names[i], MAX_STRING_BYTES);
        OnTrackStep(PutIdentifier, names, i, start, written, bytes, bits, r);
        if r.Err? {
          return;
        }
      }
      assert names[|names|..] == [] && bytes + [] == bytes;
      assert old(bytes) + PutU32(|names|) + bits.value == old(bytes) + (PutU32(|names|) + bits.value);
    }

    method MaybePrint(p: Option<Bytes32>)
      modifies this
      ensures Appends(old(bytes), bytes, PutMaybePrint(p), Ok(Unit))
    {
      Optional(p.Some?);
      if p.Some? {
        Fixed(p.value);
        assert old(bytes) + PutBool(true) + p.value == old(bytes) + (PutBool(true) + p.value);
      }
    }

    method MaybeId(id: Option<u32>)
      modifies this
      ensures Appends(old(bytes), bytes, PutMaybeId(id), Ok(Unit))
    {
      Optional(id.Some?);
      if id.Some? {
        U32(id.value);
        assert old(bytes) + PutBool(true) + PutU32(id.value) == old(bytes) + (PutBool(true) + PutU32(id.value));
      }
    }

    method Cell(c: Cell) returns (r: Result<Unit>)
      modifies this
      ensures Appends(old(bytes), bytes, PutCell(c), r)
    {
      r := Ok(Unit);
      match c {
        case Scalar(f) => r := Field(f);
        case Fixed16(f) => Fixed(f);
        case Fixed32(f) => Fixed(f);
        case Word128(n) => U128(n);
        case Raw(raw) => r := Bytes(raw);
        case Text(t) => r := String(t, MAX_REASON_BYTES);
        case Kind(k) => r := Kind(k);
        case Value(v) => r := Value(v);
        case MaybePrint(p) => MaybePrint(p);
        case MaybeId(id) => MaybeId(id);
        case Ids(ids) => r := Words(ids, MAX_DEPENDENCIES);
        case Names(names) => r := Names(names, MAX_TARGETS);
      }
    }

    /** A structure: its cells in layout order. */
    method Cells(cells: seq<Cell>) returns (r: Result<Unit>)
      modifies this
      ensures Appends(old(bytes), bytes, PutAll(PutCell, cells), r)
    {
      r := Ok(Unit);
      ghost var bits := PutAll(PutCell, cells);
      assert cells[0..] == cells;
      for i := 0 to |cells|
        invariant r == Ok(Unit)
        invariant OnTrack(old(bytes), bytes, PutAll(PutCell, cells[i..]), bits)
      {
        ghost var written := bytes;
        r := Cell(cells[i]);
        OnTrackStep(PutCell, cells, i, old(bytes), written, bytes, bits, r);
        if r.Err? {
          return;
        }
      }
      assert cells[|cells|..] == [] && bytes + [] == bytes;
    }
  }
}
