/**
  The state-file codec as functions (crates/sysboost-core/src/transaction.rs, 474-568 and 770-1893).

  `PutX(x)` is the byte string the encoder appends for `x`; `GetX(s)` is what the decoder makes of
  the rest `s` of its input: a value and the rest after it, or a corruption error.  Every `GetX`
  promises that what it accepts can be written again in no more room (the canonical-form half);
  the matching lemma `XReads` says that it undoes `PutX` in front of any continuation.
 */
module Wire {
  import opened Outcome
  import opened Bytes
  import opened Text
  import opened Mutation
  import opened Session

  const MAX_STRING_BYTES: nat := 4096
  const MAX_DEPENDENCIES: nat := 4096

  /** A decoded value and the undecoded rest of the input. */
  datatype Parsed<+T> = Parsed(value: T, rest: seq<byte>)

  type Bits = Result<seq<byte>>

  /** The encoding `bits` and the unread `rest` take no more room than `s` did. */
  predicate Fits(bits: Bits, rest: seq<byte>, s: seq<byte>) {
    bits.Ok? && |bits.value| + |rest| <= |s|
  }

  lemma {:induction false} Assoc()
    ensures forall a: seq<byte>, b: seq<byte>, c: seq<byte> {:trigger (a + b) + c} :: (a + b) + c == a + (b + c)
  {
  }

  // ----- fixed-size fields

  function Take(s: seq<byte>, n: nat): (r: Result<Parsed<seq<byte>>>)
    ensures r.Ok? <==> n <= |s|
    ensures r.Ok? ==> s == r.value.value + r.value.rest && |r.value.value| == n
    ensures r.Err? ==> r.code == JournalCorrupt
  {
    if n > |s| then Err(JournalCorrupt) else Ok(Parsed(s[..n], s[n..]))
  }

  lemma {:induction false} TakeReads(a: seq<byte>, rest: seq<byte>)
    ensures Take(a + rest, |a|) == Ok(Parsed(a, rest))
  {
    assert (a + rest)[..|a|] == a;
    assert (a + rest)[|a|..] == rest;
  }

  function GetWord(s: seq<byte>, width: nat): (r: Result<Parsed<nat>>)
    ensures r.Ok? ==> r.value.value < Pow256(width) && |r.value.rest| + width == |s|
    ensures r.Err? ==> r.code == JournalCorrupt
  {
    var p :- Take(s, width);
    Ok(Parsed(FromBigEndian(p.value), p.rest))
  }

  lemma {:induction false} WordReads(n: nat, width: nat, rest: seq<byte>)
    requires n < Pow256(width)
    ensures GetWord(BigEndian(n, width) + rest, width) == Ok(Parsed(n, rest))
  {
    TakeReads(BigEndian(n, width), rest);
    FromToBigEndian(n, width);
  }

  function PutU8(n: byte): (s: seq<byte>)
    ensures |s| == 1
  {
    [n]
  }

  function GetU8(s: seq<byte>): (r: Result<Parsed<byte>>)
    ensures r.Ok? ==> s == [r.value.value] + r.value.rest
    ensures r.Ok? <==> s != []
    ensures r.Err? ==> r.code == JournalCorrupt
  {
    if s == [] then Err(JournalCorrupt) else Ok(Parsed(s[0], s[1..]))
  }

  lemma {:induction false} U8Reads(n: byte)
    ensures forall rest :: GetU8(PutU8(n) + rest) == Ok(Parsed(n, rest))
  {
    forall rest: seq<byte>
      ensures GetU8(PutU8(n) + rest) == Ok(Parsed(n, rest))
    {
      assert ([n] + rest)[1..] == rest;
    }
  }

  function PutU16(n: u16): seq<byte> { BigEndian(n, 2) }
  function PutU32(n: u32): seq<byte> { BigEndian(n, 4) }
  function PutU64(n: u64): seq<byte> { BigEndian(n, 8) }
  function PutU128(n: u128): seq<byte> { BigEndian(n, 16) }
  function PutI64(n: i64): seq<byte> { BigEndian(Unsigned(n), 8) }

  function GetU16(s: seq<byte>): (r: Result<Parsed<u16>>)
    ensures r.Ok? ==> |r.value.rest| + 2 == |s|
    ensures r.Err? ==> r.code == JournalCorrupt
  {
    WordSizes();
    var p :- GetWord(s, 2);
    Ok(Parsed(p.value, p.rest))
  }

  function GetU32(s: seq<byte>): (r: Result<Parsed<u32>>)
    ensures r.Ok? ==> |r.value.rest| + 4 == |s|
    ensures r.Err? ==> r.code == JournalCorrupt
  {
    WordSizes();
    var p :- GetWord(s, 4);
    Ok(Parsed(p.value, p.rest))
  }

  function GetU64(s: seq<byte>): (r: Result<Parsed<u64>>)
    ensures r.Ok? ==> |r.value.rest| + 8 == |s|
    ensures r.Err? ==> r.code == JournalCorrupt
  {
    WordSizes();
    var p :- GetWord(s, 8);
    Ok(Parsed(p.value, p.rest))
  }

  function GetU128(s: seq<byte>): (r: Result<Parsed<u128>>)
    ensures r.Ok? ==> |r.value.rest| + 16 == |s|
    ensures r.Err? ==> r.code == JournalCorrupt
  {
    WordSizes();
    var p :- GetWord(s, 16);
    Ok(Parsed(p.value, p.rest))
  }

  function GetI64(s: seq<byte>): (r: Result<Parsed<i64>>)
    ensures r.Ok? ==> |r.value.rest| + 8 == |s|
    ensures r.Err? ==> r.code == JournalCorrupt
  {
    var p :- GetU64(s);
    Ok(Parsed(Signed(p.value), p.rest))
  }

  function GetFixed16(s: seq<byte>): (r: Result<Parsed<Bytes16>>)
    ensures r.Ok? ==> |r.value.rest| + 16 == |s|
    ensures r.Err? ==> r.code == JournalCorrupt
  {
    var p :- Take(s, 16);
    Ok(Parsed(p.value, p.rest))
  }

  function GetFixed32(s: seq<byte>): (r: Result<Parsed<Bytes32>>)
    ensures r.Ok? ==> |r.value.rest| + 32 == |s|
    ensures r.Err? ==> r.code == JournalCorrupt
  {
    var p :- Take(s, 32);
    Ok(Parsed(p.value, p.rest))
  }

  lemma {:induction false} U16Reads(n: u16)
    ensures forall rest :: GetU16(PutU16(n) + rest) == Ok(Parsed(n, rest))
  {
    WordSizes();
    forall rest: seq<byte>
      ensures GetU16(PutU16(n) + rest) == Ok(Parsed(n, rest))
    {
      WordReads(n, 2, rest);
    }
  }

  lemma {:induction false} U32Reads(n: u32)
    ensures forall rest :: GetU32(PutU32(n) + rest) == Ok(Parsed(n, rest))
  {
    WordSizes();
    forall rest: seq<byte>
      ensures GetU32(PutU32(n) + rest) == Ok(Parsed(n, rest))
    {
      WordReads(n, 4, rest);
    }
  }

  lemma {:induction false} U64Reads(n: u64)
    ensures forall rest :: GetU64(PutU64(n) + rest) == Ok(Parsed(n, rest))
  {
    WordSizes();
    forall rest: seq<byte>
      ensures GetU64(PutU64(n) + rest) == Ok(Parsed(n, rest))
    {
      WordReads(n, 8, rest);
    }
  }

  lemma {:induction false} U128Reads(n: u128)
    ensures forall rest :: GetU128(PutU128(n) + rest) == Ok(Parsed(n, rest))
  {
    WordSizes();
    forall rest: seq<byte>
      ensures GetU128(PutU128(n) + rest) == Ok(Parsed(n, rest))
    {
      WordReads(n, 16, rest);
    }
  }

  lemma {:induction false} I64Reads(n: i64)
    ensures forall rest :: GetI64(PutI64(n) + rest) == Ok(Parsed(n, rest))
  {
    U64Reads(Unsigned(n));
    assert PutI64(n) == PutU64(Unsigned(n));
  }

  lemma {:induction false} Fixed16Reads(f: Bytes16)
    ensures forall rest :: GetFixed16(f + rest) == Ok(Parsed(f, rest))
  {
    forall rest: seq<byte>
      ensures GetFixed16(f + rest) == Ok(Parsed(f, rest))
    {
      TakeReads(f, rest);
    }
  }

  lemma {:induction false} Fixed32Reads(f: Bytes32)
    ensures forall rest :: GetFixed32(f + rest) == Ok(Parsed(f, rest))
  {
    forall rest: seq<byte>
      ensures GetFixed32(f + rest) == Ok(Parsed(f, rest))
    {
      TakeReads(f, rest);
    }
  }

  // ----- booleans, byte strings and text

  function PutBool(b: bool): (s: seq<byte>)
    ensures |s| == 1
  {
    PutU8(if b then 1 else 0)
  }

  /** A presence or truth byte; every value but 0 counts as set. */
  function GetBool(s: seq<byte>): (r: Result<Parsed<bool>>)
    ensures r.Ok? ==> |r.value.rest| + 1 == |s|
    ensures r.Err? ==> r.code == JournalCorrupt
  {
    var p :- GetU8(s);
    Ok(Parsed(p.value != 0, p.rest))
  }

  lemma {:induction false} BoolReads(b: bool)
    ensures forall rest :: GetBool(PutBool(b) + rest) == Ok(Parsed(b, rest))
  {
    U8Reads(if b then 1 else 0);
  }

  function PutBytes(value: seq<byte>): (r: Bits)
    ensures r.Ok? ==> |r.value| == 4 + |value|
    ensures r.Err? ==> r.code == JournalCorrupt
  {
    if |value| > 0xFFFF_FFFF then Err(JournalCorrupt) else Ok(PutU32(|value|) + value)
  }

  function GetBytes(s: seq<byte>, max: nat): (r: Result<Parsed<seq<byte>>>)
    ensures r.Ok? ==> |r.value.value| <= max && Fits(PutBytes(r.value.value), r.value.rest, s)
    ensures r.Err? ==> r.code == JournalCorrupt
  {
    var n :- GetU32(s);
    if n.value > max then Err(JournalCorrupt) else Take(n.rest, n.value)
  }

  lemma {:induction false} BytesRead(value: seq<byte>, max: nat)
    requires PutBytes(value).Ok? && |value| <= max
    ensures forall rest :: GetBytes(PutBytes(value).value + rest, max) == Ok(Parsed(value, rest))
  {
    forall rest: seq<byte>
      ensures GetBytes(PutBytes(value).value + rest, max) == Ok(Parsed(value, rest))
    {
      Assoc();
      U32Reads(|value|);
      TakeReads(value, rest);
    }
  }

  function PutString(value: seq<byte>, max: nat): (r: Bits)
    ensures r.Ok? ==> value != [] && |value| <= max && 0 !in value && |r.value| == 4 + |value|
    ensures r.Err? ==> r.code == JournalCorrupt
  {
    if value == [] || |value| > max || 0 in value then Err(JournalCorrupt) else PutBytes(value)
  }

  function GetString(s: seq<byte>, max: nat): (r: Result<Parsed<Utf8>>)
    ensures r.Ok? ==> Fits(PutString(r.value.value, max), r.value.rest, s)
    ensures r.Err? ==> r.code == JournalCorrupt
  {
    var p :- GetBytes(s, max);
    if !ValidUtf8(p.value) || p.value == [] || 0 in p.value then Err(JournalCorrupt)
    else Ok(Parsed(p.value, p.rest))
  }

  lemma {:induction false} StringReads(value: Utf8, max: nat)
    requires PutString(value, max).Ok?
    ensures forall rest :: GetString(PutString(value, max).value + rest, max) == Ok(Parsed(value, rest))
  {
    BytesRead(value, max);
  }

  // ----- optional values and counted lists, over any element codec

  ghost predicate Reads<T(!new)>(put: T -> Bits, get: seq<byte> -> Result<Parsed<T>>, x: T) {
    put(x).Ok? ==> forall rest: seq<byte> :: get(put(x).value + rest) == Ok(Parsed(x, rest))
  }

  ghost predicate Rewrites<T(!new)>(put: T -> Bits, get: seq<byte> -> Result<Parsed<T>>) {
    forall s: seq<byte> :: get(s).Ok? ==> Fits(put(get(s).value.value), get(s).value.rest, s)
  }

  function PutOption<T>(put: T -> Bits, x: Option<T>): Bits {
    match x
    case None => Ok(PutBool(false))
    case Some(v) => var body :- put(v); Ok(PutBool(true) + body)
  }

  function GetOption<T>(get: seq<byte> -> Result<Parsed<T>>, s: seq<byte>): Result<Parsed<Option<T>>> {
    var present :- GetBool(s);
    if !present.value then Ok(Parsed(None, present.rest))
    else
      var p :- get(present.rest);
      Ok(Parsed(Some(p.value), p.rest))
  }

  lemma {:induction false} OptionReads<T(!new)>(put: T -> Bits, get: seq<byte> -> Result<Parsed<T>>, x: Option<T>)
    requires x.Some? ==> Reads(put, get, x.value)
    requires PutOption(put, x).Ok?
    ensures forall rest :: GetOption(get, PutOption(put, x).value + rest) == Ok(Parsed(x, rest))
  {
    Assoc();
    BoolReads(x.Some?);
  }

  function PutAll<T>(put: T -> Bits, xs: seq<T>): Bits {
    if xs == [] then Ok([])
    else
      var first :- put(xs[0]);
      var others :- PutAll(put, xs[1..]);
      Ok(first + others)
  }

  function GetAll<T>(get: seq<byte> -> Result<Parsed<T>>, count: nat, s: seq<byte>): (r: Result<Parsed<seq<T>>>)
    ensures r.Ok? ==> |r.value.value| == count
  {
    if count == 0 then Ok(Parsed([], s))
    else
      var first :- get(s);
      var others :- GetAll(get, count - 1, first.rest);
      Ok(Parsed([first.value] + others.value, others.rest))
  }

  lemma {:induction false} AllRead<T(!new)>(put: T -> Bits, get: seq<byte> -> Result<Parsed<T>>, xs: seq<T>)
    requires forall x :: x in xs ==> Reads(put, get, x)
    requires PutAll(put, xs).Ok?
    ensures forall rest :: GetAll(get, |xs|, PutAll(put, xs).value + rest) == Ok(Parsed(xs, rest))
  {
    if xs == [] {
      forall rest: seq<byte>
        ensures GetAll(get, 0, PutAll(put, xs).value + rest) == Ok(Parsed(xs, rest))
      {
        assert [] + rest == rest;
      }
    } else {
      assert xs[0] in xs;
      AllRead(put, get, xs[1..]);
      assert [xs[0]] + xs[1..] == xs;
      Assoc();
    }
  }

  lemma {:induction false} AllRewrite<T(!new)>(
    put: T -> Bits, get: seq<byte> -> Result<Parsed<T>>, count: nat, s: seq<byte>)
    requires Rewrites(put, get)
    ensures var r := GetAll(get, count, s);
            r.Ok? ==> Fits(PutAll(put, r.value.value), r.value.rest, s)
  {
    if count > 0 && GetAll(get, count, s).Ok? {
      var first := get(s).value;
      AllRewrite(put, get, count - 1, first.rest);
      var all := GetAll(get, count, s).value.value;
      assert all[1..] == GetAll(get, count - 1, first.rest).value.value;
    }
  }

  function PutList<T>(put: T -> Bits, xs: seq<T>, max: nat): Bits {
    if |xs| > max || |xs| > 0xFFFF_FFFF then Err(JournalCorrupt)
    else
      var body :- PutAll(put, xs);
      Ok(PutU32(|xs|) + body)
  }

  function GetList<T>(get: seq<byte> -> Result<Parsed<T>>, max: nat, s: seq<byte>): (r: Result<Parsed<seq<T>>>)
    ensures r.Ok? ==> |r.value.value| <= max
  {
    var count :- GetU32(s);
    if count.value > max then Err(JournalCorrupt) else GetAll(get, count.value, count.rest)
  }

  lemma {:induction false} ListReads<T(!new)>(put: T -> Bits, get: seq<byte> -> Result<Parsed<T>>, xs: seq<T>, max: nat)
    requires forall x :: x in xs ==> Reads(put, get, x)
    requires PutList(put, xs, max).Ok?
    ensures forall rest :: GetList(get, max, PutList(put, xs, max).value + rest) == Ok(Parsed(xs, rest))
  {
    Assoc();
    U32Reads(|xs|);
    AllRead(put, get, xs);
  }

  lemma {:induction false} ListRewrites<T(!new)>(
    put: T -> Bits, get: seq<byte> -> Result<Parsed<T>>, max: nat, s: seq<byte>)
    requires Rewrites(put, get)
    ensures var r := GetList(get, max, s);
            r.Ok? ==> Fits(PutList(put, r.value.value, max), r.value.rest, s)
  {
    var count := GetU32(s);
    if count.Ok? && count.value.value <= max {
      AllRewrite(put, get, count.value.value, count.value.rest);
    }
  }

  /**
    `get` undoes `put` on the `good` values, and yields only good values, each of which can be
    written again in no more room than it was read from.
   */
  ghost predicate Codec<T(!new)>(put: T -> Bits, get: seq<byte> -> Result<Parsed<T>>, good: T -> bool) {
    && (forall x: T :: good(x) ==> Reads(put, get, x))
    && (forall s: seq<byte> :: get(s).Ok? ==>
          good(get(s).value.value) && Fits(put(get(s).value.value), get(s).value.rest, s))
  }

  predicate Any<T>(x: T) { true }

  lemma {:induction false} OptionCodec<T(!new)>(
    put: T -> Bits, get: seq<byte> -> Result<Parsed<T>>, good: T -> bool,
    putMaybe: Option<T> -> Bits, getMaybe: seq<byte> -> Result<Parsed<Option<T>>>, goodMaybe: Option<T> -> bool)
    requires Codec(put, get, good)
    requires forall x :: putMaybe(x) == PutOption(put, x)
    requires forall s :: getMaybe(s) == GetOption(get, s)
    requires forall x :: goodMaybe(x) <==> (x.Some? ==> good(x.value))
    ensures Codec(putMaybe, getMaybe, goodMaybe)
  {
    forall x: Option<T> | goodMaybe(x)
      ensures Reads(putMaybe, getMaybe, x)
    {
      if PutOption(put, x).Ok? {
        OptionReads(put, get, x);
      }
    }
  }

  lemma {:induction false} AllGood<T(!new)>(
    put: T -> Bits, get: seq<byte> -> Result<Parsed<T>>, good: T -> bool, count: nat, s: seq<byte>)
    requires Codec(put, get, good)
    requires GetAll(get, count, s).Ok?
    ensures forall x :: x in GetAll(get, count, s).value.value ==> good(x)
  {
    if count > 0 {
      AllGood(put, get, good, count - 1, get(s).value.rest);
    }
  }

  lemma {:induction false} ListCodec<T(!new)>(
    put: T -> Bits, get: seq<byte> -> Result<Parsed<T>>, good: T -> bool, max: nat,
    putMany: seq<T> -> Bits, getMany: seq<byte> -> Result<Parsed<seq<T>>>, goodMany: seq<T> -> bool)
    requires Codec(put, get, good)
    requires forall xs :: putMany(xs) == PutList(put, xs, max)
    requires forall s :: getMany(s) == GetList(get, max, s)
    requires forall xs :: goodMany(xs) <==> forall x :: x in xs ==> good(x)
    ensures Codec(putMany, getMany, goodMany)
  {
    forall xs: seq<T> | goodMany(xs)
      ensures Reads(putMany, getMany, xs)
    {
      if PutList(put, xs, max).Ok? {
        ListReads(put, get, xs, max);
      }
    }
    assert Rewrites(put, get);
    forall s: seq<byte> | getMany(s).Ok?
      ensures goodMany(getMany(s).value.value)
      ensures Fits(putMany(getMany(s).value.value), getMany(s).value.rest, s)
    {
      ListRewrites(put, get, max, s);
      AllGood(put, get, good, GetU32(s).value.value, GetU32(s).value.rest);
    }
  }

  // ----- a list of elements with one layout each

  ghost predicate ReadsAs<L, T(!new)>(
    put: T -> Bits, get: (L, seq<byte>) -> Result<Parsed<T>>, layout: L, x: T)
  {
    put(x).Ok? ==> forall rest: seq<byte> :: get(layout, put(x).value + rest) == Ok(Parsed(x, rest))
  }

  function GetEach<L, T>(
    get: (L, seq<byte>) -> Result<Parsed<T>>, layouts: seq<L>, s: seq<byte>): (r: Result<Parsed<seq<T>>>)
    ensures r.Ok? ==> |r.value.value| == |layouts|
  {
    if layouts == [] then Ok(Parsed([], s))
    else
      var first :- get(layouts[0], s);
      var others :- GetEach(get, layouts[1..], first.rest);
      Ok(Parsed([first.value] + others.value, others.rest))
  }

  lemma {:induction false} EachReads<L, T(!new)>(
    put: T -> Bits, get: (L, seq<byte>) -> Result<Parsed<T>>, xs: seq<T>, layouts: seq<L>)
    requires |xs| == |layouts|
    requires forall i :: 0 <= i < |xs| ==> ReadsAs(put, get, layouts[i], xs[i])
    requires PutAll(put, xs).Ok?
    ensures forall rest :: GetEach(get, layouts, PutAll(put, xs).value + rest) == Ok(Parsed(xs, rest))
  {
    if xs == [] {
      forall rest: seq<byte>
        ensures GetEach(get, layouts, PutAll(put, xs).value + rest) == Ok(Parsed(xs, rest))
      {
        assert [] + rest == rest;
      }
    } else {
      EachReads(put, get, xs[1..], layouts[1..]);
      assert [xs[0]] + xs[1..] == xs;
      Assoc();
    }
  }

  /** Reading under a layout yields a value that `fits` it and can be written in no more room. */
  ghost predicate RewritesAt<L, T>(
    put: T -> Bits, get: (L, seq<byte>) -> Result<Parsed<T>>, fits: (L, T) -> bool, layout: L, s: seq<byte>)
  {
    get(layout, s).Ok? ==>
      fits(layout, get(layout, s).value.value) && Fits(put(get(layout, s).value.value), get(layout, s).value.rest, s)
  }

  ghost predicate RewritesAs<L(!new), T>(
    put: T -> Bits, get: (L, seq<byte>) -> Result<Parsed<T>>, fits: (L, T) -> bool)
  {
    forall layout: L, s: seq<byte> :: RewritesAt(put, get, fits, layout, s)
  }

  lemma {:induction false} EachRewrites<L(!new), T>(
    put: T -> Bits, get: (L, seq<byte>) -> Result<Parsed<T>>, fits: (L, T) -> bool, layouts: seq<L>, s: seq<byte>)
    requires RewritesAs(put, get, fits)
    requires GetEach(get, layouts, s).Ok?
    ensures var p := GetEach(get, layouts, s).value;
            && Fits(PutAll(put, p.value), p.rest, s)
            && forall i :: 0 <= i < |layouts| ==> fits(layouts[i], p.value[i])
  {
    if layouts != [] {
      var first := get(layouts[0], s).value;
      assert RewritesAt(put, get, fits, layouts[0], s);
      EachRewrites(put, get, fits, layouts[1..], first.rest);
      var all := GetEach(get, layouts, s).value.value;
      assert all[1..] == GetEach(get, layouts[1..], first.rest).value.value;
      forall i | 0 <= i < |layouts|
        ensures fits(layouts[i], all[i])
      {
        if i > 0 {
          assert layouts[i] == layouts[1..][i - 1] && all[i] == all[1..][i - 1];
        }
      }
    }
  }

  /** A reader's result, wrapped into one case of a larger type. */
  function Wrapped<T, C>(r: Result<Parsed<T>>, wrap: T -> C): Result<Parsed<C>> {
    match r
    case Ok(p) => Ok(Parsed(wrap(p.value), p.rest))
    case Err(code) => Err(code)
  }

  lemma {:induction false} WrapCodec<L, T(!new), C(!new)>(
    put: T -> Bits, get: seq<byte> -> Result<Parsed<T>>, good: T -> bool,
    putC: C -> Bits, getC: (L, seq<byte>) -> Result<Parsed<C>>, fits: (L, C) -> bool, layout: L, wrap: T -> C)
    requires Codec(put, get, good)
    requires forall x :: putC(wrap(x)) == put(x)
    requires forall s :: getC(layout, s) == Wrapped(get(s), wrap)
    requires forall x :: fits(layout, wrap(x)) <==> good(x)
    ensures forall x :: good(x) ==> ReadsAs(putC, getC, layout, wrap(x))
    ensures forall s :: RewritesAt(putC, getC, fits, layout, s)
  {
    forall x | good(x)
      ensures ReadsAs(putC, getC, layout, wrap(x))
    {
      assert Reads(put, get, x);
    }
  }

  /** The same for a reader that is itself told a layout. */
  lemma {:induction false} RewrapCodec<L, M, T(!new), C(!new)>(
    put: T -> Bits, get: (L, seq<byte>) -> Result<Parsed<T>>, fits: (L, T) -> bool, layout: L,
    putC: C -> Bits, getC: (M, seq<byte>) -> Result<Parsed<C>>, fitsC: (M, C) -> bool, layoutC: M, wrap: T -> C)
    requires forall x :: fits(layout, x) ==> ReadsAs(put, get, layout, x)
    requires forall s :: RewritesAt(put, get, fits, layout, s)
    requires forall x :: putC(wrap(x)) == put(x)
    requires forall s :: getC(layoutC, s) == Wrapped(get(layout, s), wrap)
    requires forall x :: fitsC(layoutC, wrap(x)) <==> fits(layout, x)
    ensures forall x :: fits(layout, x) ==> ReadsAs(putC, getC, layoutC, wrap(x))
    ensures forall s :: RewritesAt(putC, getC, fitsC, layoutC, s)
  {
    forall x | fits(layout, x) ensures ReadsAs(putC, getC, layoutC, wrap(x)) {
      assert ReadsAs(put, get, layout, x);
    }
    forall s ensures RewritesAt(putC, getC, fitsC, layoutC, s) {
      assert RewritesAt(put, get, fits, layout, s);
    }
  }
}
