/**
  The four-lane integrity checksum of a state file
  (crates/sysboost-core/src/transaction.rs, `checksum`), in explicit arithmetic modulo 2^64,
  and the proof that a local corruption of the payload always changes it.
 */
module Checksum {
  import opened Bytes

  const WORD: nat := 0x1_0000_0000_0000_0000
  const PRIME: nat := 0x100000001b3
  // The inverse of PRIME modulo 2^64, and the quotient that witnesses it.
  const PRIME_INVERSE: nat := 0xce965057aff6957b
  const PRIME_QUOTIENT: nat := 887285111055

  const SEED: seq<u64> :=
    [0xcbf29ce484222325, 0x84222325cbf29ce4, 0x9e3779b185ebca87, 0x517cc1b727220a95]

  /** Bitwise exclusive or of two numbers below 2^width. */
  function Xor(a: nat, b: nat, width: nat): (r: nat) {
    if width == 0 then 0
    else (a % 2 + b % 2) % 2 + 2 * Xor(a / 2, b / 2, width - 1)
  }

  function Pow2(k: nat): (p: nat)
    ensures p > 0
  {
    if k == 0 then 1 else 2 * Pow2(k - 1)
  }

  /** `lane ^= u64::from(byte)`: only the low eight bits of the lane change. */
  function MixByte(lane: u64, b: byte): (r: u64) {
    MixByteBound(lane, b);
    lane - lane % 0x100 + Xor(lane % 0x100, b, 8)
  }

  /** `wrapping_mul` by the lane prime. */
  function Scale(lane: u64): (r: u64) {
    lane * PRIME % WORD
  }

  /** `rotate_left(k)` on a 64-bit word. */
  function RotateLeft(lane: u64, k: nat): (r: u64)
    requires 0 < k < 64
  {
    RotateBound(lane, k, Pow2(64 - k), Pow2(k));
    lane % Pow2(64 - k) * Pow2(k) + lane / Pow2(64 - k)
  }

  /** One iteration of the checksum loop on the lane it touches. */
  function Step(lane: u64, b: byte, index: nat): (r: u64) {
    RotateLeft(Scale(MixByte(lane, b)), index % 63 + 1)
  }

  /** The four lanes after all of `bytes` have been absorbed. */
  function Lanes(bytes: seq<byte>): (lanes: seq<u64>)
    ensures |lanes| == 4
  {
    if bytes == [] then SEED
    else
      var i := |bytes| - 1;
      var before := Lanes(bytes[..i]);
      before[i % 4 := Step(before[i % 4], bytes[i], i)]
  }

  function Digest(bytes: seq<byte>): (d: Bytes32) {
    var l := Lanes(bytes);
    BigEndian(l[0], 8) + BigEndian(l[1], 8) + BigEndian(l[2], 8) + BigEndian(l[3], 8)
  }

  /** The checksum loop as the source runs it, over a mutable four-word array. */
  method Compute(bytes: seq<byte>) returns (d: Bytes32)
    ensures d == Digest(bytes)
  {
    var lanes := new u64[4] [0xcbf29ce484222325, 0x84222325cbf29ce4, 0x9e3779b185ebca87, 0x517cc1b727220a95];
    for index := 0 to |bytes|
      invariant lanes[..] == Lanes(bytes[..index])
    {
      var lane := index % 4;
      assert bytes[..index + 1][..index] == bytes[..index];
      lanes[lane] := MixByte(lanes[lane], bytes[index]);
      lanes[lane] := RotateLeft(Scale(lanes[lane]), index % 63 + 1);
    }
    assert bytes[..|bytes|] == bytes;
    var output: seq<byte> := [];
    for k := 0 to 4
      invariant |output| == 8 * k
      invariant lanes[..] == Lanes(bytes)
      invariant k >= 1 ==> output[..8] == BigEndian(lanes[0], 8)
      invariant k >= 2 ==> output[8..16] == BigEndian(lanes[1], 8)
      invariant k >= 3 ==> output[16..24] == BigEndian(lanes[2], 8)
      invariant k >= 4 ==> output[24..32] == BigEndian(lanes[3], 8)
    {
      output := output + BigEndian(lanes[k], 8);
    }
    d := output;
    assert d == output[..8] + output[8..16] + output[16..24] + output[24..32];
  }

  // ----- every lane operation is injective

  lemma {:induction false} XorBound(a: nat, b: nat, width: nat)
    ensures Xor(a, b, width) < Pow2(width)
    ensures Pow2(8) == 0x100
  {
    if width > 0 {
      XorBound(a / 2, b / 2, width - 1);
    }
    assert Pow2(4) == 16;
  }

  lemma {:induction false} XorCancels(a: nat, b: nat, c: nat, width: nat)
    requires a < Pow2(width) && b < Pow2(width) && c < Pow2(width)
    ensures Xor(a, b, width) == Xor(a, c, width) ==> b == c
    ensures Xor(b, a, width) == Xor(c, a, width) ==> b == c
  {
    if width > 0 {
      XorCancels(a / 2, b / 2, c / 2, width - 1);
    }
  }

  lemma {:induction false} AlignedBound(lane: u64, low: nat)
    requires low < 0x100
    ensures lane - lane % 0x100 + low < WORD
    ensures (lane - lane % 0x100 + low) % 0x100 == low
  {
    assert lane == lane / 0x100 * 0x100 + lane % 0x100;
    assert lane / 0x100 < 0x100_0000_0000_0000;
  }

  lemma {:induction false} MixByteBound(lane: u64, b: byte)
    ensures Xor(lane % 0x100, b, 8) < 0x100
    ensures lane - lane % 0x100 + Xor(lane % 0x100, b, 8) < WORD
    ensures (lane - lane % 0x100 + Xor(lane % 0x100, b, 8)) % 0x100 == Xor(lane % 0x100, b, 8)
  {
    var low := lane % 0x100;
    XorBound(low, b, 8);
    AlignedBound(lane, Xor(low, b, 8));
  }

  lemma {:induction false} MixByteInjective(x: u64, y: u64, b: byte, c: byte)
    ensures MixByte(x, b) == MixByte(y, b) ==> x == y
    ensures MixByte(x, b) == MixByte(x, c) ==> b == c
  {
    var low, low' := x % 0x100, y % 0x100;
    XorBound(0, 0, 8);
    MixByteBound(x, b);
    MixByteBound(y, b);
    MixByteBound(x, c);
    XorCancels(b, low, low', 8);
    XorCancels(low, b, c, 8);
  }

  /** Multiplying by an odd constant modulo 2^64 is undone by its inverse. */
  lemma {:induction false} ScaleInverse(x: u64)
    ensures Scale(x) * PRIME_INVERSE % WORD == x
  {
    assert PRIME * PRIME_INVERSE == 1 + PRIME_QUOTIENT * WORD;
    var k := x * PRIME / WORD;
    assert Scale(x) == x * PRIME - k * WORD;
    assert Scale(x) * PRIME_INVERSE == x + (x * PRIME_QUOTIENT - k * PRIME_INVERSE) * WORD;
  }

  lemma {:induction false} Pow2Splits(j: nat, k: nat)
    ensures Pow2(j) * Pow2(k) == Pow2(j + k)
  {
    if j > 0 {
      Pow2Splits(j - 1, k);
    }
  }

  lemma {:induction false} Pow2Word()
    ensures Pow2(64) == WORD
  {
    assert Pow2(8) == 0x100 by { assert Pow2(4) == 16; }
    Pow2Splits(8, 8);
    Pow2Splits(16, 16);
    Pow2Splits(32, 32);
  }

  lemma {:induction false} RotateBound(lane: u64, k: nat, low: nat, high: nat)
    requires 0 < k < 64 && low == Pow2(64 - k) && high == Pow2(k)
    ensures low > 0 && lane / low < high
    ensures 0 <= lane % low * high + lane / low < WORD
  {
    Pow2Splits(64 - k, k);
    Pow2Word();
    SwapHalvesBound(lane, low, high);
  }

  /** The arithmetic of swapping the high and the low part of a word. */
  lemma {:induction false} SwapHalvesBound(lane: nat, low: nat, high: nat)
    requires low > 0 && high > 0 && lane < low * high
    ensures lane / low < high
    ensures 0 <= lane % low * high + lane / low < low * high
  {
    var lo, hi := lane % low, lane / low;
    assert lane == hi * low + lo;
    HighPartBound(lo, hi, low, high);
    SwappedBound(lo, hi, low, high);
  }

  lemma {:induction false} HighPartBound(lo: nat, hi: nat, low: nat, high: nat)
    requires hi * low + lo < low * high
    ensures hi < high
  {
    if hi >= high {
      ProductMonotone(high, hi, low);
      assert false;
    }
  }

  lemma {:induction false} SwappedBound(lo: nat, hi: nat, low: nat, high: nat)
    requires lo < low && hi < high
    ensures 0 <= lo * high + hi < low * high
  {
    ProductMonotone(lo + 1, low, high);
  }

  lemma {:induction false} ProductMonotone(x: nat, y: nat, f: nat)
    requires x <= y
    ensures x * f <= y * f
  {
  }

  lemma {:induction false} DivModUnique(q1: nat, r1: nat, q2: nat, r2: nat, d: nat)
    requires r1 < d && r2 < d && q1 * d + r1 == q2 * d + r2
    ensures q1 == q2 && r1 == r2
  {
    if q1 < q2 {
      ProductMonotone(q1 + 1, q2, d);
    } else if q2 < q1 {
      ProductMonotone(q2 + 1, q1, d);
    }
  }

  lemma {:induction false} RotateInjective(x: u64, y: u64, k: nat)
    requires 0 < k < 64
    requires RotateLeft(x, k) == RotateLeft(y, k)
    ensures x == y
  {
    var low, high := Pow2(64 - k), Pow2(k);
    RotateBound(x, k, low, high);
    RotateBound(y, k, low, high);
    SwapHalvesInjective(x, y, low, high);
  }

  lemma {:induction false} SwapHalvesInjective(x: nat, y: nat, low: nat, high: nat)
    requires low > 0 && x / low < high && y / low < high
    requires x % low * high + x / low == y % low * high + y / low
    ensures x == y
  {
    DivModUnique(x % low, x / low, y % low, y / low, high);
    assert x == x / low * low + x % low;
    assert y == y / low * low + y % low;
  }

  /** A checksum step is injective in the lane for a fixed byte and in the byte for a fixed lane. */
  lemma {:induction false} StepInjective(x: u64, y: u64, b: byte, c: byte, index: nat)
    ensures Step(x, b, index) == Step(y, b, index) ==> x == y
    ensures Step(x, b, index) == Step(x, c, index) ==> b == c
  {
    var k := index % 63 + 1;
    var p, q, r := MixByte(x, b), MixByte(y, b), MixByte(x, c);
    MixByteInjective(x, y, b, c);
    ScaleInverse(p);
    ScaleInverse(q);
    ScaleInverse(r);
    if Step(x, b, index) == Step(y, b, index) {
      RotateInjective(Scale(p), Scale(q), k);
    }
    if Step(x, b, index) == Step(x, c, index) {
      RotateInjective(Scale(p), Scale(r), k);
    }
  }

  // ----- corruption of the payload

  /** The positions congruent to `lane` where two payloads of one length differ are exactly `{at}`. */
  predicate DifferOnlyAt(a: seq<byte>, b: seq<byte>, lane: nat, at: nat) {
    && |a| == |b|
    && at < |a|
    && at % 4 == lane
    && a[at] != b[at]
    && forall i :: 0 <= i < |a| && i % 4 == lane && i != at ==> a[i] == b[i]
  }

  lemma {:induction false} UntouchedLane(a: seq<byte>, b: seq<byte>, lane: nat)
    requires lane < 4 && |a| == |b|
    requires forall i :: 0 <= i < |a| && i % 4 == lane ==> a[i] == b[i]
    ensures Lanes(a)[lane] == Lanes(b)[lane]
  {
    if a != [] {
      UntouchedLane(a[..|a| - 1], b[..|b| - 1], lane);
    }
  }

  lemma {:induction false} DisturbedLane(a: seq<byte>, b: seq<byte>, lane: nat, at: nat)
    requires lane < 4 && DifferOnlyAt(a, b, lane, at)
    ensures Lanes(a)[lane] != Lanes(b)[lane]
  {
    var i := |a| - 1;
    var x, y := Lanes(a[..i])[lane], Lanes(b[..i])[lane];
    if i == at {
      UntouchedLane(a[..i], b[..i], lane);
      StepInjective(x, y, a[i], b[i], i);
    } else {
      DisturbedLane(a[..i], b[..i], lane, at);
      if i % 4 == lane {
        StepInjective(x, y, a[i], b[i], i);
      }
    }
  }

  lemma {:induction false} WordsDetermined(a: seq<u64>, b: seq<u64>)
    requires |a| == 4 && |b| == 4
    requires BigEndian(a[0], 8) + BigEndian(a[1], 8) + BigEndian(a[2], 8) + BigEndian(a[3], 8)
          == BigEndian(b[0], 8) + BigEndian(b[1], 8) + BigEndian(b[2], 8) + BigEndian(b[3], 8)
    ensures a == b
  {
    WordSizes();
    var p, q := BigEndian(a[0], 8) + BigEndian(a[1], 8), BigEndian(b[0], 8) + BigEndian(b[1], 8);
    var p', q' := p + BigEndian(a[2], 8), q + BigEndian(b[2], 8);
    var d, d' := p' + BigEndian(a[3], 8), q' + BigEndian(b[3], 8);
    assert p' == d[..24] && q' == d'[..24];
    assert p == p'[..16] && q == q'[..16];
    assert BigEndian(a[0], 8) == p[..8] && BigEndian(b[0], 8) == q[..8];
    assert BigEndian(a[1], 8) == p[8..] && BigEndian(b[1], 8) == q[8..];
    assert BigEndian(a[2], 8) == p'[16..] && BigEndian(b[2], 8) == q'[16..];
    assert BigEndian(a[3], 8) == d[24..] && BigEndian(b[3], 8) == d'[24..];
    WordDetermined(a[0], b[0]);
    WordDetermined(a[1], b[1]);
    WordDetermined(a[2], b[2]);
    WordDetermined(a[3], b[3]);
  }

  lemma {:induction false} WordDetermined(x: u64, y: u64)
    requires BigEndian(x, 8) == BigEndian(y, 8)
    ensures x == y
  {
    WordSizes();
    FromToBigEndian(x, 8);
    FromToBigEndian(y, 8);
  }

  lemma {:induction false} DigestDeterminesLanes(a: seq<byte>, b: seq<byte>)
    requires Digest(a) == Digest(b)
    ensures Lanes(a) == Lanes(b)
  {
    WordsDetermined(Lanes(a), Lanes(b));
  }

  /**
    Any corruption that hits some lane exactly once changes the checksum.  In particular this covers
    one changed byte and any change confined to four consecutive positions.
   */
  lemma {:induction false} CorruptionChangesDigest(a: seq<byte>, b: seq<byte>, lane: nat, at: nat)
    requires lane < 4 && DifferOnlyAt(a, b, lane, at)
    ensures Digest(a) != Digest(b)
  {
    if Digest(a) == Digest(b) {
      DigestDeterminesLanes(a, b);
      DisturbedLane(a, b, lane, at);
    }
  }

  /** A burst of at most four consecutive changed bytes changes the checksum. */
  lemma {:induction false} BurstChangesDigest(a: seq<byte>, b: seq<byte>, start: nat)
    requires |a| == |b| && a != b
    requires forall i :: 0 <= i < |a| && !(start <= i < start + 4) ==> a[i] == b[i]
    ensures Digest(a) != Digest(b)
  {
    var at :| 0 <= at < |a| && a[at] != b[at];
    forall i | 0 <= i < |a| && i % 4 == at % 4 && i != at
      ensures a[i] == b[i]
    {
      assert !(start <= i < start + 4);
    }
    CorruptionChangesDigest(a, b, at % 4, at);
  }
}
