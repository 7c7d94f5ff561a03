/**
  What the checksum of a state file does to the bits of its lanes
  (crates/sysboost-core/src/transaction.rs, 1959-1981): the arithmetic of module Checksum is the
  exclusive or, the multiplication and the rotation of 64-bit words.
 */
module ChecksumBits {
  import opened Bytes
  import opened Checksum

  /** Bit `i` of `n`, the lowest first. */
  predicate Bit(n: nat, i: nat) {
    if i == 0 then n % 2 == 1 else Bit(n / 2, i - 1)
  }

  lemma {:induction false} XorBit(a: nat, b: nat, width: nat, i: nat)
    requires i < width
    ensures Bit(Xor(a, b, width), i) <==> Bit(a, i) != Bit(b, i)
  {
    if i > 0 {
      XorBit(a / 2, b / 2, width - 1, i - 1);
    }
  }

  lemma {:induction false} NoHighBit(n: nat, k: nat, i: nat)
    requires n < Pow2(k) && k <= i
    ensures !Bit(n, i)
  {
    if i > 0 {
      NoHighBit(n / 2, if k == 0 then 0 else k - 1, i - 1);
    }
  }

  /** The bits of a number put together from a high and a low part. */
  lemma {:induction false} SplitBit(hi: nat, lo: nat, k: nat, i: nat)
    requires lo < Pow2(k)
    ensures hi * Pow2(k) + lo >= 0
    ensures Bit(hi * Pow2(k) + lo, i) <==> if i < k then Bit(lo, i) else Bit(hi, i - k)
  {
    if k == 0 {
      assert hi * Pow2(k) + lo == hi;
    } else {
      var n := hi * Pow2(k) + lo;
      var half := hi * Pow2(k - 1);
      assert n == 2 * half + lo;
      assert n / 2 == half + lo / 2 && n % 2 == lo % 2;
      if i > 0 {
        SplitBit(hi, lo / 2, k - 1, i - 1);
      }
    }
  }

  /** Mixing a byte in is the exclusive or of the two words. */
  lemma {:induction false} MixBits(lane: u64, b: byte, i: nat)
    ensures Bit(MixByte(lane, b), i) <==> Bit(lane, i) != Bit(b, i)
  {
    var hi, lo := lane / 0x100, lane % 0x100;
    XorBound(lo, b, 8);
    SplitBit(hi, lo, 8, i);
    SplitBit(hi, Xor(lo, b, 8), 8, i);
    if i < 8 {
      XorBit(lo, b, 8, i);
    } else {
      NoHighBit(b, 8, i);
    }
  }

  /** Exchanging the two parts of a number of `j + k` bits moves every bit by `k` positions, cyclically. */
  lemma {:induction false} SwapBits(hi: nat, lo: nat, j: nat, k: nat, i: nat)
    requires hi < Pow2(k) && lo < Pow2(j) && i < j + k
    ensures hi * Pow2(j) + lo >= 0 && lo * Pow2(k) + hi >= 0
    ensures Bit(hi * Pow2(j) + lo, i) <==> Bit(lo * Pow2(k) + hi, if i < j then i + k else i - j)
  {
    SplitBit(hi, lo, j, i);
    SplitBit(lo, hi, k, if i < j then i + k else i - j);
  }

  lemma {:induction false} QuotientAndRest(n: nat, d: nat) returns (q: nat, r: nat)
    requires d > 0
    ensures q == n / d && r == n % d && r < d && n == q * d + r
  {
    q, r := n / d, n % d;
  }

  lemma {:induction false} RotateParts(lane: u64, k: nat) returns (hi: nat, lo: nat)
    requires 0 < k < 64
    ensures hi < Pow2(k) && lo < Pow2(64 - k)
    ensures lane == hi * Pow2(64 - k) + lo
    ensures RotateLeft(lane, k) == lo * Pow2(k) + hi
  {
    var low, high := Pow2(64 - k), Pow2(k);
    RotateBound(lane, k, low, high);
    hi, lo := QuotientAndRest(lane, low);
  }

  /** Rotating left by `k` moves bit `i` to position `i + k` modulo 64. */
  lemma {:induction false} RotateBits(lane: u64, k: nat, i: nat)
    requires 0 < k < 64 && i < 64
    ensures Bit(RotateLeft(lane, k), (i + k) % 64) <==> Bit(lane, i)
  {
    var at := (i + k) % 64;
    assert at == if i < 64 - k then i + k else i - (64 - k);
    var hi, lo := RotateParts(lane, k);
    SwapBits(hi, lo, 64 - k, k, i);
  }

  /** The exclusive or of two words, bit by bit. */
  ghost predicate IsXor(x: u64, a: u64, b: u64) {
    forall i: nat :: i < 64 ==> (Bit(x, i) <==> Bit(a, i) != Bit(b, i))
  }

  /** `x` is `a` rotated left by `k`. */
  ghost predicate IsRotated(x: u64, a: u64, k: nat) {
    forall i: nat :: i < 64 ==> (Bit(a, i) <==> Bit(x, (i + k) % 64))
  }

  /** The empty payload leaves the four starting lanes. */
  lemma {:induction false} EmptyLanes()
    ensures Lanes([]) == [0xcbf29ce484222325, 0x84222325cbf29ce4, 0x9e3779b185ebca87, 0x517cc1b727220a95]
  {
  }

  /**
    One more byte changes the lane its index selects, and no other: exclusive or with the byte,
    multiplication modulo 2^64, rotation by an amount the index gives.
   */
  lemma {:induction false} ByteAbsorbed(bytes: seq<byte>, b: byte) returns (mixed: u64)
    ensures var n, before, after := |bytes|, Lanes(bytes), Lanes(bytes + [b]);
            && IsXor(mixed, before[n % 4], b)
            && IsRotated(after[n % 4], mixed * 0x100000001b3 % 0x1_0000_0000_0000_0000, n % 63 + 1)
            && forall j: nat :: j < 4 && j != n % 4 ==> after[j] == before[j]
  {
    var n, lane := |bytes|, Lanes(bytes)[|bytes| % 4];
    assert (bytes + [b])[..n] == bytes;
    mixed := MixByte(lane, b);
    forall i: nat | i < 64
      ensures Bit(mixed, i) <==> Bit(lane, i) != Bit(b, i)
    {
      MixBits(lane, b, i);
    }
    var product := Scale(mixed);
    forall i: nat | i < 64
      ensures Bit(product, i) <==> Bit(RotateLeft(product, n % 63 + 1), (i + (n % 63 + 1)) % 64)
    {
      RotateBits(product, n % 63 + 1, i);
    }
  }

  lemma {:induction false} OddParts(x: nat, y: nat)
    requires x / 2 == y / 2 && x % 2 == y % 2
    ensures x == y
  {
  }

  /** Words are the same when their bits are, so the two relations determine their word. */
  lemma {:induction false} BitsDetermine(x: nat, y: nat, width: nat)
    requires x < Pow2(width) && y < Pow2(width)
    requires forall i: nat :: i < width ==> (Bit(x, i) <==> Bit(y, i))
    ensures x == y
  {
    if width > 0 {
      forall i: nat | i < width - 1
        ensures Bit(x / 2, i) <==> Bit(y / 2, i)
      {
        assert Bit(x, i + 1) <==> Bit(y, i + 1);
      }
      BitsDetermine(x / 2, y / 2, width - 1);
      assert Bit(x, 0) <==> Bit(y, 0);
      OddParts(x, y);
    }
  }
}
