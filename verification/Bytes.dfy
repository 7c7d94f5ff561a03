/** Bytes, fixed-width integers and big-endian encodings. */
module Bytes {

  type byte = n: int | 0 <= n < 0x100
  type u16 = n: int | 0 <= n < 0x1_0000
  type u32 = n: int | 0 <= n < 0x1_0000_0000
  type u64 = n: int | 0 <= n < 0x1_0000_0000_0000_0000
  type u128 = n: int | 0 <= n < 0x1_0000_0000_0000_0000_0000_0000_0000_0000
  type i64 = n: int | -0x8000_0000_0000_0000 <= n < 0x8000_0000_0000_0000

  type Bytes16 = s: seq<byte> | |s| == 16 witness seq(16, _ => 0)
  type Bytes32 = s: seq<byte> | |s| == 32 witness seq(32, _ => 0)

  function Pow256(width: nat): (p: nat)
    ensures p > 0
  {
    if width == 0 then 1 else 0x100 * Pow256(width - 1)
  }

  lemma {:induction false} WordSizes()
    ensures Pow256(1) == 0x100
    ensures Pow256(2) == 0x1_0000
    ensures Pow256(4) == 0x1_0000_0000
    ensures Pow256(8) == 0x1_0000_0000_0000_0000
    ensures Pow256(16) == 0x1_0000_0000_0000_0000_0000_0000_0000_0000
  {
    assert Pow256(3) == 0x100_0000;
    assert Pow256(6) == 0x1_0000_0000_0000;
    assert Pow256(10) == 0x1_0000_0000_0000_0000_0000;
    assert Pow256(12) == 0x1_0000_0000_0000_0000_0000_0000;
    assert Pow256(14) == 0x1_0000_0000_0000_0000_0000_0000_0000;
  }

  /** Byte `i` of the `width` low-order bytes of `n`, most significant first. */
  function ByteAt(n: nat, width: nat, i: nat): byte
    requires i < width
  {
    n / Pow256(width - 1 - i) % 0x100
  }

  /** The `width` low-order bytes of `n`, most significant first (`to_be_bytes`). */
  function BigEndian(n: nat, width: nat): (s: seq<byte>)
    ensures |s| == width
  {
    seq(width, i requires 0 <= i < width => ByteAt(n, width, i))
  }

  /** The number a big-endian byte string denotes (`from_be_bytes`). */
  function FromBigEndian(s: seq<byte>): (n: nat)
    ensures n < Pow256(|s|)
  {
    if s == [] then 0
    else FromBigEndian(s[..|s| - 1]) * 0x100 + s[|s| - 1]
  }

  lemma {:induction false} DivideTwice(n: nat, d: nat)
    requires d > 0
    ensures n / (0x100 * d) == n / 0x100 / d
  {
    var q, r := n / 0x100, n % 0x100;
    var p, t := q / d, q % d;
    assert n == (p * d + t) * 0x100 + r;
    assert n == p * (0x100 * d) + (t * 0x100 + r);
    assert t * 0x100 + r < 0x100 * d;
    QuotientUnique(n, 0x100 * d, p, t * 0x100 + r);
  }

  lemma {:induction false} LargerQuotient(p: nat, q: nat, d: nat)
    requires p < q
    ensures p * d + d <= q * d
  {
    assert (p + 1) * d <= q * d;
  }

  lemma {:induction false} QuotientUnique(n: nat, d: nat, q: nat, r: nat)
    requires n == q * d + r && r < d
    ensures n / d == q
  {
    var q', r' := n / d, n % d;
    assert n == q' * d + r';
    if q < q' {
      LargerQuotient(q, q', d);
    } else if q' < q {
      LargerQuotient(q', q, d);
    }
  }

  /** The leading bytes are the encoding of the leading part of the number. */
  lemma {:induction false} BigEndianLeading(n: nat, width: nat)
    requires width > 0
    ensures BigEndian(n, width) == BigEndian(n / 0x100, width - 1) + [n % 0x100]
  {
    var whole, part := BigEndian(n, width), BigEndian(n / 0x100, width - 1) + [n % 0x100];
    forall i | 0 <= i < width
      ensures whole[i] == part[i]
    {
      if i < width - 1 {
        DivideTwice(n, Pow256(width - 2 - i));
      } else {
        assert Pow256(0) == 1;
      }
    }
  }

  lemma {:induction false} FromToBigEndian(n: nat, width: nat)
    requires n < Pow256(width)
    ensures FromBigEndian(BigEndian(n, width)) == n
  {
    if width > 0 {
      FromToBigEndian(n / 0x100, width - 1);
      BigEndianLeading(n, width);
      var s := BigEndian(n, width);
      assert s[..|s| - 1] == BigEndian(n / 0x100, width - 1);
    }
  }

  lemma {:induction false} ToFromBigEndian(s: seq<byte>)
    ensures BigEndian(FromBigEndian(s), |s|) == s
  {
    if s != [] {
      var leading := s[..|s| - 1];
      ToFromBigEndian(leading);
      var n := FromBigEndian(s);
      assert n / 0x100 == FromBigEndian(leading) && n % 0x100 == s[|s| - 1];
      BigEndianLeading(n, |s|);
    }
  }

  /** Two's complement image of a signed word. */
  function Unsigned(n: i64): u64 {
    if n < 0 then n + 0x1_0000_0000_0000_0000 else n
  }

  function Signed(n: u64): i64 {
    if n < 0x8000_0000_0000_0000 then n else n - 0x1_0000_0000_0000_0000
  }
}
