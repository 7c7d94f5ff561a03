/** UTF-8 text (section 4 of RFC 3629) and the bounded truncation of failure messages. */
module Text {
  import opened Bytes

  predicate IsTail(b: byte) { 0x80 <= b <= 0xBF }

  /** The length of the well-formed UTF-8 character `s` starts with, or 0 when it starts with none. */
  function CharLength(s: seq<byte>): (n: nat)
    ensures n <= 4 && n <= |s|
  {
    if s == [] then 0
    else if s[0] < 0x80 then 1
    else if 0xC2 <= s[0] <= 0xDF then
      if |s| >= 2 && IsTail(s[1]) then 2 else 0
    else if 0xE0 <= s[0] <= 0xEF then
      var low := if s[0] == 0xE0 then 0xA0 else 0x80;
      var high := if s[0] == 0xED then 0x9F else 0xBF;
      if |s| >= 3 && low <= s[1] <= high && IsTail(s[2]) then 3 else 0
    else if 0xF0 <= s[0] <= 0xF4 then
      var low := if s[0] == 0xF0 then 0x90 else 0x80;
      var high := if s[0] == 0xF4 then 0x8F else 0xBF;
      if |s| >= 4 && low <= s[1] <= high && IsTail(s[2]) && IsTail(s[3]) then 4 else 0
    else 0
  }

  predicate ValidUtf8(s: seq<byte>) {
    s == [] || (CharLength(s) > 0 && ValidUtf8(s[CharLength(s)..]))
  }

  type Utf8 = s: seq<byte> | ValidUtf8(s) witness []

  /** `str::is_char_boundary` for an index inside the text or at its end. */
  predicate IsBoundary(s: seq<byte>, k: nat)
    requires k <= |s|
  {
    k == |s| || !IsTail(s[k])
  }

  /** The semantic-identifier alphabet shared by all validated names. */
  predicate IsNameByte(b: byte) {
    || 0x30 <= b <= 0x39  // digits
    || 0x41 <= b <= 0x5A || 0x61 <= b <= 0x7A  // letters
    || b == 0x2E || b == 0x5F || b == 0x3A || b == 0x2D  // . _ : -
  }

  predicate IsName(s: seq<byte>, max: nat) {
    0 < |s| <= max && forall i :: 0 <= i < |s| ==> IsNameByte(s[i])
  }

  /** Every validated name is UTF-8 and holds no NUL, so the decoder's string checks accept it. */
  lemma {:induction false} NamesAreText(s: seq<byte>)
    requires forall i :: 0 <= i < |s| ==> IsNameByte(s[i])
    ensures ValidUtf8(s) && 0 !in s
  {
    if s != [] {
      NamesAreText(s[1..]);
    }
  }

  /** Cutting well-formed text at a character boundary leaves well-formed text on both sides. */
  lemma {:induction false} BoundaryCut(s: seq<byte>, k: nat)
    requires ValidUtf8(s) && k <= |s| && IsBoundary(s, k)
    ensures ValidUtf8(s[..k]) && ValidUtf8(s[k..])
  {
    if s != [] && k > 0 {
      var n := CharLength(s);
      assert k >= n;
      BoundaryCut(s[n..], k - n);
      assert s[n..][..k - n] == s[..k][n..];
      assert s[n..][k - n..] == s[k..];
      assert CharLength(s[..k]) == n;
    }
  }

  /** A boundary is never more than three bytes away. */
  lemma {:induction false} BoundaryNearby(s: seq<byte>, k: nat)
    requires ValidUtf8(s) && k <= |s|
    ensures exists j :: k - 3 <= j <= k && 0 <= j && IsBoundary(s, j)
  {
    if s == [] || k == 0 || k < CharLength(s) {
      assert IsBoundary(s, 0);
    } else {
      var n := CharLength(s);
      BoundaryNearby(s[n..], k - n);
      var j :| k - n - 3 <= j <= k - n && 0 <= j && IsBoundary(s[n..], j);
      assert IsBoundary(s, j + n);
    }
  }

  /** The last character boundary at or before `k`. */
  function BoundaryBefore(s: seq<byte>, k: nat): (j: nat)
    requires k <= |s|
    ensures j <= k
    ensures forall i :: j < i <= k ==> !IsBoundary(s, i)
  {
    if k == 0 || IsBoundary(s, k) then k else BoundaryBefore(s, k - 1)
  }

  lemma BoundaryBeforeIsBoundary(s: seq<byte>, k: nat)
    requires ValidUtf8(s) && k <= |s|
    ensures IsBoundary(s, BoundaryBefore(s, k)) && k - BoundaryBefore(s, k) <= 3
  {
    BoundaryNearby(s, k);
  }

  /** `truncate_text` as a function: the longest prefix of at most `max` bytes that is text. */
  function Truncated(value: Utf8, max: nat): (r: Utf8)
    ensures r <= value && |r| <= max
    ensures |value| <= max ==> r == value
    ensures |value| > max ==> max - |r| <= 3 && forall k :: |r| < k <= max ==> !IsBoundary(value, k)
  {
    if |value| <= max then value
    else
      BoundaryBeforeIsBoundary(value, max);
      BoundaryCut(value, BoundaryBefore(value, max));
      value[..BoundaryBefore(value, max)]
  }

  /** No longer prefix within the bound is well-formed text. */
  lemma {:induction false} TextEndsOnBoundary(s: seq<byte>, k: nat)
    requires ValidUtf8(s) && k <= |s| && ValidUtf8(s[..k])
    ensures IsBoundary(s, k)
  {
    if s != [] && 0 < k < |s| {
      var n := CharLength(s[..k]);
      assert CharLength(s) == n;
      assert s[n..][..k - n] == s[..k][n..];
      TextEndsOnBoundary(s[n..], k - n);
    }
  }

  /** The truncation is the longest prefix within the bound that is well-formed text at all. */
  lemma {:induction false} TruncatedIsLongest(value: Utf8, max: nat, k: nat)
    requires k <= max && k <= |value| && ValidUtf8(value[..k])
    ensures k <= |Truncated(value, max)|
  {
    TextEndsOnBoundary(value, k);
  }

  method Truncate(value: Utf8, max: nat) returns (r: Utf8)
    ensures r == Truncated(value, max)
  {
    if |value| <= max {
      return value;
    }
    var end := max;
    BoundaryBeforeIsBoundary(value, max);
    while !(end == |value| || !IsTail(value[end]))
      invariant BoundaryBefore(value, max) <= end <= max
      invariant BoundaryBefore(value, end) == BoundaryBefore(value, max)
      decreases end
    {
      end := end - 1;
    }
    BoundaryCut(value, end);
    r := value[..end];
  }
}
