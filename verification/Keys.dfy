/**
  The derived orders of candidate keys (crates/sysboost-core/src/planner.rs, 2693-2720): text is
  compared byte by byte, keys field by field, and a key without a target comes first.
 */
module Keys {
  import opened Outcome
  import opened Bytes
  import opened Mutation

  /** Lexicographic order of byte strings and of CPU lists. */
  predicate TextLess(a: seq<int>, b: seq<int>) {
    b != [] && (a == [] || a[0] < b[0] || (a[0] == b[0] && TextLess(a[1..], b[1..])))
  }

  lemma {:induction false} TextTotal(a: seq<int>, b: seq<int>)
    ensures TextLess(a, b) || a == b || TextLess(b, a)
    ensures TextLess(a, b) ==> a != b && !TextLess(b, a)
  {
    if a != [] && b != [] && a[0] == b[0] {
      TextTotal(a[1..], b[1..]);
      if a[1..] == b[1..] {
        assert a == [a[0]] + a[1..] && b == [b[0]] + b[1..];
      }
    }
  }

  lemma {:induction false} TextTransitive(a: seq<int>, b: seq<int>, c: seq<int>)
    requires TextLess(a, b) && TextLess(b, c)
    ensures TextLess(a, c)
  {
    if a != [] && a[0] == b[0] == c[0] {
      TextTransitive(a[1..], b[1..], c[1..]);
    }
  }

  datatype CandidateKey = CandidateKey(
    capability: Identifier, target: Option<Identifier>, operation: Identifier, order: u16)

  predicate TargetLess(a: Option<Identifier>, b: Option<Identifier>) {
    b.Some? && (a.None? || TextLess(a.value, b.value))
  }

  predicate KeyLess(a: CandidateKey, b: CandidateKey) {
    || TextLess(a.capability, b.capability)
    || (a.capability == b.capability
        && (|| TargetLess(a.target, b.target)
            || (a.target == b.target
                && (TextLess(a.operation, b.operation) || (a.operation == b.operation && a.order < b.order)))))
  }

  lemma {:induction false} TargetTotal(a: Option<Identifier>, b: Option<Identifier>)
    ensures TargetLess(a, b) || a == b || TargetLess(b, a)
    ensures TargetLess(a, b) ==> a != b && !TargetLess(b, a)
  {
    if a.Some? && b.Some? {
      TextTotal(a.value, b.value);
    }
  }

  lemma {:induction false} TargetTransitive(a: Option<Identifier>, b: Option<Identifier>, c: Option<Identifier>)
    requires TargetLess(a, b) && TargetLess(b, c)
    ensures TargetLess(a, c)
  {
    if a.Some? {
      TextTransitive(a.value, b.value, c.value);
    }
  }

  /** Keys are totally ordered. */
  lemma {:induction false} KeyTotal(a: CandidateKey, b: CandidateKey)
    ensures KeyLess(a, b) || a == b || KeyLess(b, a)
    ensures KeyLess(a, b) ==> a != b && !KeyLess(b, a)
  {
    TextTotal(a.capability, b.capability);
    TargetTotal(a.target, b.target);
    TextTotal(a.operation, b.operation);
  }

  lemma {:induction false} KeyTransitive(a: CandidateKey, b: CandidateKey, c: CandidateKey)
    requires KeyLess(a, b) && KeyLess(b, c)
    ensures KeyLess(a, c)
  {
    if TextLess(a.capability, b.capability) && TextLess(b.capability, c.capability) {
      TextTransitive(a.capability, b.capability, c.capability);
    }
    if TargetLess(a.target, b.target) && TargetLess(b.target, c.target) {
      TargetTransitive(a.target, b.target, c.target);
    }
    if TextLess(a.operation, b.operation) && TextLess(b.operation, c.operation) {
      TextTransitive(a.operation, b.operation, c.operation);
    }
  }

  // ----- what the orders are

  /** The lists agree on their first `k` elements and then the first one ends or has the smaller element. */
  predicate DiffersAt(a: seq<int>, b: seq<int>, k: nat) {
    k <= |a| && k < |b| && a[..k] == b[..k] && (k == |a| || a[k] < b[k])
  }

  lemma {:induction false} TextLessAt(a: seq<int>, b: seq<int>)
    ensures TextLess(a, b) <==> exists k: nat :: DiffersAt(a, b, k)
  {
    if TextLess(a, b) {
      if a == [] || a[0] < b[0] {
        assert DiffersAt(a, b, 0);
      } else {
        TextLessAt(a[1..], b[1..]);
        var k: nat :| DiffersAt(a[1..], b[1..], k);
        assert a[..k + 1] == [a[0]] + a[1..][..k] && b[..k + 1] == [b[0]] + b[1..][..k];
        assert DiffersAt(a, b, k + 1);
      }
    }
    if k: nat :| DiffersAt(a, b, k) {
      if k > 0 {
        assert a[0] == a[..k][0] && b[0] == b[..k][0];
        assert a[1..][..k - 1] == a[..k][1..] && b[1..][..k - 1] == b[..k][1..];
        assert DiffersAt(a[1..], b[1..], k - 1);
        TextLessAt(a[1..], b[1..]);
      }
    }
  }

  /** Keys go by capability, then target, none first, then operation, then position of the feature. */
  lemma {:induction false} KeyOrder(a: CandidateKey, b: CandidateKey)
    ensures TextLess(a.capability, b.capability) ==> KeyLess(a, b)
    ensures a.capability == b.capability ==>
      && (a.target.None? && b.target.Some? ==> KeyLess(a, b))
      && (a.target.Some? && b.target.Some? && TextLess(a.target.value, b.target.value) ==> KeyLess(a, b))
    ensures a.capability == b.capability && a.target == b.target ==>
      && (TextLess(a.operation, b.operation) ==> KeyLess(a, b))
      && (a.operation == b.operation && a.order < b.order ==> KeyLess(a, b))
  {
  }

  // ----- ascending lists

  ghost predicate Ascending<T>(less: (T, T) -> bool, s: seq<T>) {
    forall i, j :: 0 <= i < j < |s| ==> less(s[i], s[j])
  }

  ghost predicate Asymmetric<T(!new)>(less: (T, T) -> bool) {
    forall x, y :: less(x, y) ==> !less(y, x)
  }

  /** The last element of an ascending list is above, and different from, the ones before it. */
  lemma {:induction false} LastIsGreatest<T(!new)>(less: (T, T) -> bool, s: seq<T>, x: T)
    requires Asymmetric(less) && Ascending(less, s) && x in s
    ensures x in s[..|s| - 1] <==> x != s[|s| - 1]
    ensures x != s[|s| - 1] ==> less(x, s[|s| - 1])
  {
    var i :| 0 <= i < |s| && s[i] == x;
    assert forall j :: 0 <= j < |s| - 1 ==> less(s[j], s[|s| - 1]);
    assert i < |s| - 1 ==> s[..|s| - 1][i] == x;
  }

  /** Under an asymmetric order an ascending list is determined by its members. */
  lemma {:induction false} AscendingUnique<T(!new)>(less: (T, T) -> bool, a: seq<T>, b: seq<T>)
    requires Asymmetric(less) && Ascending(less, a) && Ascending(less, b)
    requires forall k :: k in a <==> k in b
    ensures a == b
    decreases |a|
  {
    if b != [] {
      assert b[0] in a;
    }
    if a != [] {
      assert a[0] in b;
      var x, y := a[|a| - 1], b[|b| - 1];
      LastIsGreatest(less, a, y);
      LastIsGreatest(less, b, x);
      var before, after := a[..|a| - 1], b[..|b| - 1];
      forall k ensures k in before <==> k in after {
        if k in a {
          LastIsGreatest(less, a, k);
          LastIsGreatest(less, b, k);
        }
      }
      AscendingUnique(less, before, after);
      assert a == before + [x] && b == after + [y];
    }
  }
}
