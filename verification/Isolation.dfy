/**
  Choosing workload CPUs under a housekeeping reserve (crates/sysboost-linux/src/topology.rs, 387-559).
 */
module Isolation {
  import opened Outcome
  import opened Bytes
  import opened Mutation
  import opened Keys
  import opened CpuList
  import opened Topology
  import Graph
  import Mask
  import Schedule

  const USIZE_MAX: nat := 0xFFFF_FFFF_FFFF_FFFF

  datatype Policy = Policy(preferPerformance: bool, count: Option<u64>, numaNode: Option<u32>)

  datatype Fallback =
    | HomogeneousTopology | CapacityMetadataUnavailable | NumaPreferenceUnavailable | ReducedToPreserveHousekeeping

  datatype IsolationPlan = IsolationPlan(
    workload: CpuSet, housekeeping: CpuSet, workloadMask: seq<bv8>, housekeepingMask: seq<bv8>,
    mode: CapacityMode, fallbacks: seq<Fallback>, revision: Bytes32, online: CpuSet, identity: Option<Bytes16>)

  // ----- ranking

  predicate Preferred(p: Policy, g: CoreGroup) {
    p.numaNode.Some? && g.numa == p.numaNode
  }

  function TierRank(t: Tier): nat {
    match t
    case PerformanceTier => 0
    case UnknownTier => 1
    case EfficiencyTier => 2
  }

  /** The tier counts only when asked for and proven. */
  function RankOf(p: Policy, mode: CapacityMode, g: CoreGroup): nat {
    if p.preferPerformance && mode.HeterogeneousProven? then TierRank(g.tier) else 0
  }

  /** The order of candidates: preferred node, then tier, then CPU set. */
  predicate Ahead(p: Policy, mode: CapacityMode, a: CoreGroup, b: CoreGroup) {
    || (Preferred(p, a) && !Preferred(p, b))
    || (Preferred(p, a) == Preferred(p, b)
        && (|| RankOf(p, mode, a) < RankOf(p, mode, b)
            || (RankOf(p, mode, a) == RankOf(p, mode, b) && TextLess(a.cpus, b.cpus))))
  }

  lemma {:induction false} AheadOrder(p: Policy, mode: CapacityMode, a: CoreGroup, b: CoreGroup, c: CoreGroup)
    ensures a.cpus != b.cpus ==> Ahead(p, mode, a, b) || Ahead(p, mode, b, a)
    ensures Ahead(p, mode, a, b) ==> a != b
    ensures Ahead(p, mode, a, b) && Ahead(p, mode, b, c) ==> Ahead(p, mode, a, c)
  {
    TextTotal(a.cpus, b.cpus);
    if TextLess(a.cpus, b.cpus) && TextLess(b.cpus, c.cpus) {
      TextTransitive(a.cpus, b.cpus, c.cpus);
    }
  }

  predicate Ranked(p: Policy, mode: CapacityMode, s: seq<CoreGroup>) {
    forall i, j :: 0 <= i < j < |s| ==> Ahead(p, mode, s[i], s[j])
  }

  /** Inserts a group in front of the groups it is ahead of. */
  function Place(p: Policy, mode: CapacityMode, g: CoreGroup, s: seq<CoreGroup>): (r: seq<CoreGroup>)
    ensures multiset(r) == multiset(s) + multiset{g}
    decreases |s|
  {
    if s == [] then [g]
    else
      assert s == s[..|s| - 1] + [s[|s| - 1]];
      if Ahead(p, mode, g, s[|s| - 1]) then Place(p, mode, g, s[..|s| - 1]) + [s[|s| - 1]] else s + [g]
  }

  function SortByRank(p: Policy, mode: CapacityMode, s: seq<CoreGroup>): (r: seq<CoreGroup>)
    ensures multiset(r) == multiset(s)
    decreases |s|
  {
    if s == [] then []
    else
      assert s == s[..|s| - 1] + [s[|s| - 1]];
      Place(p, mode, s[|s| - 1], SortByRank(p, mode, s[..|s| - 1]))
  }

  predicate SetsDistinct(s: seq<CoreGroup>) {
    forall i, j :: 0 <= i < j < |s| ==> s[i].cpus != s[j].cpus
  }

  lemma {:induction false} PlaceRanked(p: Policy, mode: CapacityMode, g: CoreGroup, s: seq<CoreGroup>)
    requires Ranked(p, mode, s) && forall x :: x in s ==> x.cpus != g.cpus
    ensures Ranked(p, mode, Place(p, mode, g, s))
    decreases |s|
  {
    if s != [] {
      var rest, last := s[..|s| - 1], s[|s| - 1];
      assert s == rest + [last];
      AheadOrder(p, mode, g, last, last);
      if Ahead(p, mode, g, last) {
        PlaceRanked(p, mode, g, rest);
        var placed := Place(p, mode, g, rest);
        forall i | 0 <= i < |placed| ensures Ahead(p, mode, placed[i], last) {
          assert placed[i] in multiset(rest) + multiset{g};
        }
      } else {
        forall i | 0 <= i < |s| ensures Ahead(p, mode, s[i], g) {
          if i < |s| - 1 {
            AheadOrder(p, mode, s[i], last, g);
          }
        }
      }
    }
  }

  lemma {:induction false} SortRanked(p: Policy, mode: CapacityMode, s: seq<CoreGroup>)
    requires SetsDistinct(s)
    ensures Ranked(p, mode, SortByRank(p, mode, s))
    decreases |s|
  {
    if s != [] {
      var rest, last := s[..|s| - 1], s[|s| - 1];
      assert s == rest + [last];
      SortRanked(p, mode, rest);
      var sorted := SortByRank(p, mode, rest);
      forall x | x in sorted ensures x.cpus != last.cpus {
        assert x in multiset(rest);
      }
      PlaceRanked(p, mode, last, sorted);
    }
  }

  // ----- the preferred node first

  function Filter(keep: CoreGroup -> bool, s: seq<CoreGroup>): (r: seq<CoreGroup>)
    ensures forall x :: x in r <==> x in s && keep(x)
    decreases |s|
  {
    if s == [] then []
    else
      assert s == s[..|s| - 1] + [s[|s| - 1]];
      var before := Filter(keep, s[..|s| - 1]);
      if keep(s[|s| - 1]) then before + [s[|s| - 1]] else before
  }

  lemma {:induction false} FilterSplits(keep: CoreGroup -> bool, drop: CoreGroup -> bool, s: seq<CoreGroup>)
    requires forall x :: x in s ==> (drop(x) <==> !keep(x))
    ensures multiset(Filter(keep, s) + Filter(drop, s)) == multiset(s)
    decreases |s|
  {
    if s != [] {
      var rest, last := s[..|s| - 1], s[|s| - 1];
      assert s == rest + [last];
      FilterSplits(keep, drop, rest);
    }
  }

  lemma {:induction false} FilterDistinct(keep: CoreGroup -> bool, s: seq<CoreGroup>)
    requires SetsDistinct(s)
    ensures SetsDistinct(Filter(keep, s))
    decreases |s|
  {
    if s != [] {
      var rest, last := s[..|s| - 1], s[|s| - 1];
      assert s == rest + [last];
      FilterDistinct(keep, rest);
      forall x | x in Filter(keep, rest) ensures x.cpus != last.cpus {
        assert x in rest;
      }
    }
  }

  lemma {:induction false} JoinDistinct(a: seq<CoreGroup>, b: seq<CoreGroup>, s: seq<CoreGroup>)
    requires SetsDistinct(s) && SetsDistinct(a) && SetsDistinct(b)
    requires forall x :: x in a ==> x in s && x !in b
    requires forall x :: x in b ==> x in s
    ensures SetsDistinct(a + b)
  {
    forall x, y | x in a && y in b ensures x.cpus != y.cpus {
      var i :| 0 <= i < |s| && s[i] == x;
      var j :| 0 <= j < |s| && s[j] == y;
      assert x != y;
    }
  }

  /** No CPU is in two groups. */
  predicate Disjoint(s: seq<CoreGroup>) {
    forall i, j, c :: 0 <= i < j < |s| && c in s[i].cpus ==> c !in s[j].cpus
  }

  lemma {:induction false} DisjointIsDistinct(s: seq<CoreGroup>)
    requires Disjoint(s)
    ensures SetsDistinct(s)
  {
    forall i, j | 0 <= i < j < |s| ensures s[i].cpus != s[j].cpus {
      assert s[i].cpus[0] in s[i].cpus;
    }
  }

  function AllCpus(s: seq<CoreGroup>): seq<u32> {
    if s == [] then [] else s[0].cpus + AllCpus(s[1..])
  }

  lemma {:induction false} AllCpusHold(s: seq<CoreGroup>, c: u32)
    ensures c in AllCpus(s) <==> exists i :: 0 <= i < |s| && c in s[i].cpus
  {
    if s != [] {
      AllCpusHold(s[1..], c);
      if i :| 0 <= i < |s| && c in s[i].cpus {
        assert i > 0 ==> s[1..][i - 1] == s[i];
      }
    }
  }

  /** The remainder after the preferred groups: groups none of whose CPUs is preferred. */
  lemma {:induction false} RemainderIsRest(p: Policy, s: seq<CoreGroup>, g: CoreGroup, preferred: seq<CoreGroup>)
    requires Disjoint(s) && g in s && preferred == Filter(x => Preferred(p, x), s)
    ensures (forall c :: c in g.cpus ==> c !in AllCpus(preferred)) <==> !Preferred(p, g)
  {
    if Preferred(p, g) {
      assert g in preferred;
      var i :| 0 <= i < |preferred| && preferred[i] == g;
      AllCpusHold(preferred, g.cpus[0]);
      assert g.cpus[0] in AllCpus(preferred);
    } else {
      forall c | c in g.cpus ensures c !in AllCpus(preferred) {
        AllCpusHold(preferred, c);
        if c in AllCpus(preferred) {
          var i :| 0 <= i < |preferred| && c in preferred[i].cpus;
          SharedCpu(s, g, preferred[i], c);
        }
      }
    }
  }

  lemma {:induction false} SharedCpu(s: seq<CoreGroup>, g: CoreGroup, h: CoreGroup, c: u32)
    requires Disjoint(s) && g in s && h in s && c in g.cpus && c in h.cpus
    ensures g == h
  {
    var i :| 0 <= i < |s| && s[i] == g;
    var j :| 0 <= j < |s| && s[j] == h;
  }
}
