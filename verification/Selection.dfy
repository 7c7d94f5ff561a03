/**
  The soft-isolation plan (crates/sysboost-linux/src/topology.rs, 387-559): greedy selection of whole core
  groups, the two CPU sets and their masks.
 */
module Selection {
  import opened Outcome
  import opened Bytes
  import opened Mutation
  import opened CpuList
  import opened Topology
  import opened Isolation
  import opened Keys
  import Graph
  import Mask
  import Schedule

  // ----- candidates

  /** The groups of the preferred node, then the groups that share no CPU with them: a permutation. */
  method Candidates(p: Policy, groups: seq<CoreGroup>) returns (candidates: seq<CoreGroup>, unavailable: bool)
    requires Disjoint(groups)
    ensures multiset(candidates) == multiset(groups) && SetsDistinct(candidates)
    ensures unavailable <==> p.numaNode.Some? && forall g :: g in groups ==> g.numa != p.numaNode
  {
    DisjointIsDistinct(groups);
    candidates, unavailable := groups, false;
    if p.numaNode.Some? {
      var keep := (g: CoreGroup) => Preferred(p, g);
      var preferred := Filter(keep, groups);
      if preferred == [] {
        unavailable := true;
        forall g | g in groups ensures g.numa != p.numaNode {
          assert g !in preferred;
        }
      } else {
        assert preferred[0] in preferred;
        var ids := AllCpus(preferred);
        var drop := (g: CoreGroup) => forall c :: c in g.cpus ==> c !in ids;
        var remainder := Filter(drop, groups);
        forall g | g in groups ensures drop(g) <==> !keep(g) {
          RemainderIsRest(p, groups, g, preferred);
        }
        FilterSplits(keep, drop, groups);
        FilterDistinct(keep, groups);
        FilterDistinct(drop, groups);
        JoinDistinct(preferred, remainder, groups);
        candidates := preferred + remainder;
      }
    }
  }

  // ----- greedy selection

  function Total(s: seq<CoreGroup>): nat {
    if s == [] then 0 else Total(s[..|s| - 1]) + |s[|s| - 1].cpus|
  }

  /** The first `k` groups are taken: as few as reach the request, at least one, and never more than allowed. */
  predicate Greedy(ranked: seq<CoreGroup>, k: nat, allowed: nat, requested: nat) {
    && 1 <= k <= allowed <= |ranked|
    && (k < allowed ==> Total(ranked[..k]) >= requested)
    && (k > 1 ==> Total(ranked[..k - 1]) < requested)
  }

  method SelectGroups(ranked: seq<CoreGroup>, allowed: nat, requested: nat) returns (selected: seq<CoreGroup>)
    requires 1 <= allowed <= |ranked| && requested > 0
    ensures selected <= ranked && Greedy(ranked, |selected|, allowed, requested)
  {
    selected := [];
    var logical := 0;
    var i := 0;
    while i < |ranked|
      invariant 0 <= i <= allowed && i <= |ranked| && selected == ranked[..i] && logical == Total(selected)
      invariant i > 1 ==> Total(ranked[..i - 1]) < requested
      decreases |ranked| - i
    {
      if |selected| >= allowed {
        break;
      }
      if logical >= requested && selected != [] {
        break;
      }
      assert ranked[..i + 1] == ranked[..i] + [ranked[i]];
      logical := logical + |ranked[i].cpus|;
      selected := selected + [ranked[i]];
      assert selected[..|selected| - 1] == ranked[..i];
      i := i + 1;
    }
  }

  lemma {:induction false} TotalGrows(s: seq<CoreGroup>, j: nat, k: nat)
    requires j <= k <= |s|
    ensures Total(s[..j]) <= Total(s[..k])
    decreases k
  {
    if j < k {
      assert s[..k][..k - 1] == s[..k - 1];
      TotalGrows(s, j, k - 1);
    }
  }

  // ----- counting CPUs

  lemma {:induction false} TotalSplit(a: seq<CoreGroup>, g: CoreGroup)
    ensures Total([g] + a) == |g.cpus| + Total(a)
    decreases |a|
  {
    if a != [] {
      var s := [g] + a;
      assert s[..|s| - 1] == [g] + a[..|a| - 1];
      TotalSplit(a[..|a| - 1], g);
    } else {
      assert [g][..0] == [];
      assert [g] + a == [g];
    }
  }

  predicate NoRepeats(s: seq<u32>) {
    forall i, j :: 0 <= i < j < |s| ==> s[i] != s[j]
  }

  lemma {:induction false} JoinNoRepeats(a: seq<u32>, b: seq<u32>)
    requires NoRepeats(a) && NoRepeats(b) && forall c :: c in a ==> c !in b
    ensures NoRepeats(a + b)
  {
    forall i, j | 0 <= i < j < |a + b| ensures (a + b)[i] != (a + b)[j] {
      if i < |a| <= j {
        assert a[i] in a && b[j - |a|] in b;
      }
    }
  }

  /** The CPUs of disjoint groups, one group after the other, do not repeat. */
  lemma {:induction false} AllCpusCount(s: seq<CoreGroup>)
    requires Disjoint(s)
    ensures NoRepeats(AllCpus(s)) && |AllCpus(s)| == Total(s)
    decreases |s|
  {
    if s != [] {
      var rest := s[1..];
      assert Disjoint(rest);
      AllCpusCount(rest);
      TotalSplit(rest, s[0]);
      assert s == [s[0]] + rest;
      forall c | c in s[0].cpus ensures c !in AllCpus(rest) {
        AllCpusHold(rest, c);
      }
      JoinNoRepeats(s[0].cpus, AllCpus(rest));
    }
  }

  /** Sorting a list without repeats keeps its length. */
  lemma {:induction false} SortKeepsCount(s: seq<u32>)
    requires NoRepeats(s)
    ensures |SortDedup(s)| == |s|
    decreases |s|
  {
    if s != [] {
      assert NoRepeats(s[1..]);
      SortKeepsCount(s[1..]);
      InsertCounts(s[0], SortDedup(s[1..]));
    }
  }

  lemma {:induction false} InsertCounts(x: u32, s: seq<u32>)
    requires StrictlyIncreasing(s) && x !in s
    ensures |Insert(x, s)| == |s| + 1
    decreases |s|
  {
    if s != [] && x > s[0] {
      InsertCounts(x, s[1..]);
    }
  }

  /** A list without repeats whose members are in `whole`, which has another member, is shorter than it. */
  lemma {:induction false} FewerMembers(part: seq<u32>, whole: seq<u32>, other: u32)
    requires NoRepeats(part) && (forall c :: c in part ==> c in whole && c != other) && other in whole
    ensures |part| < |whole|
  {
    var members := Schedule.Members(whole);
    Graph.DistinctFits(part, members - {other as nat});
    Schedule.CardinalityAtMost(whole);
  }

  // ----- the plan

  function Requested(p: Policy): nat {
    if p.count.Some? then p.count.value else USIZE_MAX
  }

  /** Half of the groups, rounded up, stay with housekeeping. */
  function Reserve(n: nat): nat { (n + 1) / 2 }

  /** When a plan exists. */
  ghost predicate Plannable(t: CpuTopology, p: Policy) {
    && t.online.Some?
    && |CoreKeys(t)| >= 2
    && p.count != Some(0)
    && forall c :: c in t.online.value ==> c < CPUSET_CAPACITY_LIMIT
  }

  /** All core groups, at least two, in ranked order. */
  ghost predicate RankedGroupsOf(t: CpuTopology, p: Policy, ranked: seq<CoreGroup>) {
    && (exists groups :: GroupsOf(t, groups) && multiset(ranked) == multiset(groups))
    && Ranked(p, t.mode, ranked)
    && |ranked| == |CoreKeys(t)| >= 2
  }

  /** Workload and housekeeping are whole groups and together the online set. */
  ghost predicate SetsSplit(online: CpuSet, ranked: seq<CoreGroup>, k: nat, workload: CpuSet, housekeeping: CpuSet)
    requires k <= |ranked|
  {
    && (forall c :: c in workload ==> c !in housekeeping)
    && (forall c :: c in online <==> c in workload || c in housekeeping)
    && (forall i, c :: 0 <= i < k && c in ranked[i].cpus ==> c in workload)
    && (forall i, c :: k <= i < |ranked| && c in ranked[i].cpus ==> c in housekeeping)
    && |workload| == Total(ranked[..k]) < |online|
  }

  /** The masks are those of the two sets, are disjoint and join to the online set. */
  ghost predicate MasksSplit(
    online: CpuSet, workload: CpuSet, housekeeping: CpuSet, workloadMask: seq<bv8>, housekeepingMask: seq<bv8>)
  {
    && (forall c: nat :: Mask.Holds(workloadMask, c) <==> c in workload)
    && (forall c: nat :: Mask.Holds(housekeepingMask, c) <==> c in housekeeping)
    && (forall c: nat :: c in online <==> Mask.Holds(workloadMask, c) || Mask.Holds(housekeepingMask, c))
    && (forall c: nat :: !(Mask.Holds(workloadMask, c) && Mask.Holds(housekeepingMask, c)))
  }

  // ----- facts about ranked groups

  predicate InSome(groups: seq<CoreGroup>, c: u32) {
    exists i :: 0 <= i < |groups| && c in groups[i].cpus
  }

  lemma {:induction false} SameMember(a: seq<CoreGroup>, b: seq<CoreGroup>, c: u32)
    requires multiset(a) == multiset(b) && InSome(a, c)
    ensures InSome(b, c)
  {
    var i :| 0 <= i < |a| && c in a[i].cpus;
    assert a[i] in multiset(b);
    var j :| 0 <= j < |b| && b[j] == a[i];
  }

  lemma {:induction false} NotShared(s: seq<CoreGroup>, g: CoreGroup, h: CoreGroup, c: u32)
    requires Disjoint(s) && g in s && h in s && g != h && c in g.cpus
    ensures c !in h.cpus
  {
    var i :| 0 <= i < |s| && s[i] == g;
    var j :| 0 <= j < |s| && s[j] == h;
  }

  /** Ranking the groups of a partition leaves a partition. */
  lemma {:induction false} RankedPartition(
    p: Policy, mode: CapacityMode, online: CpuSet, groups: seq<CoreGroup>, ranked: seq<CoreGroup>)
    requires CoveredBy(online, groups)
    requires multiset(ranked) == multiset(groups) && Ranked(p, mode, ranked)
    ensures CoveredBy(online, ranked)
  {
    forall i, j, c | 0 <= i < j < |ranked| && c in ranked[i].cpus ensures c !in ranked[j].cpus {
      assert ranked[i] in multiset(groups) && ranked[j] in multiset(groups);
      AheadOrder(p, mode, ranked[i], ranked[j], ranked[j]);
      NotShared(groups, ranked[i], ranked[j], c);
    }
    forall c | c in online ensures exists i :: 0 <= i < |ranked| && c in ranked[i].cpus {
      assert InSome(groups, c);
      SameMember(groups, ranked, c);
    }
    forall i, c | 0 <= i < |ranked| && c in ranked[i].cpus ensures c in online {
      assert InSome(ranked, c);
      SameMember(ranked, groups, c);
    }
  }

  /** The online CPUs outside a set. */
  function Others(online: seq<u32>, workload: seq<u32>): (r: seq<u32>)
    ensures forall c :: c in r <==> c in online && c !in workload
    decreases |online|
  {
    if online == [] then []
    else
      assert online == online[..|online| - 1] + [online[|online| - 1]];
      var before := Others(online[..|online| - 1], workload);
      if online[|online| - 1] in workload then before else before + [online[|online| - 1]]
  }

  predicate CoveredBy(online: seq<u32>, ranked: seq<CoreGroup>) {
    && Disjoint(ranked)
    && (forall c :: c in online ==> exists i :: 0 <= i < |ranked| && c in ranked[i].cpus)
    && (forall i, c :: 0 <= i < |ranked| && c in ranked[i].cpus ==> c in online)
  }

  lemma {:induction false} PrefixDisjoint(ranked: seq<CoreGroup>, k: nat)
    requires Disjoint(ranked) && k <= |ranked|
    ensures Disjoint(ranked[..k])
  {
  }

  /** The workload set of the first `k` groups: their CPUs, counted exactly, and short of all of them. */
  lemma {:induction false} WorkloadSet(online: CpuSet, ranked: seq<CoreGroup>, k: nat, workload: CpuSet)
    requires CoveredBy(online, ranked) && 1 <= k < |ranked|
    requires NewCpuSet(AllCpus(ranked[..k])) == Ok(workload)
    ensures |workload| == Total(ranked[..k]) < |online|
    ensures forall c :: c in workload <==> exists i :: 0 <= i < k && c in ranked[i].cpus
    ensures forall i, c :: k <= i < |ranked| && c in ranked[i].cpus ==> c !in workload
    ensures Others(online, workload) != []
  {
    var taken := ranked[..k];
    PrefixDisjoint(ranked, k);
    AllCpusCount(taken);
    SortKeepsCount(AllCpus(taken));
    forall c ensures c in workload <==> exists i :: 0 <= i < k && c in ranked[i].cpus {
      AllCpusHold(taken, c);
      if i :| 0 <= i < k && c in ranked[i].cpus {
        assert taken[i] == ranked[i];
      }
    }
    var spare := ranked[k].cpus[0];
    assert spare in ranked[k].cpus;
    assert spare in online && spare !in workload;
    FewerMembers(workload, online, spare);
    assert spare in Others(online, workload);
  }

  lemma {:induction false} GroupsNeedCpus(online: CpuSet, ranked: seq<CoreGroup>)
    requires CoveredBy(online, ranked) && |ranked| >= 2
    ensures |online| >= 2
  {
    var c, d := ranked[0].cpus[0], ranked[1].cpus[0];
    assert c in ranked[0].cpus && d in ranked[1].cpus;
    assert c in online && d in online;
    var i :| 0 <= i < |online| && online[i] == c;
    var j :| 0 <= j < |online| && online[j] == d;
    assert i != j;
  }

  /** The request is capped exactly when the workload is smaller than asked for. */
  lemma {:induction false} CappedMeansSmaller(
    online: CpuSet, ranked: seq<CoreGroup>, k: nat, allowed: nat, requested: nat)
    requires Greedy(ranked, k, allowed, requested) && Total(ranked[..k]) < |online|
    ensures requested > |online| - 1 || requested > Total(ranked[..allowed]) <==> Total(ranked[..k]) < requested
  {
    TotalGrows(ranked, k, allowed);
  }

  /** The online set is covered by the core groups. */
  lemma {:induction false} GroupsCover(t: CpuTopology, groups: seq<CoreGroup>)
    requires Normalized(t) && GroupsOf(t, groups) && t.online.Some?
    ensures CoveredBy(t.online.value, groups)
  {
    GroupsPartition(t, groups);
    var online := OnlineIn(t);
    forall c: u32 | c in t.online.value ensures exists i :: 0 <= i < |groups| && c in groups[i].cpus {
      assert online(c);
    }
    forall i, c: u32 | 0 <= i < |groups| && c in groups[i].cpus ensures c in t.online.value {
      assert online(c);
    }
  }

  /** The plan takes the first `k` ranked groups as workload. */
  ghost predicate IsolatedBy(
    t: CpuTopology, p: Policy, identity: Option<Bytes16>, ranked: seq<CoreGroup>, k: nat, plan: IsolationPlan)
  {
    && t.online.Some? && k <= |ranked|
    && Greedy(ranked, k, |ranked| - Reserve(|ranked|), Requested(p))
    && SetsSplit(t.online.value, ranked, k, plan.workload, plan.housekeeping)
    && MasksSplit(t.online.value, plan.workload, plan.housekeeping, plan.workloadMask, plan.housekeepingMask)
    && FallbacksSaid(t, p, ranked, plan)
    && plan.mode == t.mode && plan.revision == t.revision && plan.online == t.online.value && plan.identity == identity
  }

  /** Group `g` was rightly taken and `h` left: a group of the preferred node goes first; among equals, if performance
      is asked for and proven, performance groups go before groups of unknown tier and these before efficiency
      groups; what is still equal goes by CPU numbers. */
  predicate TakenFirst(t: CpuTopology, p: Policy, g: CoreGroup, h: CoreGroup) {
    && (p.numaNode.Some? && h.numa == p.numaNode ==> g.numa == p.numaNode)
    && ((p.numaNode.None? || (g.numa == p.numaNode <==> h.numa == p.numaNode)) ==>
          if p.preferPerformance && t.mode.HeterogeneousProven? then
            && (h.tier.PerformanceTier? ==> g.tier.PerformanceTier?)
            && (h.tier.UnknownTier? ==> !g.tier.EfficiencyTier?)
            && (g.tier == h.tier ==> TextLess(g.cpus, h.cpus))
          else TextLess(g.cpus, h.cpus))
  }

  /** At least half of the groups stay with housekeeping; groups are taken until the request is reached or no more may
      be taken, and not one more. */
  predicate TakenAsAsked(p: Policy, ranked: seq<CoreGroup>, k: nat, plan: IsolationPlan)
    requires k <= |ranked|
  {
    && 1 <= k && 2 * k <= |ranked|
    && (p.count.Some? ==>
          && (2 * (k + 1) <= |ranked| ==> |plan.workload| >= p.count.value)
          && (k > 1 ==> Total(ranked[..k - 1]) < p.count.value))
    && (p.count.None? ==> 2 * (k + 1) > |ranked|)
  }

  lemma {:induction false} IncreasingFrom(s: seq<u32>, i: nat)
    requires StrictlyIncreasing(s) && i < |s|
    ensures s[i] >= i
  {
    if i > 0 {
      IncreasingFrom(s, i - 1);
    }
  }

  lemma {:induction false} GreedyTakesAsAsked(
    t: CpuTopology, p: Policy, identity: Option<Bytes16>, ranked: seq<CoreGroup>, k: nat, plan: IsolationPlan)
    requires Plannable(t, p) && IsolatedBy(t, p, identity, ranked, k, plan)
    ensures TakenAsAsked(p, ranked, k, plan)
  {
    var online := t.online.value;
    assert online[|online| - 1] in online;
    IncreasingFrom(online, |online| - 1);
  }

  /** No thread of a core is split off: online CPUs of one core are on one side. */
  predicate CoresWhole(t: CpuTopology, plan: IsolationPlan) {
    forall a, b :: a in t.cpus && b in t.cpus && IsOnline(t, a) && IsOnline(t, b) && SameCore(a, b) ==>
      (a.id in plan.workload <==> b.id in plan.workload)
  }

  /** What a plan must satisfy. */
  ghost predicate Sound(
    t: CpuTopology, p: Policy, identity: Option<Bytes16>, ranked: seq<CoreGroup>, k: nat, plan: IsolationPlan)
  {
    && RankedGroupsOf(t, p, ranked) && IsolatedBy(t, p, identity, ranked, k, plan)
    && (forall i, j :: 0 <= i < k <= j < |ranked| ==> TakenFirst(t, p, ranked[i], ranked[j]))
    && TakenAsAsked(p, ranked, k, plan)
    && CoresWhole(t, plan)
  }

  lemma {:induction false} AheadIsTakenFirst(t: CpuTopology, p: Policy, g: CoreGroup, h: CoreGroup)
    requires Ahead(p, t.mode, g, h)
    ensures TakenFirst(t, p, g, h)
  {
  }

  lemma {:induction false} GroupListed(t: CpuTopology, groups: seq<CoreGroup>, key: CoreKey)
    requires GroupsOf(t, groups) && key in CoreKeys(t)
    ensures GroupOf(t, key) in groups
  {
    var groupOf := key => GroupOf(t, key);
    assert groupOf(key) in Image(CoreKeys(t), groupOf);
    assert GroupOf(t, key) in Elements(groups);
  }

  lemma {:induction false} BelongsToCore(t: CpuTopology, cpu: Cpu, key: CoreKey)
    requires cpu in t.cpus && IsOnline(t, cpu) && KeyOf(cpu) == key
    ensures key in CoreKeys(t) && Belongs(t, key, cpu.id)
  {
    var i :| 0 <= i < |t.cpus| && t.cpus[i] == cpu;
    assert IsMember(t, t.cpus[i], key);
  }

  /** Whole groups hold whole cores. */
  lemma {:induction false} GroupsHoldCores(
    t: CpuTopology, groups: seq<CoreGroup>, ranked: seq<CoreGroup>, k: nat, plan: IsolationPlan)
    requires Normalized(t) && GroupsOf(t, groups) && multiset(ranked) == multiset(groups) && t.online.Some?
    requires k <= |ranked| && SetsSplit(t.online.value, ranked, k, plan.workload, plan.housekeeping)
    ensures CoresWhole(t, plan)
  {
    forall a, b | a in t.cpus && b in t.cpus && IsOnline(t, a) && IsOnline(t, b) && SameCore(a, b)
      ensures a.id in plan.workload <==> b.id in plan.workload
    {
      SameCoreSameKey(a, b);
      var key := KeyOf(a);
      var g := GroupOf(t, key);
      BelongsToCore(t, a, key);
      BelongsToCore(t, b, key);
      GroupHolds(t, key);
      assert a.id in g.cpus && b.id in g.cpus;
      GroupListed(t, groups, key);
      assert g in multiset(ranked);
      var n :| 0 <= n < |ranked| && ranked[n] == g;
    }
  }

  /** Each fallback is reported exactly when it happened. */
  predicate FallbacksSaid(t: CpuTopology, p: Policy, ranked: seq<CoreGroup>, plan: IsolationPlan) {
    && (HomogeneousTopology in plan.fallbacks <==> p.preferPerformance && t.mode.Homogeneous?)
    && (CapacityMetadataUnavailable in plan.fallbacks <==> p.preferPerformance && t.mode.UnknownMode?)
    && (NumaPreferenceUnavailable in plan.fallbacks
        <==> p.numaNode.Some? && forall g :: g in ranked ==> g.numa != p.numaNode)
    && (ReducedToPreserveHousekeeping in plan.fallbacks <==> p.count.Some? && |plan.workload| < p.count.value)
  }

  /** The groups in the order in which they are offered to the workload. */
  method RankGroups(t: CpuTopology, p: Policy) returns (ranked: seq<CoreGroup>, unavailable: bool)
    requires Normalized(t) && t.online.Some?
    ensures exists groups :: GroupsOf(t, groups) && multiset(ranked) == multiset(groups)
    ensures |ranked| == |CoreKeys(t)| && Ranked(p, t.mode, ranked) && CoveredBy(t.online.value, ranked)
    ensures unavailable <==> p.numaNode.Some? && forall g :: g in ranked ==> g.numa != p.numaNode
  {
    var groups := CoreGroups(t);
    GroupsCover(t, groups);
    var candidates, missing := Candidates(p, groups);
    SortRanked(p, t.mode, candidates);
    ranked, unavailable := SortByRank(p, t.mode, candidates), missing;
    SameLength(ranked, groups);
    RankedPartition(p, t.mode, t.online.value, groups, ranked);
    forall g ensures g in ranked <==> g in groups {
      assert g in multiset(ranked) <==> g in multiset(groups);
    }
  }

  lemma {:induction false} SameLength(a: seq<CoreGroup>, b: seq<CoreGroup>)
    requires multiset(a) == multiset(b)
    ensures |a| == |b|
  {
    assert |multiset(a)| == |a| && |multiset(b)| == |b|;
  }

  /** The two sets made of the first `k` groups and of the rest. */
  method SplitSets(online: CpuSet, ranked: seq<CoreGroup>, k: nat) returns (workload: CpuSet, housekeeping: CpuSet)
    requires CoveredBy(online, ranked) && 1 <= k < |ranked|
    ensures SetsSplit(online, ranked, k, workload, housekeeping)
  {
    assert ranked[0].cpus[0] in ranked[0].cpus;
    AllCpusHold(ranked[..k], ranked[0].cpus[0]);
    assert ranked[..k][0] == ranked[0];
    workload := NewCpuSet(AllCpus(ranked[..k])).value;
    WorkloadSet(online, ranked, k, workload);
    housekeeping := NewCpuSet(Others(online, workload)).value;
  }

  /** The masks of the two sets, if every online CPU fits one. */
  method MaskSets(online: CpuSet, workload: CpuSet, housekeeping: CpuSet) returns (r: Result<(seq<bv8>, seq<bv8>)>)
    requires forall c :: c in workload ==> c !in housekeeping
    requires forall c :: c in online <==> c in workload || c in housekeeping
    ensures r.Ok? <==> forall c :: c in online ==> c < CPUSET_CAPACITY_LIMIT
    ensures r.Ok? ==> MasksSplit(online, workload, housekeeping, r.value.0, r.value.1)
  {
    LastIsLargest(workload);
    LastIsLargest(housekeeping);
    var w := Mask.FromCpuSet(workload);
    if w.Err? {
      return Err(w.code);
    }
    var h := Mask.FromCpuSet(housekeeping);
    if h.Err? {
      return Err(h.code);
    }
    r := Ok((w.value, h.value));
  }

  lemma {:induction false} LastIsLargest(s: CpuSet)
    ensures forall c :: c in s ==> c <= s[|s| - 1]
    ensures s[|s| - 1] in s
  {
  }

  /** The fallbacks in the order of the decisions. */
  method Fallbacks(t: CpuTopology, p: Policy, unavailable: bool, capped: bool) returns (fallbacks: seq<Fallback>)
    ensures HomogeneousTopology in fallbacks <==> p.preferPerformance && t.mode.Homogeneous?
    ensures CapacityMetadataUnavailable in fallbacks <==> p.preferPerformance && t.mode.UnknownMode?
    ensures NumaPreferenceUnavailable in fallbacks <==> unavailable
    ensures ReducedToPreserveHousekeeping in fallbacks <==> capped
  {
    fallbacks := [];
    if p.preferPerformance && !t.mode.HeterogeneousProven? {
      fallbacks := [if t.mode.Homogeneous? then HomogeneousTopology else CapacityMetadataUnavailable];
    }
    if unavailable {
      fallbacks := fallbacks + [NumaPreferenceUnavailable];
    }
    if capped {
      fallbacks := fallbacks + [ReducedToPreserveHousekeeping];
    }
  }

  /** Assembles the plan once the groups are ranked; only a CPU beyond the mask bound can still refuse it.
      That the workload stays short of the online set, which the source tests again here, is part of the split. */
  method Assemble(t: CpuTopology, p: Policy, identity: Option<Bytes16>, ranked: seq<CoreGroup>, unavailable: bool)
    returns (r: Result<IsolationPlan>, ghost k: nat)
    requires t.online.Some? && CoveredBy(t.online.value, ranked) && |ranked| >= 2 && Requested(p) > 0
    requires unavailable <==> p.numaNode.Some? && forall g :: g in ranked ==> g.numa != p.numaNode
    ensures r.Ok? <==> forall c :: c in t.online.value ==> c < CPUSET_CAPACITY_LIMIT
    ensures r.Ok? ==> IsolatedBy(t, p, identity, ranked, k, r.value)
  {
    var online := t.online.value;
    var allowed := |ranked| - Reserve(|ranked|);
    var requested := Requested(p);
    var capped := p.count.Some? && (requested > |online| - 1 || requested > Total(ranked[..allowed]));
    var fallbacks := Fallbacks(t, p, unavailable, capped);
    var selected := SelectGroups(ranked, allowed, requested);
    k := |selected|;
    var workload, housekeeping := SplitSets(online, ranked, |selected|);
    var masks := MaskSets(online, workload, housekeeping);
    if masks.Err? {
      return Err(masks.code), k;
    }
    CappedMeansSmaller(online, ranked, k, allowed, requested);
    r := Ok(IsolationPlan(workload, housekeeping, masks.value.0, masks.value.1,
                          t.mode, fallbacks, t.revision, online, identity));
  }

  /** `select_for_target`: a plan exists exactly when the online set is known, has at least two core groups, the
      request is not zero, and every online CPU fits a mask; then the plan is sound. */
  method SelectForTarget(t: CpuTopology, p: Policy, identity: Option<Bytes16>)
    returns (r: Result<IsolationPlan>, ghost ranked: seq<CoreGroup>, ghost k: nat)
    requires Normalized(t)
    ensures r.Ok? <==> Plannable(t, p)
    ensures t.online.None? ==> r == Err(CapabilityError)
    ensures t.online.Some? && |CoreKeys(t)| < 2 ==> r == Err(PlanningError)
    ensures t.online.Some? && |CoreKeys(t)| >= 2 && p.count == Some(0) ==> r == Err(InvalidInput)
    ensures r.Ok? ==> Sound(t, p, identity, ranked, k, r.value)
  {
    ranked, k := [], 0;
    if t.online.None? {
      return Err(CapabilityError), ranked, k;
    }
    var offered, unavailable := RankGroups(t, p);
    ranked := offered;
    if |t.online.value| < 2 || |offered| < 2 {
      if |offered| >= 2 {
        GroupsNeedCpus(t.online.value, offered);
      }
      return Err(PlanningError), ranked, k;
    }
    if Requested(p) == 0 {
      return Err(InvalidInput), ranked, k;
    }
    r, k := Assemble(t, p, identity, offered, unavailable);
    if r.Ok? {
      GreedyTakesAsAsked(t, p, identity, ranked, k, r.value);
      forall i, j | 0 <= i < k <= j < |ranked| ensures TakenFirst(t, p, ranked[i], ranked[j]) {
        AheadIsTakenFirst(t, p, ranked[i], ranked[j]);
      }
      ghost var groups :| GroupsOf(t, groups) && multiset(ranked) == multiset(groups);
      GroupsHoldCores(t, groups, ranked, k, r.value);
    }
  }

  // ----- the last check before apply

  /** `validate_before_apply`. */
  function ValidateBeforeApply(plan: IsolationPlan, current: CpuTopology, identity: Option<Bytes16>): Result<Unit> {
    if current.revision != plan.revision || current.online != Some(plan.online) then Err(TargetError)
    else if current.online.None? then Err(TargetError)
    else if exists c :: c in plan.workload + plan.housekeeping && c !in current.online.value then Err(TargetError)
    else if plan.identity != identity then Err(TargetError)
    else Ok(Unit)
  }

  /** A plan made by selection passes exactly as long as revision, online set and target identity are those it was
      made for; that its CPUs are online then follows. */
  lemma {:induction false} ValidatesWhileUnchanged(
    t: CpuTopology, p: Policy, identity: Option<Bytes16>, ranked: seq<CoreGroup>, k: nat, plan: IsolationPlan,
    current: CpuTopology, found: Option<Bytes16>)
    requires IsolatedBy(t, p, identity, ranked, k, plan)
    ensures ValidateBeforeApply(plan, current, found).Ok?
            <==> current.revision == t.revision && current.online == t.online && found == identity
  {
    if current.online == t.online {
      forall c | c in plan.workload + plan.housekeeping ensures c in current.online.value {
      }
    }
  }
}
