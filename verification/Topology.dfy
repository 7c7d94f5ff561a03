/**
  Physical-core groups of the online CPUs (crates/sysboost-linux/src/topology.rs, 82-136 and 333-373).
  Threads of one core stay together.
 */
module Topology {
  import opened Outcome
  import opened Bytes
  import opened Mutation
  import opened Keys

  datatype Tier = PerformanceTier | EfficiencyTier | UnknownTier

  datatype CapacityMode = HeterogeneousProven | Homogeneous | UnknownMode

  datatype Cpu = Cpu(
    id: u32, package: Option<u32>, core: Option<u32>, siblings: CpuSet, capacity: Option<u64>, tier: Tier,
    numa: Option<u32>)

  datatype CpuTopology = CpuTopology(
    possible: Option<CpuSet>, online: Option<CpuSet>, cpus: seq<Cpu>, nodes: map<u32, CpuSet>, mode: CapacityMode,
    revision: Bytes32)

  datatype CoreKey = PackageCore(package: u32, core: u32) | SiblingSet(siblings: CpuSet)

  datatype CoreGroup = CoreGroup(cpus: CpuSet, tier: Tier, numa: Option<u32>)

  /** What the constructor of a topology guarantees: one record for each CPU, in order, online CPUs included. */
  predicate Normalized(t: CpuTopology) {
    && (forall i, j :: 0 <= i < j < |t.cpus| ==> t.cpus[i].id < t.cpus[j].id)
    && (t.online.Some? ==> forall c :: c in t.online.value ==> exists i :: 0 <= i < |t.cpus| && t.cpus[i].id == c)
  }

  function KeyOf(cpu: Cpu): CoreKey {
    if cpu.package.Some? && cpu.core.Some? then PackageCore(cpu.package.value, cpu.core.value)
    else SiblingSet(cpu.siblings)
  }

  /** Two records are of one core: with package and core numbers these decide, without them the listed threads. */
  predicate SameCore(a: Cpu, b: Cpu) {
    || (a.package.Some? && a.core.Some? && b.package == a.package && b.core == a.core)
    || ((a.package.None? || a.core.None?) && (b.package.None? || b.core.None?) && a.siblings == b.siblings)
  }

  lemma {:induction false} SameCoreSameKey(a: Cpu, b: Cpu)
    ensures KeyOf(a) == KeyOf(b) <==> SameCore(a, b)
  {
  }

  predicate IsOnline(t: CpuTopology, cpu: Cpu) {
    t.online.Some? && cpu.id in t.online.value
  }

  /** The online CPUs of one core among the first `n` records. */
  function MembersUpTo(t: CpuTopology, key: CoreKey, n: nat): seq<Cpu>
    requires n <= |t.cpus|
  {
    if n == 0 then []
    else
      var before := MembersUpTo(t, key, n - 1);
      if IsMember(t, t.cpus[n - 1], key) then before + [t.cpus[n - 1]] else before
  }

  predicate IsMember(t: CpuTopology, cpu: Cpu, key: CoreKey) {
    IsOnline(t, cpu) && KeyOf(cpu) == key
  }

  lemma {:induction false} MembersAre(t: CpuTopology, key: CoreKey, n: nat)
    requires n <= |t.cpus|
    ensures forall c :: c in MembersUpTo(t, key, n) ==> c in t.cpus && IsMember(t, c, key)
    ensures forall i :: 0 <= i < n && IsMember(t, t.cpus[i], key) ==> t.cpus[i] in MembersUpTo(t, key, n)
  {
    if n > 0 {
      MembersAre(t, key, n - 1);
    }
  }

  function Members(t: CpuTopology, key: CoreKey): seq<Cpu> { MembersUpTo(t, key, |t.cpus|) }

  /** The cores that have an online CPU. */
  function CoreKeys(t: CpuTopology): set<CoreKey> {
    set i | 0 <= i < |t.cpus| && IsOnline(t, t.cpus[i]) :: KeyOf(t.cpus[i])
  }

  function Ids(cpus: seq<Cpu>): (ids: seq<u32>)
    ensures |ids| == |cpus| && forall i :: 0 <= i < |cpus| ==> ids[i] == cpus[i].id
  {
    seq(|cpus|, i requires 0 <= i < |cpus| => cpus[i].id)
  }

  /** The planning unit of one core: a tier or a NUMA node counts only when every member agrees on it. */
  function GroupFor(members: seq<Cpu>): (g: CoreGroup)
    requires members != []
    ensures forall c :: c in g.cpus <==> exists i :: 0 <= i < |members| && members[i].id == c
  {
    var tier := members[0].tier;
    var numa := members[0].numa;
    CoreGroup(NewCpuSet(Ids(members)).value,
              if forall i :: 0 <= i < |members| ==> members[i].tier == tier then tier else UnknownTier,
              if forall i :: 0 <= i < |members| ==> members[i].numa == numa then numa else None)
  }

  /** A group has a NUMA node exactly when all its members are on that node, and a known tier exactly when they
      all are of that tier. */
  lemma {:induction false} GroupAgrees(members: seq<Cpu>, node: u32, tier: Tier)
    requires members != []
    ensures GroupFor(members).numa == Some(node) <==> forall i :: 0 <= i < |members| ==> members[i].numa == Some(node)
    ensures tier != UnknownTier ==>
      (GroupFor(members).tier == tier <==> forall i :: 0 <= i < |members| ==> members[i].tier == tier)
  {
    var g := GroupFor(members);
    if g.numa == Some(node) {
      assert members[0].numa == Some(node);
    }
  }

  /** A CPU is an online member of a core. */
  predicate Belongs(t: CpuTopology, key: CoreKey, c: u32) {
    exists i :: 0 <= i < |t.cpus| && t.cpus[i].id == c && IsMember(t, t.cpus[i], key)
  }

  /** The group of a core; a core without online CPUs has none, and gets a placeholder. */
  function GroupOf(t: CpuTopology, key: CoreKey): CoreGroup {
    if Members(t, key) == [] then CoreGroup([0], UnknownTier, None) else GroupFor(Members(t, key))
  }

  lemma {:induction false} KeyHasMembers(t: CpuTopology, key: CoreKey)
    requires key in CoreKeys(t)
    ensures Members(t, key) != []
  {
    MembersAre(t, key, |t.cpus|);
    var i :| 0 <= i < |t.cpus| && IsOnline(t, t.cpus[i]) && KeyOf(t.cpus[i]) == key;
    assert IsMember(t, t.cpus[i], key);
  }

  /** A group of a core holds exactly the online CPUs of that core. */
  lemma {:induction false} GroupHolds(t: CpuTopology, key: CoreKey)
    requires key in CoreKeys(t)
    ensures forall c :: c in GroupOf(t, key).cpus <==> Belongs(t, key, c)
  {
    KeyHasMembers(t, key);
    MembersAre(t, key, |t.cpus|);
    var members := Members(t, key);
    forall c: u32 ensures Belongs(t, key, c) <==> exists k :: 0 <= k < |members| && members[k].id == c {
      if k :| 0 <= k < |members| && members[k].id == c {
        assert members[k] in t.cpus;
      }
      if i :| 0 <= i < |t.cpus| && t.cpus[i].id == c && IsMember(t, t.cpus[i], key) {
        assert t.cpus[i] in members;
      }
    }
  }

  /** No CPU belongs to two cores. */
  lemma {:induction false} OneCore(t: CpuTopology, k: CoreKey, l: CoreKey, c: u32)
    requires Normalized(t) && Belongs(t, k, c) && Belongs(t, l, c)
    ensures k == l
  {
  }

  // ----- the list of groups

  /** Inserts a group behind every group whose CPU set is not larger. */
  function InsertGroup(g: CoreGroup, s: seq<CoreGroup>): (r: seq<CoreGroup>)
    ensures |r| == |s| + 1
    ensures forall x :: x in r <==> x in s || x == g
    decreases |s|
  {
    if s == [] then [g]
    else if !TextLess(g.cpus, s[|s| - 1].cpus) then s + [g]
    else
      assert s == s[..|s| - 1] + [s[|s| - 1]];
      InsertGroup(g, s[..|s| - 1]) + [s[|s| - 1]]
  }

  predicate SortedGroups(s: seq<CoreGroup>) {
    forall i, j :: 0 <= i < j < |s| ==> TextLess(s[i].cpus, s[j].cpus)
  }

  lemma {:induction false} InsertSorted(g: CoreGroup, s: seq<CoreGroup>)
    requires SortedGroups(s) && forall x :: x in s ==> x.cpus != g.cpus
    ensures SortedGroups(InsertGroup(g, s))
    decreases |s|
  {
    if s != [] {
      var rest, last := s[..|s| - 1], s[|s| - 1];
      assert s == rest + [last];
      TextTotal(g.cpus, last.cpus);
      if TextLess(g.cpus, last.cpus) {
        InsertSorted(g, rest);
        forall x | x in InsertGroup(g, rest) ensures TextLess(x.cpus, last.cpus) {
        }
      } else {
        forall i | 0 <= i < |s| ensures TextLess(s[i].cpus, g.cpus) {
          if i < |s| - 1 {
            TextTransitive(s[i].cpus, last.cpus, g.cpus);
          }
        }
      }
    }
  }

  /** The list holds the groups of the given cores, each once, in the order of their CPU sets. */
  ghost predicate ListsGroups(keys: set<CoreKey>, groupOf: CoreKey -> CoreGroup, groups: seq<CoreGroup>) {
    |groups| == |keys| && SortedGroups(groups) && Elements(groups) == Image(keys, groupOf)
  }

  function Elements(groups: seq<CoreGroup>): set<CoreGroup> {
    set g | g in groups
  }

  ghost function Image(keys: set<CoreKey>, groupOf: CoreKey -> CoreGroup): set<CoreGroup> {
    set key | key in keys :: groupOf(key)
  }

  /** Different cores have different CPU sets. */
  ghost predicate SetsDiffer(keys: set<CoreKey>, groupOf: CoreKey -> CoreGroup) {
    forall k, l :: k in keys && l in keys && groupOf(k).cpus == groupOf(l).cpus ==> k == l
  }

  lemma {:induction false} ListOne(
    keys: set<CoreKey>, groupOf: CoreKey -> CoreGroup, groups: seq<CoreGroup>, key: CoreKey)
    requires ListsGroups(keys, groupOf, groups) && key !in keys && SetsDiffer(keys + {key}, groupOf)
    ensures ListsGroups(keys + {key}, groupOf, InsertGroup(groupOf(key), groups))
  {
    forall x | x in groups ensures x.cpus != groupOf(key).cpus {
      assert x in Elements(groups);
      var k :| k in keys && groupOf(k) == x;
      assert k in keys + {key} && key in keys + {key};
    }
    InsertSorted(groupOf(key), groups);
    assert Elements(InsertGroup(groupOf(key), groups)) == Elements(groups) + {groupOf(key)};
    assert Image(keys + {key}, groupOf) == Image(keys, groupOf) + {groupOf(key)};
  }

  /** The groups are those of all cores with an online CPU. */
  ghost predicate GroupsOf(t: CpuTopology, groups: seq<CoreGroup>) {
    ListsGroups(CoreKeys(t), key => GroupOf(t, key), groups)
  }

  lemma {:induction false} CoresDiffer(t: CpuTopology)
    requires Normalized(t)
    ensures SetsDiffer(CoreKeys(t), key => GroupOf(t, key))
  {
    forall k, l | k in CoreKeys(t) && l in CoreKeys(t) && GroupOf(t, k).cpus == GroupOf(t, l).cpus ensures k == l {
      GroupHolds(t, k);
      GroupHolds(t, l);
      OneCore(t, k, l, GroupOf(t, k).cpus[0]);
    }
  }

  /** The members of every core that has one among the first `n` records. */
  ghost predicate Filed(t: CpuTopology, filed: map<CoreKey, seq<Cpu>>, n: nat)
    requires n <= |t.cpus|
  {
    && (forall key :: key in filed <==> exists i :: 0 <= i < n && IsMember(t, t.cpus[i], key))
    && (forall key :: key in filed ==> filed[key] == MembersUpTo(t, key, n))
  }

  lemma {:induction false} NoMembers(t: CpuTopology, key: CoreKey, n: nat)
    requires n <= |t.cpus|
    requires forall i :: 0 <= i < n ==> !IsMember(t, t.cpus[i], key)
    ensures MembersUpTo(t, key, n) == []
  {
    if n > 0 {
      NoMembers(t, key, n - 1);
    }
  }

  lemma {:induction false} FileOne(t: CpuTopology, filed: map<CoreKey, seq<Cpu>>, n: nat, more: map<CoreKey, seq<Cpu>>)
    requires n < |t.cpus| && Filed(t, filed, n)
    requires var cpu := t.cpus[n]; var key := KeyOf(cpu);
      more == if IsOnline(t, cpu) then filed[key := (if key in filed then filed[key] else []) + [cpu]] else filed
    ensures Filed(t, more, n + 1)
  {
    forall key ensures key in more <==> exists i :: 0 <= i < n + 1 && IsMember(t, t.cpus[i], key) {
      if key in filed {
        var i :| 0 <= i < n && IsMember(t, t.cpus[i], key);
      }
      assert IsMember(t, t.cpus[n], key) <==> IsOnline(t, t.cpus[n]) && KeyOf(t.cpus[n]) == key;
    }
    forall key | key in more ensures more[key] == MembersUpTo(t, key, n + 1) {
      if key !in filed {
        NoMembers(t, key, n);
      }
    }
  }

  method FileByCore(t: CpuTopology) returns (filed: map<CoreKey, seq<Cpu>>)
    ensures Filed(t, filed, |t.cpus|)
  {
    filed := map[];
    for i := 0 to |t.cpus|
      invariant Filed(t, filed, i)
    {
      var cpu := t.cpus[i];
      ghost var before := filed;
      if t.online.Some? && cpu.id in t.online.value {
        var key := KeyOf(cpu);
        filed := filed[key := (if key in filed then filed[key] else []) + [cpu]];
      }
      FileOne(t, before, i, filed);
    }
  }

  lemma {:induction false} FiledKeys(t: CpuTopology, filed: map<CoreKey, seq<Cpu>>)
    requires Filed(t, filed, |t.cpus|)
    ensures filed.Keys == CoreKeys(t)
    ensures forall key :: key in filed ==> filed[key] != [] && GroupFor(filed[key]) == GroupOf(t, key)
  {
    forall key ensures key in filed <==> key in CoreKeys(t) {
      if key in filed {
        var i :| 0 <= i < |t.cpus| && IsMember(t, t.cpus[i], key);
      }
      if key in CoreKeys(t) {
        var i :| 0 <= i < |t.cpus| && IsOnline(t, t.cpus[i]) && KeyOf(t.cpus[i]) == key;
        assert IsMember(t, t.cpus[i], key);
      }
    }
    forall key | key in filed ensures filed[key] != [] {
      KeyHasMembers(t, key);
    }
  }

  lemma {:induction false} FewerDiffer(keys: set<CoreKey>, fewer: set<CoreKey>, groupOf: CoreKey -> CoreGroup)
    requires SetsDiffer(keys, groupOf) && fewer <= keys
    ensures SetsDiffer(fewer, groupOf)
  {
  }

  method AddGroup(
    ghost keys: set<CoreKey>, ghost groupOf: CoreKey -> CoreGroup, groups: seq<CoreGroup>, ghost key: CoreKey, g: CoreGroup)
    returns (more: seq<CoreGroup>)
    requires ListsGroups(keys, groupOf, groups) && key !in keys && SetsDiffer(keys + {key}, groupOf)
    requires g == groupOf(key)
    ensures ListsGroups(keys + {key}, groupOf, more)
  {
    ListOne(keys, groupOf, groups, key);
    more := InsertGroup(g, groups);
  }

  predicate Split(all: set<CoreKey>, done: set<CoreKey>, left: set<CoreKey>) {
    done + left == all && done * left == {}
  }

  lemma {:induction false} Moved(all: set<CoreKey>, done: set<CoreKey>, left: set<CoreKey>, key: CoreKey)
    requires Split(all, done, left) && key in left
    ensures key !in done && done + {key} <= all
    ensures Split(all, done + {key}, left - {key})
  {
    assert key in done ==> key in done * left;
  }

  /** The groups of a map, sorted by their CPU sets. */
  method ListGroups(values: map<CoreKey, CoreGroup>, ghost groupOf: CoreKey -> CoreGroup) returns (groups: seq<CoreGroup>)
    requires SetsDiffer(values.Keys, groupOf)
    requires forall key :: key in values ==> values[key] == groupOf(key)
    ensures ListsGroups(values.Keys, groupOf, groups)
  {
    groups := [];
    var left := values.Keys;
    ghost var done: set<CoreKey> := {};
    while left != {}
      invariant Split(values.Keys, done, left)
      invariant ListsGroups(done, groupOf, groups)
      decreases |left|
    {
      var key :| key in left;
      Moved(values.Keys, done, left, key);
      FewerDiffer(values.Keys, done + {key}, groupOf);
      groups := AddGroup(done, groupOf, groups, key, values[key]);
      left := left - {key};
      done := done + {key};
    }
    assert done == values.Keys;
  }

  method GroupValues(t: CpuTopology, filed: map<CoreKey, seq<Cpu>>) returns (values: map<CoreKey, CoreGroup>)
    requires filed.Keys == CoreKeys(t)
    requires forall key :: key in filed ==> filed[key] != [] && GroupFor(filed[key]) == GroupOf(t, key)
    ensures values.Keys == CoreKeys(t)
    ensures forall key :: key in values ==> values[key] == GroupOf(t, key)
  {
    values := map key | key in filed :: GroupFor(filed[key]);
  }

  /** `core_groups`. */
  method CoreGroups(t: CpuTopology) returns (groups: seq<CoreGroup>)
    requires Normalized(t)
    ensures GroupsOf(t, groups)
  {
    var filed := FileByCore(t);
    FiledKeys(t, filed);
    var values := GroupValues(t, filed);
    CoresDiffer(t);
    groups := ListGroups(values, key => GroupOf(t, key));
  }

  // ----- the partition

  /** Every CPU of the groups is online, every online CPU is in a group, and no CPU is in two. */
  ghost predicate Partition(online: u32 -> bool, groups: seq<CoreGroup>) {
    && (forall c :: online(c) <==> exists i :: 0 <= i < |groups| && c in groups[i].cpus)
    && (forall i, j, c :: 0 <= i < j < |groups| && c in groups[i].cpus ==> c !in groups[j].cpus)
  }

  function OnlineIn(t: CpuTopology): u32 -> bool {
    c => t.online.Some? && c in t.online.value
  }

  lemma {:induction false} ListPartitions(
    keys: set<CoreKey>, groupOf: CoreKey -> CoreGroup, groups: seq<CoreGroup>,
    belongs: (CoreKey, u32) -> bool, online: u32 -> bool)
    requires ListsGroups(keys, groupOf, groups)
    requires forall k, c :: k in keys ==> (c in groupOf(k).cpus <==> belongs(k, c))
    requires forall k, l, c :: k in keys && l in keys && belongs(k, c) && belongs(l, c) ==> k == l
    requires forall c :: online(c) <==> exists k :: k in keys && belongs(k, c)
    ensures Partition(online, groups)
  {
    forall c ensures online(c) <==> exists i :: 0 <= i < |groups| && c in groups[i].cpus {
      if online(c) {
        var k :| k in keys && belongs(k, c);
        assert groupOf(k) in Image(keys, groupOf) && groupOf(k) in Elements(groups);
        var i :| 0 <= i < |groups| && groups[i] == groupOf(k);
      }
      if i :| 0 <= i < |groups| && c in groups[i].cpus {
        assert groups[i] in Elements(groups);
        var k :| k in keys && groupOf(k) == groups[i];
      }
    }
    forall i, j, c | 0 <= i < j < |groups| && c in groups[i].cpus ensures c !in groups[j].cpus {
      assert groups[i] in Elements(groups) && groups[j] in Elements(groups);
      var k :| k in keys && groupOf(k) == groups[i];
      var l :| l in keys && groupOf(l) == groups[j];
      TextTotal(groups[i].cpus, groups[j].cpus);
      assert belongs(k, c) && (c in groups[j].cpus ==> belongs(l, c));
    }
  }

  /** The groups partition the online CPUs. */
  lemma {:induction false} GroupsPartition(t: CpuTopology, groups: seq<CoreGroup>)
    requires Normalized(t) && GroupsOf(t, groups)
    ensures Partition(OnlineIn(t), groups)
  {
    forall k, c: u32 | k in CoreKeys(t) ensures c in GroupOf(t, k).cpus <==> Belongs(t, k, c) {
      GroupHolds(t, k);
    }
    forall k, l, c: u32 | Belongs(t, k, c) && Belongs(t, l, c) ensures k == l {
      OneCore(t, k, l, c);
    }
    forall c: u32 ensures OnlineIn(t)(c) <==> exists k :: k in CoreKeys(t) && Belongs(t, k, c) {
      OnlineBelongs(t, c);
    }
    ListPartitions(CoreKeys(t), key => GroupOf(t, key), groups, (k: CoreKey, c: u32) => Belongs(t, k, c), OnlineIn(t));
  }

  lemma {:induction false} OnlineBelongs(t: CpuTopology, c: u32)
    requires Normalized(t)
    ensures OnlineIn(t)(c) <==> exists k :: k in CoreKeys(t) && Belongs(t, k, c)
  {
    if OnlineIn(t)(c) {
      var n :| 0 <= n < |t.cpus| && t.cpus[n].id == c;
      assert IsMember(t, t.cpus[n], KeyOf(t.cpus[n]));
      assert Belongs(t, KeyOf(t.cpus[n]), c);
    }
  }
}
