/**
  Normalizing discovered facts into a topology (crates/sysboost-linux/src/topology.rs, 142-270, 917-975).
  The revision digest is any function of the normalized facts.
 */
module TopologyFacts {
  import opened Outcome
  import opened Bytes
  import opened Mutation
  import opened CpuList
  import opened Topology

  datatype Entry = Entry(
    cpu: u32, online: bool, package: Option<u32>, core: Option<u32>, siblings: Option<seq<byte>>,
    capacity: Option<u64>)

  datatype NumaNode = NumaNode(id: u32, cpus: Option<seq<byte>>)

  datatype Facts = Facts(
    possible: Option<seq<byte>>, online: Option<seq<byte>>, entries: seq<Entry>, nodes: seq<NumaNode>)

  type Parser = seq<byte> -> Result<CpuSet>

  type Digests = (Option<CpuSet>, Option<CpuSet>, seq<Cpu>, map<u32, CpuSet>) -> Bytes32

  /** The parser reports nothing but a capability error. */
  ghost predicate Refuses(parse: Parser) {
    forall text :: parse(text).Err? ==> parse(text).code == CapabilityError
  }

  predicate Readable(parse: Parser, text: Option<seq<byte>>) { text.Some? ==> parse(text.value).Ok? }

  function ParseOptional(parse: Parser, text: Option<seq<byte>>): (r: Result<Option<CpuSet>>)
    ensures r.Ok? <==> Readable(parse, text)
    ensures r.Ok? ==> r.value.Some? == text.Some? && (text.Some? ==> parse(text.value) == Ok(r.value.value))
    ensures Refuses(parse) && r.Err? ==> r.code == CapabilityError
  {
    if text.None? then Ok(None)
    else
      var cpus :- parse(text.value);
      Ok(Some(cpus))
  }

  lemma {:induction false} PartsRefuse(cpus: seq<u32>, parts: seq<seq<byte>>)
    ensures var r := ParseParts(cpus, parts);
            && (r.Err? ==> r.code == CapabilityError)
            && (r.Ok? && (cpus != [] || parts != []) ==> r.value != [])
    decreases |parts|
  {
    if parts != [] && ParsePart(cpus, parts[0]).Ok? {
      PartsRefuse(ParsePart(cpus, parts[0]).value, parts[1..]);
    }
  }

  lemma {:induction false} ParseRefuses(text: seq<byte>)
    ensures Parse(text).Err? ==> Parse(text).code == CapabilityError
  {
    PartsRefuse([], CpuList.Split(Trim(text), COMMA));
  }

  // ----- capacity classes

  predicate OnlineAt(online: CpuSet, cpus: seq<Cpu>, i: int) {
    0 <= i < |cpus| && cpus[i].id in online
  }

  /** Every online CPU has a positive capacity. */
  ghost predicate CapacitiesKnown(online: CpuSet, cpus: seq<Cpu>) {
    forall i :: OnlineAt(online, cpus, i) ==> cpus[i].capacity.Some? && cpus[i].capacity.value > 0
  }

  ghost predicate CapacitiesAgree(online: CpuSet, cpus: seq<Cpu>) {
    forall i, j :: OnlineAt(online, cpus, i) && OnlineAt(online, cpus, j) ==> cpus[i].capacity == cpus[j].capacity
  }

  /** No online CPU has a larger capacity. */
  ghost predicate Largest(online: CpuSet, cpus: seq<Cpu>, capacity: u64) {
    forall j :: OnlineAt(online, cpus, j) && cpus[j].capacity.Some? ==> cpus[j].capacity.value <= capacity
  }

  /** The mode as it follows from the online capacities. */
  ghost predicate ModeProven(online: Option<CpuSet>, cpus: seq<Cpu>, mode: CapacityMode) {
    && (mode.UnknownMode? <==> online.None? || !CapacitiesKnown(online.value, cpus))
    && (mode.Homogeneous? <==>
          online.Some? && CapacitiesKnown(online.value, cpus) && CapacitiesAgree(online.value, cpus))
    && (mode.HeterogeneousProven? <==>
          online.Some? && CapacitiesKnown(online.value, cpus) && !CapacitiesAgree(online.value, cpus))
  }

  /** With proven differences the online CPUs of the largest capacity, and no others, are performance CPUs and the
      other online CPUs efficiency CPUs; every other tier is unknown. */
  ghost predicate TierProven(online: Option<CpuSet>, cpus: seq<Cpu>, mode: CapacityMode, i: nat)
    requires i < |cpus|
  {
    if mode.HeterogeneousProven? && online.Some? && cpus[i].id in online.value && cpus[i].capacity.Some?
    then cpus[i].tier == if Largest(online.value, cpus, cpus[i].capacity.value) then PerformanceTier else EfficiencyTier
    else cpus[i].tier == UnknownTier
  }

  ghost predicate TiersProven(t: CpuTopology) {
    && ModeProven(t.online, t.cpus, t.mode)
    && forall i :: 0 <= i < |t.cpus| ==> TierProven(t.online, t.cpus, t.mode, i)
  }

  /** The tier of a CPU when `maximum` is the largest online capacity. */
  function TierOf(cpu: Cpu, maximum: u64): Tier {
    if cpu.capacity.None? then UnknownTier
    else if cpu.capacity.value == maximum then PerformanceTier
    else EfficiencyTier
  }

  /** The records are the same but for their tiers. */
  predicate Retiered(cpus: seq<Cpu>, classified: seq<Cpu>) {
    && |classified| == |cpus|
    && forall i :: 0 <= i < |cpus| ==> classified[i] == cpus[i].(tier := classified[i].tier)
  }

  lemma {:induction false} RetieredKeepsCapacities(online: CpuSet, cpus: seq<Cpu>, classified: seq<Cpu>)
    requires Retiered(cpus, classified)
    ensures CapacitiesKnown(online, cpus) <==> CapacitiesKnown(online, classified)
    ensures CapacitiesAgree(online, cpus) <==> CapacitiesAgree(online, classified)
    ensures forall c :: Largest(online, cpus, c) <==> Largest(online, classified, c)
  {
    forall i ensures OnlineAt(online, cpus, i) <==> OnlineAt(online, classified, i) {
    }
    forall i | 0 <= i < |cpus| ensures classified[i].capacity == cpus[i].capacity {
    }
  }

  /** Marks the online CPUs against the largest capacity. */
  method MarkTiers(online: CpuSet, cpus: seq<Cpu>, maximum: u64) returns (classified: seq<Cpu>)
    ensures |classified| == |cpus|
    ensures forall j :: 0 <= j < |cpus| ==>
      classified[j] == if cpus[j].id in online then cpus[j].(tier := TierOf(cpus[j], maximum)) else cpus[j]
  {
    classified := cpus;
    for i := 0 to |cpus|
      invariant |classified| == |cpus|
      invariant forall j :: 0 <= j < i ==>
        classified[j] == if cpus[j].id in online then cpus[j].(tier := TierOf(cpus[j], maximum)) else cpus[j]
      invariant forall j :: i <= j < |cpus| ==> classified[j] == cpus[j]
    {
      if cpus[i].id in online {
        classified := classified[i := cpus[i].(tier := TierOf(cpus[i], maximum))];
      }
    }
  }

  /** `classify_capacities`.  The source sorts the capacities and drops repeats; one value is left exactly when
      least and largest agree. */
  method ClassifyCapacities(online: Option<CpuSet>, cpus: seq<Cpu>) returns (classified: seq<Cpu>, mode: CapacityMode)
    requires forall i :: 0 <= i < |cpus| ==> cpus[i].tier.UnknownTier?
    requires online.Some? ==> exists i :: OnlineAt(online.value, cpus, i)
    ensures Retiered(cpus, classified)
    ensures ModeProven(online, classified, mode)
    ensures forall i :: 0 <= i < |classified| ==> TierProven(online, classified, mode, i)
  {
    if online.None? {
      return cpus, UnknownMode;
    }
    var lowest: u64, highest: u64, seen := 0, 0, false;
    ghost var lowAt, highAt := 0, 0;
    for i := 0 to |cpus|
      invariant seen <==> exists j :: OnlineAt(online.value, cpus, j) && j < i
      invariant forall j :: OnlineAt(online.value, cpus, j) && j < i ==>
        cpus[j].capacity.Some? && cpus[j].capacity.value > 0 && lowest <= cpus[j].capacity.value <= highest
      invariant seen ==> && OnlineAt(online.value, cpus, lowAt) && cpus[lowAt].capacity == Some(lowest)
                         && OnlineAt(online.value, cpus, highAt) && cpus[highAt].capacity == Some(highest)
    {
      if cpus[i].id in online.value {
        assert OnlineAt(online.value, cpus, i);
        if cpus[i].capacity.None? || cpus[i].capacity.value == 0 {
          return cpus, UnknownMode;
        }
        var c := cpus[i].capacity.value;
        if !seen || c < lowest {
          lowest, lowAt := c, i;
        }
        if !seen || c > highest {
          highest, highAt := c, i;
        }
        seen := true;
      }
    }
    if lowest == highest {
      return cpus, Homogeneous;
    }
    classified := MarkTiers(online.value, cpus, highest);
    mode := HeterogeneousProven;
    RetieredKeepsCapacities(online.value, cpus, classified);
    HighestIsPerformance(online.value, cpus, classified, highAt);
  }

  lemma {:induction false} HighestIsPerformance(online: CpuSet, cpus: seq<Cpu>, classified: seq<Cpu>, highAt: int)
    requires OnlineAt(online, cpus, highAt) && cpus[highAt].capacity.Some?
    requires Largest(online, cpus, cpus[highAt].capacity.value) && CapacitiesKnown(online, cpus)
    requires |classified| == |cpus|
    requires forall j :: 0 <= j < |cpus| ==> cpus[j].tier == UnknownTier
    requires forall j :: 0 <= j < |cpus| ==>
      classified[j] == if cpus[j].id in online then cpus[j].(tier := TierOf(cpus[j], cpus[highAt].capacity.value))
                       else cpus[j]
    ensures forall i :: 0 <= i < |classified| ==> TierProven(Some(online), classified, HeterogeneousProven, i)
  {
    RetieredKeepsCapacities(online, cpus, classified);
    forall i | 0 <= i < |classified| ensures TierProven(Some(online), classified, HeterogeneousProven, i) {
      if cpus[i].id in online {
        assert OnlineAt(online, cpus, i);
        var c := cpus[i].capacity.value;
        assert Largest(online, classified, c) <==> Largest(online, cpus, c);
        assert Largest(online, cpus, c) ==> cpus[highAt].capacity.value <= c;
      }
    }
  }

  // ----- the online CPUs

  /** The CPU is online: the kernel lists it or, without a list, its entry says so. */
  ghost predicate ReportedOnline(parse: Parser, facts: Facts, c: u32) {
    match facts.online
    case Some(text) => parse(text).Ok? && c in parse(text).value
    case None => exists i :: 0 <= i < |facts.entries| && facts.entries[i].online && facts.entries[i].cpu == c
  }

  /** The online set is known when some CPU is reported online, and then holds exactly those CPUs. */
  ghost predicate OnlineFrom(parse: Parser, facts: Facts, online: Option<CpuSet>) {
    && (online.None? ==> forall c :: !ReportedOnline(parse, facts, c))
    && (online.Some? ==> forall c :: c in online.value <==> ReportedOnline(parse, facts, c))
  }

  /** The online set when the kernel does not list it: the entries that say they are online. */
  method InferOnline(entries: seq<Entry>) returns (online: Option<CpuSet>)
    ensures online.None? <==> forall i :: 0 <= i < |entries| ==> !entries[i].online
    ensures online.Some? ==> forall c :: c in online.value <==>
      exists i :: 0 <= i < |entries| && entries[i].online && entries[i].cpu == c
  {
    var ids: seq<u32> := [];
    for i := 0 to |entries|
      invariant forall c :: c in ids <==> exists j :: 0 <= j < i && entries[j].online && entries[j].cpu == c
      invariant ids == [] ==> forall j :: 0 <= j < i ==> !entries[j].online
    {
      if entries[i].online {
        ids := ids + [entries[i].cpu];
      }
    }
    assert ids != [] ==> ids[0] in ids;
    var made := NewCpuSet(ids);
    online := if made.Ok? then Some(made.value) else None;
  }

  method FindOnline(parse: Parser, facts: Facts) returns (r: Result<Option<CpuSet>>)
    requires Refuses(parse)
    ensures r.Ok? <==> Readable(parse, facts.online)
    ensures r.Ok? ==> OnlineFrom(parse, facts, r.value) && (facts.online.Some? ==> r.value.Some?)
    ensures r.Err? ==> r.code == CapabilityError
  {
    if facts.online.Some? {
      var declared :- parse(facts.online.value);
      return Ok(Some(declared));
    }
    var inferred := InferOnline(facts.entries);
    r := Ok(inferred);
  }

  // ----- entries and NUMA nodes

  predicate DistinctEntries(entries: seq<Entry>) {
    forall i, j :: 0 <= i < j < |entries| ==> entries[i].cpu != entries[j].cpu
  }

  /** `raw_entries`: the entry of each CPU; a CPU with two entries is refused. */
  method FileEntries(entries: seq<Entry>) returns (r: Result<map<u32, Entry>>)
    ensures r.Ok? <==> DistinctEntries(entries)
    ensures r.Err? ==> r.code == CapabilityError
    ensures r.Ok? ==> forall c :: c in r.value ==> r.value[c] in entries && r.value[c].cpu == c
    ensures r.Ok? ==> forall e :: e in entries ==> e.cpu in r.value && r.value[e.cpu] == e
  {
    var filed: map<u32, Entry> := map[];
    for i := 0 to |entries|
      invariant forall c :: c in filed ==> exists j :: 0 <= j < i && entries[j] == filed[c] && entries[j].cpu == c
      invariant forall j :: 0 <= j < i ==> entries[j].cpu in filed && filed[entries[j].cpu] == entries[j]
      invariant DistinctEntries(entries[..i])
    {
      if entries[i].cpu in filed {
        return Err(CapabilityError);
      }
      filed := filed[entries[i].cpu := entries[i]];
    }
    assert entries[..|entries|] == entries;
    r := Ok(filed);
  }

  function MaybeIds(cpus: Option<CpuSet>): seq<u32> {
    if cpus.Some? then cpus.value else []
  }

  /** The last record of a node that names CPUs counts. */
  predicate Counts(nodes: seq<NumaNode>, i: int) {
    && 0 <= i < |nodes| && nodes[i].cpus.Some?
    && forall j :: i < j < |nodes| && nodes[j].id == nodes[i].id ==> nodes[j].cpus.None?
  }

  predicate NodeNames(parse: Parser, node: NumaNode, id: u32, c: u32) {
    node.id == id && node.cpus.Some? && parse(node.cpus.value).Ok? && c in parse(node.cpus.value).value
  }

  /** The node has the CPU by its last record that names any. */
  ghost predicate Assigns(parse: Parser, nodes: seq<NumaNode>, id: u32, c: u32) {
    exists i :: Counts(nodes, i) && NodeNames(parse, nodes[i], id, c)
  }

  predicate NodesReadable(parse: Parser, nodes: seq<NumaNode>) {
    forall i :: 0 <= i < |nodes| ==> Readable(parse, nodes[i].cpus)
  }

  /** No CPU is on two nodes. */
  ghost predicate NodesDisjoint(parse: Parser, nodes: seq<NumaNode>) {
    forall n: u32, m: u32, c: u32 :: Assigns(parse, nodes, n, c) && Assigns(parse, nodes, m, c) ==> n == m
  }

  /** The sets hold exactly the CPUs the nodes are assigned. */
  ghost predicate SetsAssigned(parse: Parser, nodes: seq<NumaNode>, sets: map<u32, CpuSet>) {
    && (forall n, c :: n in sets && c in sets[n] ==> Assigns(parse, nodes, n, c))
    && (forall n, c :: Assigns(parse, nodes, n, c) ==> n in sets && c in sets[n])
  }

  lemma {:induction false} AssignsNext(parse: Parser, before: seq<NumaNode>, node: NumaNode, after: seq<NumaNode>)
    requires after == before + [node] && Readable(parse, node.cpus)
    ensures forall n: u32, c: u32 :: Assigns(parse, after, n, c) <==>
      if node.cpus.Some? && n == node.id then c in parse(node.cpus.value).value else Assigns(parse, before, n, c)
  {
    assert forall j :: 0 <= j < |before| ==> after[j] == before[j];
    forall n: u32, c: u32 ensures Assigns(parse, after, n, c) <==>
      if node.cpus.Some? && n == node.id then c in parse(node.cpus.value).value else Assigns(parse, before, n, c)
    {
      if k :| Counts(after, k) && NodeNames(parse, after[k], n, c) {
        if k < |before| {
          assert Counts(before, k) && before[k] == after[k];
        }
      }
      if node.cpus.Some? && n == node.id {
        assert Counts(after, |before|);
        if c in parse(node.cpus.value).value {
          assert NodeNames(parse, after[|before|], n, c);
        }
      } else if k :| Counts(before, k) && NodeNames(parse, before[k], n, c) {
        assert after[k] == before[k] && Counts(after, k);
      }
    }
  }

  lemma {:induction false} SetsNext(
    parse: Parser, before: seq<NumaNode>, node: NumaNode, sets: map<u32, CpuSet>, more: map<u32, CpuSet>)
    requires Readable(parse, node.cpus) && SetsAssigned(parse, before, sets)
    requires more == if node.cpus.Some? then sets[node.id := parse(node.cpus.value).value] else sets
    ensures SetsAssigned(parse, before + [node], more)
  {
    AssignsNext(parse, before, node, before + [node]);
  }

  /** `normalize_numa`: a later record of a node replaces an earlier one. */
  method NormalizeNuma(parse: Parser, nodes: seq<NumaNode>) returns (r: Result<map<u32, CpuSet>>)
    requires Refuses(parse)
    ensures r.Ok? <==> NodesReadable(parse, nodes)
    ensures r.Err? ==> r.code == CapabilityError
    ensures r.Ok? ==> SetsAssigned(parse, nodes, r.value)
  {
    var sets: map<u32, CpuSet> := map[];
    for i := 0 to |nodes|
      invariant NodesReadable(parse, nodes[..i])
      invariant SetsAssigned(parse, nodes[..i], sets)
    {
      assert nodes[..i + 1] == nodes[..i] + [nodes[i]];
      ghost var before := sets;
      if nodes[i].cpus.Some? {
        var cpus :- parse(nodes[i].cpus.value);
        sets := sets[nodes[i].id := cpus];
      }
      SetsNext(parse, nodes[..i], nodes[i], before, sets);
    }
    assert nodes[..|nodes|] == nodes;
    r := Ok(sets);
  }

  /** The CPUs of the nodes done so far, each on its one node. */
  ghost predicate AssignedSoFar(sets: map<u32, CpuSet>, done: set<u32>, nodeOf: map<u32, u32>) {
    && (forall c :: c in nodeOf ==> nodeOf[c] in done && nodeOf[c] in sets && c in sets[nodeOf[c]])
    && (forall n, c :: n in done && n in sets && c in sets[n] ==> c in nodeOf && nodeOf[c] == n)
  }

  /** Enters the CPUs of one node; a CPU that is entered already is refused. */
  method EnterNode(sets: map<u32, CpuSet>, ghost done: set<u32>, nodeOf: map<u32, u32>, node: u32)
    returns (r: Result<map<u32, u32>>)
    requires node in sets && node !in done && AssignedSoFar(sets, done, nodeOf)
    ensures r.Ok? ==> AssignedSoFar(sets, done + {node}, r.value)
    ensures r.Err? ==> r.code == CapabilityError && exists c :: c in sets[node] && c in nodeOf
  {
    var cpus := sets[node];
    var entered := nodeOf;
    for i := 0 to |cpus|
      invariant forall c :: c in entered <==> c in nodeOf || c in cpus[..i]
      invariant forall c :: c in nodeOf ==> entered[c] == nodeOf[c]
      invariant forall j :: 0 <= j < i ==> cpus[j] !in nodeOf && cpus[j] in entered && entered[cpus[j]] == node
    {
      assert cpus[i] !in cpus[..i];
      if cpus[i] in entered {
        return Err(CapabilityError);
      }
      entered := entered[cpus[i] := node];
      assert cpus[..i + 1] == cpus[..i] + [cpus[i]];
    }
    assert cpus[..|cpus|] == cpus;
    r := Ok(entered);
  }

  /** `cpu_to_numa`: the NUMA node of each CPU; a CPU of two nodes is refused. */
  method AssignNuma(ghost parse: Parser, ghost nodes: seq<NumaNode>, sets: map<u32, CpuSet>)
    returns (r: Result<map<u32, u32>>)
    requires SetsAssigned(parse, nodes, sets)
    ensures r.Ok? <==> NodesDisjoint(parse, nodes)
    ensures r.Err? ==> r.code == CapabilityError
    ensures r.Ok? ==> forall c: u32, n: u32 :: c in r.value && r.value[c] == n <==> Assigns(parse, nodes, n, c)
  {
    var nodeOf: map<u32, u32> := map[];
    var left := sets.Keys;
    while left != {}
      invariant left <= sets.Keys
      invariant AssignedSoFar(sets, sets.Keys - left, nodeOf)
      decreases |left|
    {
      var node :| node in left;
      var entered := EnterNode(sets, sets.Keys - left, nodeOf, node);
      if entered.Err? {
        ghost var c :| c in sets[node] && c in nodeOf;
        assert Assigns(parse, nodes, node, c) && Assigns(parse, nodes, nodeOf[c], c);
        return Err(CapabilityError);
      }
      assert sets.Keys - (left - {node}) == (sets.Keys - left) + {node};
      left := left - {node};
      nodeOf := entered.value;
    }
    forall n, c | Assigns(parse, nodes, n, c) ensures c in nodeOf && nodeOf[c] == n {
      assert n in sets && c in sets[n];
    }
    r := Ok(nodeOf);
  }

  // ----- the record of one CPU

  /** The threads of a core: those listed that are online, all listed when nothing is known to be online, and the
      CPU alone when that leaves none. */
  ghost predicate Threads(id: u32, listed: Option<CpuSet>, online: Option<CpuSet>, threads: CpuSet) {
    if listed.None? || (online.Some? && forall c :: c in listed.value ==> c !in online.value) then threads == [id]
    else if online.None? then threads == listed.value
    else forall c :: c in threads <==> c in listed.value && c in online.value
  }

  /** The siblings that are online, or the CPU alone when none is. */
  method OnlineSiblings(id: u32, siblings: Option<CpuSet>, online: CpuSet) returns (r: CpuSet)
    ensures Threads(id, siblings, Some(online), r)
  {
    var filtered: seq<u32> := [];
    if siblings.Some? {
      for i := 0 to |siblings.value|
        invariant forall c :: c in filtered <==> c in siblings.value[..i] && c in online
      {
        if siblings.value[i] in online {
          filtered := filtered + [siblings.value[i]];
        }
        assert siblings.value[..i + 1] == siblings.value[..i] + [siblings.value[i]];
      }
      assert siblings.value[..|siblings.value|] == siblings.value;
    }
    if filtered == [] {
      return [id];
    }
    assert filtered[0] in filtered;
    r := NewCpuSet(filtered).value;
  }

  /** The threads an entry lists can be read and include the CPU itself. */
  predicate SiblingsSound(parse: Parser, id: u32, entry: Option<Entry>) {
    entry.Some? ==>
      && Readable(parse, entry.value.siblings)
      && (entry.value.siblings.Some? ==> id in parse(entry.value.siblings.value).value)
  }

  /** The record says of the CPU what its entry, if any, and its node say. */
  ghost predicate Describes(
    parse: Parser, cpu: Cpu, id: u32, entry: Option<Entry>, online: Option<CpuSet>, numa: Option<u32>)
  {
    && cpu.id == id && cpu.numa == numa
    && cpu.package == (if entry.Some? then entry.value.package else None)
    && cpu.core == (if entry.Some? then entry.value.core else None)
    && cpu.capacity == (if entry.Some? && entry.value.capacity != Some(0) then entry.value.capacity else None)
    && SiblingsSound(parse, id, entry)
    && var listed := if entry.Some? && entry.value.siblings.Some?
                     then Some(parse(entry.value.siblings.value).value) else None;
       Threads(id, listed, online, cpu.siblings)
  }

  /** The record of one CPU. */
  method NormalizeCpu(parse: Parser, id: u32, entry: Option<Entry>, online: Option<CpuSet>, numa: Option<u32>)
    returns (r: Result<Cpu>)
    requires Refuses(parse)
    ensures r.Ok? <==> SiblingsSound(parse, id, entry)
    ensures r.Err? ==> r.code == CapabilityError
    ensures r.Ok? ==> Describes(parse, r.value, id, entry, online, numa) && r.value.tier.UnknownTier?
  {
    var siblings: Option<CpuSet> := None;
    if entry.Some? {
      siblings :- ParseOptional(parse, entry.value.siblings);
    }
    if siblings.Some? && id !in siblings.value {
      return Err(CapabilityError);
    }
    var together: CpuSet := [id];
    if online.Some? {
      together := OnlineSiblings(id, siblings, online.value);
    } else if siblings.Some? {
      together := siblings.value;
    }
    var capacity := if entry.Some? && entry.value.capacity.Some? && entry.value.capacity.value > 0
                    then entry.value.capacity else None;
    r := Ok(Cpu(id, if entry.Some? then entry.value.package else None, if entry.Some? then entry.value.core else None,
                together, capacity, UnknownTier, numa));
  }

  /** Threads of an online CPU are online and include it. */
  predicate SiblingsOnline(t: CpuTopology) {
    forall i :: 0 <= i < |t.cpus| && IsOnline(t, t.cpus[i]) ==>
      t.cpus[i].id in t.cpus[i].siblings && forall c :: c in t.cpus[i].siblings ==> c in t.online.value
  }

  // ----- `from_facts`

  /** Some list or entry of the facts mentions the CPU. */
  ghost predicate Mentioned(parse: Parser, facts: Facts, c: u32) {
    || (facts.possible.Some? && parse(facts.possible.value).Ok? && c in parse(facts.possible.value).value)
    || ReportedOnline(parse, facts, c)
    || exists e :: e in facts.entries && e.cpu == c
  }

  /** All CPUs of the facts, in order. */
  method CollectIds(possible: Option<CpuSet>, online: Option<CpuSet>, entries: seq<Entry>) returns (r: Result<CpuSet>)
    ensures r.Ok? <==> possible.Some? || online.Some? || entries != []
    ensures r.Err? ==> r.code == CapabilityError
    ensures r.Ok? ==> forall c :: c in r.value <==>
      || (possible.Some? && c in possible.value)
      || (online.Some? && c in online.value)
      || exists e :: e in entries && e.cpu == c
  {
    var known := seq(|entries|, i requires 0 <= i < |entries| => entries[i].cpu);
    var everything := MaybeIds(possible) + MaybeIds(online) + known;
    if everything == [] {
      return Err(CapabilityError);
    }
    forall c ensures c in known <==> exists e :: e in entries && e.cpu == c {
      if e :| e in entries && e.cpu == c {
        var i :| 0 <= i < |entries| && entries[i] == e;
        assert known[i] == c;
      }
    }
    r := NewCpuSet(everything);
  }

  /** The lists of the facts can be read, agree, file each entry once, and name a CPU. */
  ghost predicate ListsAcceptable(parse: Parser, facts: Facts) {
    && Readable(parse, facts.possible) && Readable(parse, facts.online)
    && (facts.possible.Some? ==> forall c :: ReportedOnline(parse, facts, c) ==> c in parse(facts.possible.value).value)
    && DistinctEntries(facts.entries)
    && (facts.possible.Some? || facts.online.Some? || facts.entries != [])
  }

  /** NUMA lists and thread lists can be read; no CPU is on two nodes, and each is one of its own threads. */
  ghost predicate DetailsAcceptable(parse: Parser, facts: Facts) {
    && NodesReadable(parse, facts.nodes) && NodesDisjoint(parse, facts.nodes)
    && forall e :: e in facts.entries ==> SiblingsSound(parse, e.cpu, Some(e))
  }

  /** Facts a topology can be made of. */
  ghost predicate Acceptable(parse: Parser, facts: Facts) {
    ListsAcceptable(parse, facts) && DetailsAcceptable(parse, facts)
  }

  /** The record repeats the facts about its CPU: those of its entry, if it has one, and the node it is assigned to. */
  ghost predicate Recorded(parse: Parser, facts: Facts, online: Option<CpuSet>, cpu: Cpu) {
    && (forall n: u32 :: cpu.numa == Some(n) <==> Assigns(parse, facts.nodes, n, cpu.id))
    && (forall e :: e in facts.entries && e.cpu == cpu.id ==> Describes(parse, cpu, cpu.id, Some(e), online, cpu.numa))
    && ((forall e :: e in facts.entries ==> e.cpu != cpu.id) ==> Describes(parse, cpu, cpu.id, None, online, cpu.numa))
  }

  /** One untiered record for each CPU. */
  ghost predicate AllRecorded(parse: Parser, facts: Facts, ids: CpuSet, online: Option<CpuSet>, cpus: seq<Cpu>) {
    && |cpus| == |ids|
    && forall i :: 0 <= i < |ids| ==>
         cpus[i].id == ids[i] && cpus[i].tier.UnknownTier? && Recorded(parse, facts, online, cpus[i])
  }

  /** The entries by CPU. */
  ghost predicate Filed(facts: Facts, entries: map<u32, Entry>) {
    && (forall c :: c in entries ==> entries[c] in facts.entries && entries[c].cpu == c)
    && (forall e :: e in facts.entries ==> e.cpu in entries && entries[e.cpu] == e)
  }

  method NormalizeCpus(
    parse: Parser, ghost facts: Facts, ids: CpuSet, entries: map<u32, Entry>, online: Option<CpuSet>,
    numa: map<u32, u32>)
    returns (r: Result<seq<Cpu>>)
    requires Refuses(parse) && Filed(facts, entries)
    requires forall c: u32, n: u32 :: c in numa && numa[c] == n <==> Assigns(parse, facts.nodes, n, c)
    ensures r.Ok? <==>
      forall i :: 0 <= i < |ids| && ids[i] in entries ==> SiblingsSound(parse, ids[i], Some(entries[ids[i]]))
    ensures r.Err? ==> r.code == CapabilityError
    ensures r.Ok? ==> AllRecorded(parse, facts, ids, online, r.value)
  {
    var cpus: seq<Cpu> := [];
    for i := 0 to |ids|
      invariant |cpus| == i
      invariant forall j :: 0 <= j < i ==>
        cpus[j].id == ids[j] && cpus[j].tier.UnknownTier? && Recorded(parse, facts, online, cpus[j])
      invariant forall j :: 0 <= j < i && ids[j] in entries ==> SiblingsSound(parse, ids[j], Some(entries[ids[j]]))
    {
      var id := ids[i];
      var cpu :- NormalizeCpu(parse, id, if id in entries then Some(entries[id]) else None, online,
                              if id in numa then Some(numa[id]) else None);
      assert forall n: u32 :: cpu.numa == Some(n) <==> Assigns(parse, facts.nodes, n, id);
      cpus := cpus + [cpu];
    }
    r := Ok(cpus);
  }

  lemma {:induction false} OnlineThreads(
    parse: Parser, cpu: Cpu, id: u32, entry: Option<Entry>, online: CpuSet, numa: Option<u32>)
    requires Describes(parse, cpu, id, entry, Some(online), numa) && id in online
    ensures id in cpu.siblings && forall c :: c in cpu.siblings ==> c in online
  {
    if cpu.siblings == [id] {
      assert cpu.siblings[0] == id;
    }
  }

  /** The records of a topology cover its CPUs, in order, and keep the threads of online CPUs online. */
  lemma {:induction false} RecordsCover(parse: Parser, facts: Facts, ids: CpuSet, cpus: seq<Cpu>, t: CpuTopology)
    requires AllRecorded(parse, facts, ids, t.online, cpus) && Retiered(cpus, t.cpus)
    requires t.online.Some? ==> forall c :: c in t.online.value ==> c in ids
    ensures Normalized(t) && SiblingsOnline(t)
    ensures forall c :: (exists i :: 0 <= i < |t.cpus| && t.cpus[i].id == c) <==> c in ids
    ensures forall i :: 0 <= i < |t.cpus| ==> Recorded(parse, facts, t.online, t.cpus[i])
  {
    forall i | 0 <= i < |ids| ensures t.cpus[i].id == ids[i] && Recorded(parse, facts, t.online, t.cpus[i]) {
      assert cpus[i].id == ids[i] && t.cpus[i] == cpus[i].(tier := t.cpus[i].tier);
    }
    forall c | c in ids ensures exists i :: 0 <= i < |t.cpus| && t.cpus[i].id == c {
      var i :| 0 <= i < |ids| && ids[i] == c;
      assert t.cpus[i].id == c;
    }
    forall i | 0 <= i < |t.cpus| && IsOnline(t, t.cpus[i])
      ensures t.cpus[i].id in t.cpus[i].siblings && forall c :: c in t.cpus[i].siblings ==> c in t.online.value
    {
      var cpu := t.cpus[i];
      assert Recorded(parse, facts, t.online, cpu);
      if e :| e in facts.entries && e.cpu == cpu.id {
        OnlineThreads(parse, cpu, cpu.id, Some(e), t.online.value, cpu.numa);
      } else {
        OnlineThreads(parse, cpu, cpu.id, None, t.online.value, cpu.numa);
      }
    }
  }

  /**
    What a topology made of facts says: its CPUs are exactly those the facts mention, one ordered record each;
    every record repeats the facts about its CPU; tiers and mode follow from the capacities, and the revision is
    the digest of everything in the topology.
   */
  ghost predicate TopologyOf(parse: Parser, facts: Facts, digest: Digests, t: CpuTopology) {
    && Normalized(t) && TiersProven(t) && SiblingsOnline(t)
    && ParseOptional(parse, facts.possible) == Ok(t.possible)
    && OnlineFrom(parse, facts, t.online)
    && SetsAssigned(parse, facts.nodes, t.nodes)
    && (forall c :: (exists i :: 0 <= i < |t.cpus| && t.cpus[i].id == c) <==> Mentioned(parse, facts, c))
    && (forall i :: 0 <= i < |t.cpus| ==> Recorded(parse, facts, t.online, t.cpus[i]))
    && t.revision == digest(t.possible, t.online, t.cpus, t.nodes)
  }

  /** The entries that are read are those of the facts. */
  lemma {:induction false} EntriesRead(parse: Parser, facts: Facts, ids: CpuSet, entries: map<u32, Entry>)
    requires Filed(facts, entries) && forall c :: c in entries ==> c in ids
    ensures (forall i :: 0 <= i < |ids| && ids[i] in entries ==> SiblingsSound(parse, ids[i], Some(entries[ids[i]])))
      <==> forall e :: e in facts.entries ==> SiblingsSound(parse, e.cpu, Some(e))
  {
    if forall i :: 0 <= i < |ids| && ids[i] in entries ==> SiblingsSound(parse, ids[i], Some(entries[ids[i]])) {
      forall e | e in facts.entries ensures SiblingsSound(parse, e.cpu, Some(e)) {
        assert e.cpu in entries;
        var i :| 0 <= i < |ids| && ids[i] == e.cpu;
      }
    }
  }

  /** What the lists say: the possible and online CPUs, the entry of each CPU, and all CPUs. */
  datatype Lists = Lists(possible: Option<CpuSet>, online: Option<CpuSet>, entries: map<u32, Entry>, ids: CpuSet)

  ghost predicate ListsOf(parse: Parser, facts: Facts, l: Lists) {
    && ParseOptional(parse, facts.possible) == Ok(l.possible)
    && OnlineFrom(parse, facts, l.online)
    && Filed(facts, l.entries)
    && (forall c :: c in l.ids <==> Mentioned(parse, facts, c))
  }

  /** The first half of `from_facts`: reading the lists. */
  method ReadLists(parse: Parser, facts: Facts) returns (r: Result<Lists>)
    requires Refuses(parse)
    ensures r.Ok? <==> ListsAcceptable(parse, facts)
    ensures r.Ok? ==> ListsOf(parse, facts, r.value)
    ensures r.Err? ==> r.code == CapabilityError
  {
    var possible :- ParseOptional(parse, facts.possible);
    var online :- FindOnline(parse, facts);
    if online.Some? {
      assert online.value[0] in online.value;
      assert ReportedOnline(parse, facts, online.value[0]);
    }
    if possible.Some? && online.Some? && exists c :: c in online.value && c !in possible.value {
      return Err(CapabilityError);
    }
    var entries :- FileEntries(facts.entries);
    var ids :- CollectIds(possible, online, facts.entries);
    r := Ok(Lists(possible, online, entries, ids));
  }

  /** The second half of `from_facts`: nodes, records and tiers. */
  method MakeTopology(parse: Parser, facts: Facts, digest: Digests, l: Lists) returns (r: Result<CpuTopology>)
    requires Refuses(parse) && ListsOf(parse, facts, l)
    ensures r.Ok? <==> DetailsAcceptable(parse, facts)
    ensures r.Ok? ==> TopologyOf(parse, facts, digest, r.value)
    ensures r.Err? ==> r.code == CapabilityError
  {
    var nodes :- NormalizeNuma(parse, facts.nodes);
    var numa :- AssignNuma(parse, facts.nodes, nodes);
    EntriesRead(parse, facts, l.ids, l.entries);
    var cpus :- NormalizeCpus(parse, facts, l.ids, l.entries, l.online, numa);
    OnlineCovered(parse, facts, l, cpus);
    var classified, mode := ClassifyCapacities(l.online, cpus);
    var t := CpuTopology(l.possible, l.online, classified, nodes, mode, digest(l.possible, l.online, classified, nodes));
    RecordsCover(parse, facts, l.ids, cpus, t);
    r := Ok(t);
  }

  lemma {:induction false} OnlineCovered(parse: Parser, facts: Facts, l: Lists, cpus: seq<Cpu>)
    requires ListsOf(parse, facts, l) && AllRecorded(parse, facts, l.ids, l.online, cpus)
    ensures l.online.Some? ==> forall c :: c in l.online.value ==> c in l.ids
    ensures l.online.Some? ==> exists i :: OnlineAt(l.online.value, cpus, i)
  {
    if l.online.Some? {
      assert l.online.value[0] in l.online.value;
      assert Mentioned(parse, facts, l.online.value[0]);
      var i :| 0 <= i < |l.ids| && l.ids[i] == l.online.value[0];
      assert OnlineAt(l.online.value, cpus, i);
    }
  }

  /** `from_facts`, over any parser of CPU lists. */
  method FromFactsWith(parse: Parser, facts: Facts, digest: Digests) returns (r: Result<CpuTopology>)
    requires Refuses(parse)
    ensures r.Ok? <==> Acceptable(parse, facts)
    ensures r.Ok? ==> TopologyOf(parse, facts, digest, r.value)
    ensures r.Err? ==> r.code == CapabilityError
  {
    var lists :- ReadLists(parse, facts);
    r := MakeTopology(parse, facts, digest, lists);
  }

  /** `from_facts`: a topology is made exactly of acceptable facts, and says what they say. */
  method FromFacts(facts: Facts, digest: Digests) returns (r: Result<CpuTopology>)
    ensures r.Ok? <==> Acceptable(Parse, facts)
    ensures r.Ok? ==> TopologyOf(Parse, facts, digest, r.value)
    ensures r.Err? ==> r.code == CapabilityError
  {
    forall text ensures Parse(text).Err? ==> Parse(text).code == CapabilityError {
      ParseRefuses(text);
    }
    r := FromFactsWith(Parse, facts, digest);
  }
}
