/**
  Turning admitted candidates into an ordered plan (crates/sysboost-core/src/planner.rs, 2890-3033,
  and plan.rs, 135-159): dependencies are resolved to candidate positions, positions are ordered,
  and IDs 1, 2, ... follow that order.
 */
module Ordering {
  import opened Outcome
  import opened Bytes
  import opened Mutation
  import opened Graph
  import opened Keys
  import opened Schedule
  import Plan

  datatype Action =
    | Mutate | NoOp | Unsupported | Preserved | ExplicitOptInRequired
    | ExperimentalDisabled | DeniedByPolicy | CapabilityDenied | Indeterminate

  datatype Draft = Draft(
    capability: Identifier, target: Identifier, kind: MutationKind, desired: TypedValue,
    precondition: Fingerprint, equality: Equality, identity: Bytes16)

  /** The parts of a plan candidate that ordering looks at. */
  datatype Candidate = Candidate(
    key: CandidateKey, target: Option<Identifier>, operation: Identifier, action: Action,
    draft: Option<Draft>, dependencies: seq<Identifier>)

  /** An item of the plan; a planned mutation comes with the identity of its target. */
  datatype Item = Item(
    key: CandidateKey, action: Action, mutation: Option<PlannedMutation>, identity: Option<Bytes16>)

  /** Why a plan is not built. */
  datatype Refusal =
    | MissingOperation | NotAdmitted | DependsOnItself | CyclicDependencies | InvalidMutation

  /** What the two candidate constructors and the contract check guarantee. */
  predicate WellBuilt(c: Candidate) {
    && (c.action.Mutate? <==> c.draft.Some?)
    && (c.draft.Some? ==> c.target.Some?)
    && DistinctNames(c.dependencies)
  }

  predicate DistinctNames(names: seq<Identifier>) {
    forall i, j :: 0 <= i < j < |names| ==> names[i] != names[j]
  }

  /** The values of the candidate map: in strict key order. */
  predicate CandidateList(cs: seq<Candidate>) {
    (forall i :: 0 <= i < |cs| ==> WellBuilt(cs[i])) && SortedKeys(KeysOf(cs))
  }

  function KeysOf(cs: seq<Candidate>): (keys: seq<CandidateKey>)
    ensures |keys| == |cs| && forall i :: 0 <= i < |cs| ==> keys[i] == cs[i].key
  {
    seq(|cs|, i requires 0 <= i < |cs| => cs[i].key)
  }

  /** The positions of the candidates that carry a mutation. */
  function Nodes(cs: seq<Candidate>): set<nat> {
    set i: nat | i < |cs| && cs[i].draft.Some?
  }

  // ----- resolving dependencies

  /** The first candidate for an operation on a target, or the number of candidates. */
  function FirstMatch(cs: seq<Candidate>, target: Identifier, operation: Identifier): (i: nat)
    ensures i <= |cs|
    ensures i < |cs| ==> cs[i].target == Some(target) && cs[i].operation == operation
    ensures forall j :: 0 <= j < i ==> !(cs[j].target == Some(target) && cs[j].operation == operation)
  {
    if cs == [] || (cs[0].target == Some(target) && cs[0].operation == operation) then 0
    else 1 + FirstMatch(cs[1..], target, operation)
  }

  datatype Link = Satisfied | Needs(on: nat) | Refused(why: Refusal)

  /** What one declared dependency of a candidate comes to. */
  function LinkOf(cs: seq<Candidate>, i: nat, operation: Identifier): Link
    requires i < |cs| && cs[i].target.Some?
  {
    var j := FirstMatch(cs, cs[i].target.value, operation);
    if j == |cs| then Refused(MissingOperation)
    else if !cs[j].action.Mutate? then
      if cs[j].action.NoOp? || cs[j].action.Preserved? then Satisfied else Refused(NotAdmitted)
    else if j == i then Refused(DependsOnItself)
    else Needs(j)
  }

  /** The positions a list of declared dependencies leads to. */
  function Positions(cs: seq<Candidate>, i: nat, names: seq<Identifier>): seq<nat>
    requires i < |cs| && cs[i].target.Some?
  {
    if names == [] then []
    else
      var before := Positions(cs, i, names[..|names| - 1]);
      var link := LinkOf(cs, i, names[|names| - 1]);
      if link.Needs? then before + [link.on] else before
  }

  predicate LinksResolve(cs: seq<Candidate>, i: nat)
    requires i < |cs| && cs[i].target.Some?
  {
    forall k :: 0 <= k < |cs[i].dependencies| ==> !LinkOf(cs, i, cs[i].dependencies[k]).Refused?
  }

  predicate RefusedAt(cs: seq<Candidate>, i: nat, why: Refusal)
    requires i < |cs| && cs[i].target.Some?
  {
    exists k :: 0 <= k < |cs[i].dependencies| && LinkOf(cs, i, cs[i].dependencies[k]) == Refused(why)
  }

  predicate Resolvable(cs: seq<Candidate>)
    requires CandidateList(cs)
  {
    forall i :: i in Nodes(cs) ==> LinksResolve(cs, i)
  }

  /** A resolved position is an executable candidate of the named operation, and not the candidate itself. */
  lemma {:induction false} LinkIsNode(cs: seq<Candidate>, i: nat, name: Identifier)
    requires CandidateList(cs) && i < |cs| && cs[i].target.Some? && LinkOf(cs, i, name).Needs?
    ensures var j := LinkOf(cs, i, name).on; j in Nodes(cs) && j != i && cs[j].operation == name
  {
  }

  /** Each resolved position comes from one of the names. */
  lemma {:induction false} PositionsNamed(cs: seq<Candidate>, i: nat, names: seq<Identifier>, j: nat)
    requires CandidateList(cs) && i < |cs| && cs[i].target.Some? && j in Positions(cs, i, names)
    ensures j in Nodes(cs) && j != i && cs[j].operation in names
    decreases |names|
  {
    var rest, last := names[..|names| - 1], names[|names| - 1];
    assert names == rest + [last];
    if j in Positions(cs, i, rest) {
      PositionsNamed(cs, i, rest, j);
    } else {
      LinkIsNode(cs, i, last);
    }
  }

  lemma {:induction false} AppendDistinct(s: seq<nat>, x: nat)
    requires Distinct(s) && x !in s
    ensures Distinct(s + [x])
  {
  }

  lemma {:induction false} LastIsNew(names: seq<Identifier>)
    requires names != [] && DistinctNames(names)
    ensures names[|names| - 1] !in names[..|names| - 1] && DistinctNames(names[..|names| - 1])
  {
  }

  /** Resolved positions are distinct nodes other than the candidate itself. */
  lemma {:induction false} PositionsAreNodes(cs: seq<Candidate>, i: nat, names: seq<Identifier>)
    requires CandidateList(cs) && i < |cs| && cs[i].target.Some?
    requires DistinctNames(names)
    ensures Distinct(Positions(cs, i, names))
    ensures forall j :: j in Positions(cs, i, names) ==> j in Nodes(cs) && j != i
    decreases |names|
  {
    if names != [] {
      var rest, last := names[..|names| - 1], names[|names| - 1];
      PositionsAreNodes(cs, i, rest);
      LastIsNew(names);
      if LinkOf(cs, i, last).Needs? {
        LinkIsNode(cs, i, last);
        forall j | j in Positions(cs, i, rest) ensures j != LinkOf(cs, i, last).on {
          PositionsNamed(cs, i, rest, j);
        }
        AppendDistinct(Positions(cs, i, rest), LinkOf(cs, i, last).on);
      }
    }
  }

  // ----- what a declared dependency means

  predicate Offers(c: Candidate, target: Option<Identifier>, operation: Identifier) {
    c.target == target && c.operation == operation
  }

  /** Candidate `i` is executable and declares that it depends on operation `d`. */
  predicate Declares(cs: seq<Candidate>, i: nat, d: Identifier) {
    i < |cs| && cs[i].draft.Some? && d in cs[i].dependencies
  }

  /** Candidate `j` is the first one for operation `d` on the target of candidate `i`. */
  predicate Meets(cs: seq<Candidate>, i: nat, d: Identifier, j: nat) {
    && i < |cs| && j < |cs| && Offers(cs[j], cs[i].target, d)
    && forall k :: 0 <= k < j ==> !Offers(cs[k], cs[i].target, d)
  }

  /** What `i` depends on by `d` is another executable candidate, or a satisfied or preserved one. */
  ghost predicate Met(cs: seq<Candidate>, i: nat, d: Identifier) {
    exists j: nat :: Meets(cs, i, d, j) && ((cs[j].action.Mutate? && j != i) || cs[j].action.NoOp? || cs[j].action.Preserved?)
  }

  ghost predicate DependenciesMet(cs: seq<Candidate>) {
    forall i, d :: Declares(cs, i, d) ==> Met(cs, i, d)
  }

  /** Candidate `i` declares a dependency that is met by the executable candidate `j`. */
  ghost predicate DependsOn(cs: seq<Candidate>, i: nat, j: nat) {
    exists d :: Declares(cs, i, d) && Meets(cs, i, d, j) && cs[j].action.Mutate?
  }

  ghost predicate DependencyChain(cs: seq<Candidate>, w: seq<nat>) {
    forall k :: 0 <= k < |w| - 1 ==> DependsOn(cs, w[k], w[k + 1])
  }

  /** A chain of dependencies comes back to where it began. */
  ghost predicate Cyclic(cs: seq<Candidate>) {
    exists w :: |w| >= 2 && w[0] == w[|w| - 1] && DependencyChain(cs, w)
  }

  /** Why the dependencies are refused: one names no candidate of its target, one that was not admitted, or the
      candidate itself. */
  ghost predicate RefusedFor(cs: seq<Candidate>, why: Refusal) {
    match why
    case MissingOperation => exists i, d :: Declares(cs, i, d) && forall j :: !Meets(cs, i, d, j)
    case NotAdmitted => exists i, d, j: nat ::
      && Declares(cs, i, d) && Meets(cs, i, d, j)
      && !cs[j].action.Mutate? && !cs[j].action.NoOp? && !cs[j].action.Preserved?
    case DependsOnItself => exists i, d :: Declares(cs, i, d) && Meets(cs, i, d, i)
    case _ => false
  }

  lemma {:induction false} MeetsFirst(cs: seq<Candidate>, i: nat, d: Identifier, j: nat)
    requires i < |cs| && cs[i].target.Some?
    ensures Meets(cs, i, d, j) <==> j < |cs| && j == FirstMatch(cs, cs[i].target.value, d)
  {
    var first := FirstMatch(cs, cs[i].target.value, d);
    if Meets(cs, i, d, j) {
      assert !(first < j);
      assert !(j < first);
    }
    if j < |cs| && j == first {
      assert forall k :: 0 <= k < j ==> !Offers(cs[k], cs[i].target, d);
    }
  }

  /** A link says what the first candidate for the operation is. */
  lemma {:induction false} LinkMeaning(cs: seq<Candidate>, i: nat, d: Identifier, j: nat)
    requires i < |cs| && cs[i].target.Some?
    ensures LinkOf(cs, i, d) == Needs(j) <==> Meets(cs, i, d, j) && cs[j].action.Mutate? && j != i
  {
    MeetsFirst(cs, i, d, j);
  }

  lemma {:induction false} RefusedMeaning(cs: seq<Candidate>, i: nat, d: Identifier)
    requires CandidateList(cs) && Declares(cs, i, d)
    ensures !LinkOf(cs, i, d).Refused? <==> Met(cs, i, d)
    ensures LinkOf(cs, i, d).Refused? ==> RefusedFor(cs, LinkOf(cs, i, d).why)
  {
    var first := FirstMatch(cs, cs[i].target.value, d);
    forall j: nat ensures Meets(cs, i, d, j) <==> j < |cs| && j == first {
      MeetsFirst(cs, i, d, j);
    }
    if first < |cs| {
      assert Meets(cs, i, d, first);
    }
  }

  /** Resolved positions are exactly those some name leads to. */
  lemma {:induction false} PositionsExactly(cs: seq<Candidate>, i: nat, names: seq<Identifier>, j: nat)
    requires i < |cs| && cs[i].target.Some?
    ensures j in Positions(cs, i, names) <==> exists d :: d in names && LinkOf(cs, i, d) == Needs(j)
    decreases |names|
  {
    if names != [] {
      var rest, last := names[..|names| - 1], names[|names| - 1];
      assert names == rest + [last];
      PositionsExactly(cs, i, rest, j);
      if d :| d in names && LinkOf(cs, i, d) == Needs(j) {
        assert d in rest || d == last;
      }
    }
  }

  /** The edges of the dependency graph are the dependencies that other executable candidates meet. */
  lemma {:induction false} EdgesAreDependencies(cs: seq<Candidate>, i: nat, j: nat)
    requires CandidateList(cs)
    ensures j in Required(NeedsOf(cs), i) <==> DependsOn(cs, i, j) && j != i
  {
    if i in Nodes(cs) {
      PositionsExactly(cs, i, cs[i].dependencies, j);
      forall d ensures LinkOf(cs, i, d) == Needs(j) <==> Meets(cs, i, d, j) && cs[j].action.Mutate? && j != i {
        LinkMeaning(cs, i, d, j);
      }
      assert forall d :: d in cs[i].dependencies <==> Declares(cs, i, d);
    }
  }

  lemma {:induction false} ResolvableIsMet(cs: seq<Candidate>)
    requires CandidateList(cs)
    ensures Resolvable(cs) <==> DependenciesMet(cs)
  {
    forall i: nat, d | Declares(cs, i, d) ensures !LinkOf(cs, i, d).Refused? <==> Met(cs, i, d) {
      RefusedMeaning(cs, i, d);
    }
    if DependenciesMet(cs) {
      forall i | i in Nodes(cs) ensures LinksResolve(cs, i) {
        forall k | 0 <= k < |cs[i].dependencies| ensures !LinkOf(cs, i, cs[i].dependencies[k]).Refused? {
          assert Declares(cs, i, cs[i].dependencies[k]);
        }
      }
    }
    if Resolvable(cs) {
      forall i: nat, d | Declares(cs, i, d) ensures Met(cs, i, d) {
        assert i in Nodes(cs) && LinksResolve(cs, i);
        var k :| 0 <= k < |cs[i].dependencies| && cs[i].dependencies[k] == d;
      }
    }
  }

  lemma {:induction false} MeetsOnce(cs: seq<Candidate>, i: nat, d: Identifier, j: nat, k: nat)
    requires Meets(cs, i, d, j) && Meets(cs, i, d, k)
    ensures j == k
  {
    assert !(j < k) && !(k < j);
  }

  lemma {:induction false} ItselfIsUnmet(cs: seq<Candidate>, i: nat)
    requires DependsOn(cs, i, i)
    ensures !DependenciesMet(cs)
  {
    var d :| Declares(cs, i, d) && Meets(cs, i, d, i) && cs[i].action.Mutate?;
    forall j: nat | Meets(cs, i, d, j) ensures j == i {
      MeetsOnce(cs, i, d, i, j);
    }
    assert !Met(cs, i, d);
  }

  lemma {:induction false} MetExcludesItself(cs: seq<Candidate>, i: nat)
    requires DependenciesMet(cs)
    ensures !DependsOn(cs, i, i)
  {
    if DependsOn(cs, i, i) {
      ItselfIsUnmet(cs, i);
    }
  }

  /** The dependency graph has a cycle exactly when the dependencies do. */
  lemma {:induction false} CyclesAreDependencies(cs: seq<Candidate>)
    requires CandidateList(cs) && DependenciesMet(cs)
    ensures HasCycle(EdgesOf(NeedsOf(cs))) <==> Cyclic(cs)
  {
    var edges := EdgesOf(NeedsOf(cs));
    forall i: nat, j: nat ensures j in edges(i) <==> DependsOn(cs, i, j) {
      EdgesAreDependencies(cs, i, j);
      MetExcludesItself(cs, i);
    }
    if w :| ClosedWalk(edges, w) {
      forall k | 0 <= k < |w| - 1 ensures DependsOn(cs, w[k], w[k + 1]) {
        assert w[k + 1] in edges(w[k]);
      }
      assert DependencyChain(cs, w);
    }
    if w :| |w| >= 2 && w[0] == w[|w| - 1] && DependencyChain(cs, w) {
      forall k | 0 <= k < |w| - 1 ensures w[k + 1] in edges(w[k]) {
        assert DependsOn(cs, w[k], w[k + 1]);
      }
      assert ClosedWalk(edges, w);
    }
  }

  lemma {:induction false} RefusedAtMeaning(cs: seq<Candidate>, i: nat, why: Refusal)
    requires CandidateList(cs) && i in Nodes(cs) && RefusedAt(cs, i, why)
    ensures RefusedFor(cs, why) && !DependenciesMet(cs)
  {
    var k :| 0 <= k < |cs[i].dependencies| && LinkOf(cs, i, cs[i].dependencies[k]) == Refused(why);
    RefusedMeaning(cs, i, cs[i].dependencies[k]);
  }

  method MutationIndices(cs: seq<Candidate>) returns (nodes: seq<nat>)
    ensures Members(nodes) == Nodes(cs) && Distinct(nodes)
  {
    nodes := [];
    for i := 0 to |cs|
      invariant forall x: nat :: x in nodes <==> x < i && cs[x].draft.Some?
      invariant Distinct(nodes)
    {
      if cs[i].draft.Some? {
        nodes := nodes + [i];
      }
    }
  }

  /** The dependencies of one candidate, in the order they are declared. */
  method ResolveOne(cs: seq<Candidate>, i: nat) returns (positions: seq<nat>, refusal: Option<Refusal>)
    requires i < |cs| && cs[i].target.Some?
    ensures refusal.None? <==> LinksResolve(cs, i)
    ensures refusal.None? ==> positions == Positions(cs, i, cs[i].dependencies)
    ensures refusal.Some? ==> RefusedAt(cs, i, refusal.value)
  {
    positions, refusal := [], None;
    var names := cs[i].dependencies;
    for k := 0 to |names|
      invariant positions == Positions(cs, i, names[..k])
      invariant forall n :: 0 <= n < k ==> !LinkOf(cs, i, names[n]).Refused?
    {
      assert names[..k + 1][..k] == names[..k];
      var j := FirstMatch(cs, cs[i].target.value, names[k]);
      if j == |cs| {
        assert LinkOf(cs, i, cs[i].dependencies[k]) == Refused(MissingOperation);
        return [], Some(MissingOperation);
      }
      if !cs[j].action.Mutate? {
        if !cs[j].action.NoOp? && !cs[j].action.Preserved? {
          assert LinkOf(cs, i, cs[i].dependencies[k]) == Refused(NotAdmitted);
          return [], Some(NotAdmitted);
        }
      } else {
        if j == i {
          assert LinkOf(cs, i, cs[i].dependencies[k]) == Refused(DependsOnItself);
          return [], Some(DependsOnItself);
        }
        positions := positions + [j];
      }
    }
    assert names[..|names|] == names;
  }

  /** The positions a node needs. */
  function PositionsOf(cs: seq<Candidate>, i: nat): seq<nat> {
    if i < |cs| && cs[i].target.Some? then Positions(cs, i, cs[i].dependencies) else []
  }

  /** The first `n` nodes are entered with what they need; a node that needs nothing has no entry. */
  predicate EnteredUpTo(nodes: seq<nat>, positionsOf: nat -> seq<nat>, needs: Schedule.Needs, n: nat) {
    && n <= |nodes|
    && (forall x :: x in needs ==> needs[x] != [] && exists m :: 0 <= m < n && nodes[m] == x)
    && (forall m :: 0 <= m < n ==> Required(needs, nodes[m]) == positionsOf(nodes[m]))
  }

  lemma {:induction false} EnterOne(
    nodes: seq<nat>, positionsOf: nat -> seq<nat>, needs: Schedule.Needs, n: nat, more: Schedule.Needs)
    requires Distinct(nodes) && n < |nodes| && EnteredUpTo(nodes, positionsOf, needs, n)
    requires more == if positionsOf(nodes[n]) != [] then needs[nodes[n] := positionsOf(nodes[n])] else needs
    ensures EnteredUpTo(nodes, positionsOf, more, n + 1)
  {
    assert nodes[n] !in needs;
  }

  lemma {:induction false} AllEntered(nodes: seq<nat>, positionsOf: nat -> seq<nat>, needs: Schedule.Needs)
    requires EnteredUpTo(nodes, positionsOf, needs, |nodes|)
    ensures needs == map i | i in Members(nodes) && positionsOf(i) != [] :: positionsOf(i)
  {
    var whole := map i | i in Members(nodes) && positionsOf(i) != [] :: positionsOf(i);
    forall i | i in Members(nodes) ensures Required(needs, i) == positionsOf(i) {
      var m :| 0 <= m < |nodes| && nodes[m] == i;
    }
    assert needs.Keys == whole.Keys;
  }

  predicate NodeResolves(cs: seq<Candidate>, i: nat) {
    i < |cs| && cs[i].target.Some? && LinksResolve(cs, i)
  }

  lemma {:induction false} AllResolve(cs: seq<Candidate>, nodes: seq<nat>)
    requires CandidateList(cs) && Members(nodes) == Nodes(cs)
    requires forall m :: 0 <= m < |nodes| ==> NodeResolves(cs, nodes[m])
    ensures Resolvable(cs)
  {
    forall i | i in Nodes(cs) ensures LinksResolve(cs, i) {
      assert i in Members(nodes);
      var m :| 0 <= m < |nodes| && nodes[m] == i;
    }
  }

  method Resolve(cs: seq<Candidate>, nodes: seq<nat>) returns (needs: Schedule.Needs, refusal: Option<Refusal>)
    requires CandidateList(cs) && Members(nodes) == Nodes(cs) && Distinct(nodes)
    ensures refusal.None? <==> DependenciesMet(cs)
    ensures refusal.None? ==> needs == NeedsOf(cs) && forall i, j :: j in Required(needs, i) <==> DependsOn(cs, i, j)
    ensures refusal.Some? ==> RefusedFor(cs, refusal.value)
  {
    needs, refusal := map[], None;
    ghost var positionsOf := (i: nat) => PositionsOf(cs, i);
    for n := 0 to |nodes|
      invariant EnteredUpTo(nodes, positionsOf, needs, n)
      invariant forall m :: 0 <= m < n ==> NodeResolves(cs, nodes[m])
    {
      var i := nodes[n];
      assert i in Members(nodes);
      var positions, refused := ResolveOne(cs, i);
      if refused.Some? {
        RefusedAtMeaning(cs, i, refused.value);
        return needs, refused;
      }
      ghost var before := needs;
      if positions != [] {
        needs := needs[i := positions];
      }
      EnterOne(nodes, positionsOf, before, n, needs);
    }
    AllResolve(cs, nodes);
    AllEntered(nodes, positionsOf, needs);
    ResolvableIsMet(cs);
    NeedsMeaning(cs);
  }

  lemma {:induction false} NeedsMeaning(cs: seq<Candidate>)
    requires CandidateList(cs) && DependenciesMet(cs)
    ensures forall i, j :: j in Required(NeedsOf(cs), i) <==> DependsOn(cs, i, j)
  {
    forall i: nat, j: nat ensures j in Required(NeedsOf(cs), i) <==> DependsOn(cs, i, j) {
      EdgesAreDependencies(cs, i, j);
      MetExcludesItself(cs, i);
    }
  }

  /** The dependency graph of a resolvable candidate list. */
  function NeedsOf(cs: seq<Candidate>): (needs: Schedule.Needs)
    requires CandidateList(cs)
    ensures needs.Keys <= Nodes(cs)
    ensures forall i :: i in Nodes(cs) ==> Required(needs, i) == PositionsOf(cs, i)
  {
    map i | i in Nodes(cs) && PositionsOf(cs, i) != [] :: PositionsOf(cs, i)
  }

  lemma {:induction false} NeedsAreGraph(cs: seq<Candidate>)
    requires CandidateList(cs)
    ensures ValidGraph(KeysOf(cs), Nodes(cs), NeedsOf(cs))
  {
    var needs := NeedsOf(cs);
    forall x | x in needs ensures x in Nodes(cs) && Distinct(needs[x]) && forall y :: y in needs[x] ==> y in Nodes(cs) {
      assert needs[x] == PositionsOf(cs, x);
      PositionsAreNodes(cs, x, cs[x].dependencies);
    }
  }

  // ----- IDs and items

  /** The 32-bit ID given to a place in the order. */
  function IdAt(place: nat): MutationId {
    (place + 1) % 0x1_0000_0000
  }

  function IdsOf(order: seq<nat>, xs: seq<nat>): (ids: seq<MutationId>)
    ensures |ids| == |xs| && forall k :: 0 <= k < |xs| ==> ids[k] == IdAt(Place(order, xs[k]))
  {
    seq(|xs|, k requires 0 <= k < |xs| => IdAt(Place(order, xs[k])))
  }

  /** The planned mutation of a node: the draft under its ID, depending on the IDs of what it needs. */
  function PlannedAt(cs: seq<Candidate>, order: seq<nat>, i: nat): Result<PlannedMutation>
    requires CandidateList(cs) && i in Nodes(cs)
  {
    var d := cs[i].draft.value;
    NewMutation(IdAt(Place(order, i)), d.capability, d.target, d.kind, d.desired, d.precondition, d.equality,
                IdsOf(order, Required(NeedsOf(cs), i)))
  }

  datatype Finalized = Built(items: seq<Item>) | Stopped(why: Refusal)

  predicate ItemBuilt(cs: seq<Candidate>, order: seq<nat>, items: seq<Item>, i: nat)
    requires CandidateList(cs) && i < |cs| == |items|
  {
    && items[i].key == cs[i].key && items[i].action == cs[i].action
    && (cs[i].draft.None? ==> items[i].mutation.None? && items[i].identity.None?)
    && (i in Nodes(cs) ==>
          && items[i].mutation.Some? && PlannedAt(cs, order, i) == Ok(items[i].mutation.value)
          && items[i].identity == Some(cs[i].draft.value.identity))
  }

  /** The items carry every drafted mutation once, numbered along the least topological order. */
  ghost predicate BuiltAlong(cs: seq<Candidate>, order: seq<nat>, items: seq<Item>)
    requires CandidateList(cs)
  {
    && Topological(Nodes(cs), NeedsOf(cs), order)
    && Greedy(KeysOf(cs), Nodes(cs), NeedsOf(cs), order)
    && |items| == |cs|
    && forall i :: 0 <= i < |cs| ==> ItemBuilt(cs, order, items, i)
  }

  /** `mutation_ids`: the ID of each emitted position. */
  method AssignIds(order: seq<nat>) returns (ids: map<nat, MutationId>)
    requires Distinct(order)
    ensures ids.Keys == Members(order)
    ensures forall x :: x in order ==> ids[x] == IdAt(Place(order, x))
  {
    ids := map[];
    for p := 0 to |order|
      invariant forall x :: x in ids <==> x in order[..p]
      invariant forall q :: 0 <= q < p ==> order[q] in ids && ids[order[q]] == IdAt(q)
    {
      ids := ids[order[p] := (p + 1) % 0x1_0000_0000];
      assert order[..p + 1] == order[..p] + [order[p]];
    }
    assert order[..|order|] == order;
    forall x | x in order ensures ids[x] == IdAt(Place(order, x)) {
      assert order[Place(order, x)] == x;
    }
  }

  method TranslateIds(ids: map<nat, MutationId>, order: seq<nat>, xs: seq<nat>) returns (r: seq<MutationId>)
    requires forall x :: x in xs ==> x in ids && ids[x] == IdAt(Place(order, x))
    ensures r == IdsOf(order, xs)
  {
    r := [];
    for k := 0 to |xs|
      invariant |r| == k && forall j :: 0 <= j < k ==> r[j] == IdAt(Place(order, xs[j]))
    {
      r := r + [ids[xs[k]]];
    }
  }

  /** The planned mutation of one emitted position. */
  method PlanOne(cs: seq<Candidate>, needs: Schedule.Needs, order: seq<nat>, ids: map<nat, MutationId>, i: nat)
    returns (made: Result<PlannedMutation>)
    requires CandidateList(cs) && needs == NeedsOf(cs) && Topological(Nodes(cs), needs, order)
    requires ids.Keys == Members(order) && forall x :: x in order ==> ids[x] == IdAt(Place(order, x))
    requires i in Nodes(cs)
    ensures made == PlannedAt(cs, order, i)
  {
    NeedsAreGraph(cs);
    assert i in Members(order);
    var required := if i in needs then needs[i] else [];
    forall x | x in required ensures x in ids && ids[x] == IdAt(Place(order, x)) {
      assert x in Nodes(cs) && x in Members(order);
    }
    var d := cs[i].draft.value;
    var dependencies := TranslateIds(ids, order, required);
    made := NewMutation(ids[i], d.capability, d.target, d.kind, d.desired, d.precondition, d.equality, dependencies);
  }

  /** The items after the first `p` emitted positions were planned. */
  predicate BuiltUpTo(cs: seq<Candidate>, order: seq<nat>, items: seq<Item>, p: nat)
    requires CandidateList(cs) && Members(order) == Nodes(cs)
  {
    && p <= |order| && |items| == |cs|
    && (forall i :: 0 <= i < |cs| ==> items[i].key == cs[i].key && items[i].action == cs[i].action)
    && (forall i :: 0 <= i < |cs| && Place(order, i) >= p ==> items[i].mutation.None? && items[i].identity.None?)
    && (forall i :: i in Nodes(cs) && Place(order, i) < p ==>
          && items[i].mutation.Some? && PlannedAt(cs, order, i) == Ok(items[i].mutation.value)
          && items[i].identity == Some(cs[i].draft.value.identity))
  }

  /** The item with its planned mutation and the identity of the target. */
  function Filled(cs: seq<Candidate>, items: seq<Item>, i: nat, made: PlannedMutation): Item
    requires i < |cs| == |items| && cs[i].draft.Some?
  {
    items[i].(mutation := Some(made), identity := Some(cs[i].draft.value.identity))
  }

  lemma {:induction false} BuiltOneMore(
    cs: seq<Candidate>, order: seq<nat>, items: seq<Item>, p: nat, made: PlannedMutation, items': seq<Item>)
    requires CandidateList(cs) && Members(order) == Nodes(cs) && Distinct(order)
    requires BuiltUpTo(cs, order, items, p) && p < |order|
    requires order[p] in Nodes(cs) && PlannedAt(cs, order, order[p]) == Ok(made)
    requires items' == items[order[p] := Filled(cs, items, order[p], made)]
    ensures BuiltUpTo(cs, order, items', p + 1)
  {
    assert Place(order, order[p]) == p;
    forall i: nat | i < |cs| && i != order[p] ensures Place(order, i) != p && items'[i] == items[i] {
    }
  }

  lemma {:induction false} AllBuilt(cs: seq<Candidate>, order: seq<nat>, items: seq<Item>)
    requires CandidateList(cs) && Members(order) == Nodes(cs)
    requires BuiltUpTo(cs, order, items, |order|)
    ensures forall i :: i in Nodes(cs) ==> PlannedAt(cs, order, i).Ok?
    ensures forall i :: 0 <= i < |cs| ==> ItemBuilt(cs, order, items, i)
  {
    forall i | i in Nodes(cs) ensures Place(order, i) < |order| {
      assert i in Members(order);
    }
    forall i: nat | i < |cs| && i !in Nodes(cs) ensures Place(order, i) >= |order| {
      assert i !in Members(order);
    }
  }

  /** Puts each draft, under its ID, into its item; the first draft that is refused stops the plan. */
  method BuildItems(cs: seq<Candidate>, needs: Schedule.Needs, order: seq<nat>) returns (r: Finalized)
    requires CandidateList(cs) && needs == NeedsOf(cs)
    requires Topological(Nodes(cs), needs, order)
    ensures r.Built? <==> forall i :: i in Nodes(cs) ==> PlannedAt(cs, order, i).Ok?
    ensures r.Built? ==> |r.items| == |cs| && forall i :: 0 <= i < |cs| ==> ItemBuilt(cs, order, r.items, i)
    ensures r.Stopped? ==> r.why == InvalidMutation
  {
    var ids := AssignIds(order);
    var items := seq(|cs|, i requires 0 <= i < |cs| => Item(cs[i].key, cs[i].action, None, None));
    for p := 0 to |order|
      invariant BuiltUpTo(cs, order, items, p)
    {
      var i := order[p];
      assert i in Members(order);
      var made := PlanOne(cs, needs, order, ids, i);
      if made.Err? {
        return Stopped(InvalidMutation);
      }
      BuiltOneMore(cs, order, items, p, made.value, items[i := Filled(cs, items, i, made.value)]);
      items := items[i := Filled(cs, items, i, made.value)];
    }
    AllBuilt(cs, order, items);
    r := Built(items);
  }
}
