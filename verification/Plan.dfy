/**
  The dependency layer of plan validation (crates/sysboost-core/src/plan.rs, 201-309).  The decision
  items, the digests and the conflict check over controls are not part of this model.
 */
module Plan {
  import opened Mutation
  import opened Graph

  /** Which dependency rule a plan breaks first, with the mutation that breaks it. */
  datatype Verdict =
    | Accepted
    | DuplicateId(id: MutationId)
    | DuplicateDependency(id: MutationId)
    | MissingDependency(id: MutationId)
    | Cyclic(id: MutationId)
    | OutOfOrder(id: MutationId)

  /** The position of the first mutation with an ID, or the number of mutations. */
  function PositionOf(ms: seq<PlannedMutation>, id: MutationId): (i: nat)
    ensures i <= |ms|
    ensures i < |ms| ==> ms[i].id == id
    ensures forall j :: 0 <= j < i ==> ms[j].id != id
  {
    if ms == [] || ms[0].id == id then 0 else 1 + PositionOf(ms[1..], id)
  }

  predicate Contains(ms: seq<PlannedMutation>, id: MutationId) {
    exists i :: 0 <= i < |ms| && ms[i].id == id
  }

  /** The dependencies of one mutation are distinct and name mutations of the plan. */
  predicate Closed(ms: seq<PlannedMutation>, m: PlannedMutation) {
    Distinct(m.dependencies) && forall d :: d in m.dependencies ==> Contains(ms, d)
  }

  predicate WellFormed(ms: seq<PlannedMutation>) {
    UniqueIds(ms) && forall i :: 0 <= i < |ms| ==> Closed(ms, ms[i])
  }

  /** Every dependency of a mutation stands strictly before it. */
  predicate Earlier(ms: seq<PlannedMutation>, i: nat)
    requires i < |ms|
  {
    forall d :: d in ms[i].dependencies ==> PositionOf(ms, d) < i
  }

  predicate InOrder(ms: seq<PlannedMutation>) {
    forall i :: 0 <= i < |ms| ==> Earlier(ms, i)
  }

  function DependenciesOf(ms: seq<PlannedMutation>, id: nat): seq<nat> {
    if id <= 0xFFFF_FFFF && PositionOf(ms, id) < |ms| then ms[PositionOf(ms, id)].dependencies else []
  }

  /** The dependency graph over mutation IDs. */
  function EdgesOf(ms: seq<PlannedMutation>): Edges {
    id => DependenciesOf(ms, id)
  }

  function IdSet(ms: seq<PlannedMutation>): set<nat> {
    set i | 0 <= i < |ms| :: ms[i].id as nat
  }

  /** The IDs on the way to the mutation being visited. */
  class IdStack {
    var items: seq<nat>

    constructor ()
      ensures items == []
    {
      items := [];
    }
  }

  /** `reaches_cycle`: pushes and pops the shared stack, which is as before when it returns. */
  method ReachesCycle(current: MutationId, ms: seq<PlannedMutation>, stack: IdStack) returns (found: bool)
    requires forall x :: x in stack.items ==> x in IdSet(ms)
    modifies stack
    ensures stack.items == old(stack.items)
    ensures found <==> Returns(EdgesOf(ms), current, stack.items)
    decreases IdSet(ms) - (set x | x in stack.items), 1
  {
    if current in stack.items {
      assert ReturningWalk(EdgesOf(ms), current, stack.items, [current]);
      return true;
    }
    ReturnsThroughDependency(EdgesOf(ms), current, stack.items);
    var position := PositionOf(ms, current);
    if position == |ms| {
      return false;
    }
    var mutation := ms[position];
    ghost var before := stack.items;
    stack.items := stack.items + [current as nat];
    assert current as nat in IdSet(ms);
    found := false;
    var i := 0;
    while i < |mutation.dependencies| && !found
      invariant i <= |mutation.dependencies|
      invariant stack.items == before + [current]
      invariant found ==> exists d :: d in mutation.dependencies && Returns(EdgesOf(ms), d, before + [current])
      invariant !found ==> forall j :: 0 <= j < i ==> !Returns(EdgesOf(ms), mutation.dependencies[j], before + [current])
      decreases |mutation.dependencies| - i
    {
      assert current in IdSet(ms) - (set x | x in before) && current in stack.items;
      assert IdSet(ms) - (set x | x in stack.items) < IdSet(ms) - (set x | x in before);
      found := ReachesCycle(mutation.dependencies[i], ms, stack);
      i := i + 1;
    }
    stack.items := stack.items[..|stack.items| - 1];
  }

  lemma {:induction false} OrderedIsAcyclic(ms: seq<PlannedMutation>)
    requires InOrder(ms)
    ensures !HasCycle(EdgesOf(ms))
  {
    var edges := EdgesOf(ms);
    var rank := (id: nat) => Rank(ms, id);
    forall x: nat, y: nat | y in edges(x) ensures rank(y) < rank(x) {
      assert edges(x) == ms[PositionOf(ms, x)].dependencies;
      assert Earlier(ms, PositionOf(ms, x));
    }
    RankedIsAcyclic(edges, rank);
  }

  function Rank(ms: seq<PlannedMutation>, id: nat): nat {
    if id <= 0xFFFF_FFFF then PositionOf(ms, id) else |ms|
  }

  /** First pass: IDs are unique and every dependency list is closed. */
  method CheckReferences(ms: seq<PlannedMutation>) returns (v: Verdict)
    ensures v.Accepted? <==> WellFormed(ms)
    ensures v.Accepted? || v.DuplicateId? || v.DuplicateDependency? || v.MissingDependency?
  {
    for i := 0 to |ms|
      invariant forall j, k :: 0 <= j < k < i ==> ms[j].id != ms[k].id
      invariant forall j :: 0 <= j < i ==> Closed(ms, ms[j])
    {
      if exists j :: 0 <= j < i && ms[j].id == ms[i].id {
        return DuplicateId(ms[i].id);
      }
      var deps := ms[i].dependencies;
      for k := 0 to |deps|
        invariant forall j :: 0 <= j < k ==> multiset(deps)[deps[j]] == 1 && Contains(ms, deps[j])
      {
        CountTwice(deps, k);
        if multiset(deps)[deps[k]] > 1 {
          assert !Distinct(deps);
          assert !Closed(ms, ms[i]);
          return DuplicateDependency(ms[i].id);
        }
        if !Contains(ms, deps[k]) {
          assert !Closed(ms, ms[i]);
          return MissingDependency(ms[i].id);
        }
      }
      OnceEach(deps);
    }
    v := Accepted;
  }

  lemma {:induction false} CountTwice(s: seq<nat>, k: nat)
    requires k < |s|
    ensures multiset(s)[s[k]] >= 1
    ensures multiset(s)[s[k]] > 1 ==> exists j :: 0 <= j < |s| && j != k && s[j] == s[k]
  {
    assert s == s[..k] + [s[k]] + s[k + 1..];
    assert multiset(s) == multiset(s[..k]) + multiset{s[k]} + multiset(s[k + 1..]);
    if multiset(s)[s[k]] > 1 {
      if s[k] in multiset(s[..k]) {
        var j :| 0 <= j < k && s[..k][j] == s[k];
      } else {
        assert s[k] in multiset(s[k + 1..]);
        var j :| 0 <= j < |s| - k - 1 && s[k + 1..][j] == s[k];
        assert s[k + 1 + j] == s[k];
      }
    }
  }

  lemma {:induction false} OnceEach(s: seq<nat>)
    requires forall j :: 0 <= j < |s| ==> multiset(s)[s[j]] == 1
    ensures Distinct(s)
  {
    forall i, j | 0 <= i < j < |s| ensures s[i] != s[j] {
      assert s == s[..j] + [s[j]] + s[j + 1..];
      assert multiset(s) == multiset(s[..j]) + multiset{s[j]} + multiset(s[j + 1..]);
      assert s[..j][i] == s[i];
    }
  }

  /** The dependency layer of `Plan::validate`. */
  method Validate(ms: seq<PlannedMutation>) returns (v: Verdict)
    ensures v.Accepted? <==> WellFormed(ms) && InOrder(ms)
    ensures v.Cyclic? <==> WellFormed(ms) && HasCycle(EdgesOf(ms))
    ensures v.OutOfOrder? <==> WellFormed(ms) && !InOrder(ms) && !HasCycle(EdgesOf(ms))
  {
    v := CheckReferences(ms);
    if !v.Accepted? {
      return;
    }
    ReturnsMeansCycle(EdgesOf(ms));
    for i := 0 to |ms|
      invariant forall j :: 0 <= j < i ==> !Returns(EdgesOf(ms), ms[j].id, [])
    {
      var stack := new IdStack();
      var found := ReachesCycle(ms[i].id, ms, stack);
      if found {
        if InOrder(ms) {
          OrderedIsAcyclic(ms);
        }
        return Cyclic(ms[i].id);
      }
    }
    NoReturnAnywhere(ms);
    for i := 0 to |ms|
      invariant forall j :: 0 <= j < i ==> Earlier(ms, j)
    {
      var deps := ms[i].dependencies;
      for k := 0 to |deps|
        invariant forall j :: 0 <= j < k ==> PositionOf(ms, deps[j]) < i
      {
        if PositionOf(ms, deps[k]) >= i {
          assert !Earlier(ms, i);
          return OutOfOrder(ms[i].id);
        }
      }
      assert Earlier(ms, i);
    }
    v := Accepted;
  }

  /** Only IDs of the plan have dependencies, so only they can return. */
  lemma {:induction false} NoReturnAnywhere(ms: seq<PlannedMutation>)
    requires forall j :: 0 <= j < |ms| ==> !Returns(EdgesOf(ms), ms[j].id, [])
    ensures !exists from :: Returns(EdgesOf(ms), from, [])
  {
    forall from: nat ensures !Returns(EdgesOf(ms), from, []) {
      ReturnsThroughDependency(EdgesOf(ms), from, []);
    }
  }
}
