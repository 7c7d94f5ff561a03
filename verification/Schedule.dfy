/**
  The ordering loop of `finalize_candidates` (crates/sysboost-core/src/planner.rs, 2951-2982): Kahn's
  algorithm over candidate positions with a ready set ordered by key.
 */
module Schedule {
  import opened Graph
  import opened Keys

  /** For each position, the positions it needs; an absent entry needs none. */
  type Needs = map<nat, seq<nat>>

  function Required(needs: Needs, x: nat): seq<nat> {
    if x in needs then needs[x] else []
  }

  function EdgesOf(needs: Needs): Edges {
    x => Required(needs, x)
  }

  predicate SortedKeys(keys: seq<CandidateKey>) {
    forall i, j :: 0 <= i < j < |keys| ==> KeyLess(keys[i], keys[j])
  }

  /** The order of the ready set: by key, then by position. */
  predicate Before(keys: seq<CandidateKey>, i: nat, j: nat) {
    i < |keys| && j < |keys| && (KeyLess(keys[i], keys[j]) || (keys[i] == keys[j] && i < j))
  }

  lemma {:induction false} BeforeIsEarlier(keys: seq<CandidateKey>, i: nat, j: nat)
    requires SortedKeys(keys) && i < |keys| && j < |keys|
    ensures Before(keys, i, j) <==> i < j
  {
    KeyTotal(keys[i], keys[j]);
    if j < i {
      assert KeyLess(keys[j], keys[i]);
    }
  }

  /** The graph of a plan: positions of keys, each needing distinct other nodes. */
  predicate ValidGraph(keys: seq<CandidateKey>, nodes: set<nat>, needs: Needs) {
    && SortedKeys(keys)
    && (forall x :: x in nodes ==> x < |keys|)
    && (forall x :: x in needs ==> x in nodes && Distinct(needs[x]))
    && (forall x, y :: x in needs && y in needs[x] ==> y in nodes)
  }

  // ----- what the loop computes

  predicate AllDone(xs: seq<nat>, done: set<nat>) {
    forall x :: x in xs ==> x in done
  }

  /** A node that may come next. */
  predicate Available(needs: Needs, nodes: set<nat>, done: set<nat>, x: nat) {
    x in nodes && x !in done && AllDone(Required(needs, x), done)
  }

  function Members(s: seq<nat>): set<nat> {
    set x | x in s
  }

  /** `x` may come next, and every other node that may come next has a larger key. */
  ghost predicate LeastAvailable(keys: seq<CandidateKey>, nodes: set<nat>, needs: Needs, done: set<nat>, x: nat) {
    && Available(needs, nodes, done, x)
    && forall y :: Available(needs, nodes, done, y) && y != x ==> Before(keys, x, y)
  }

  ghost predicate Greedy(keys: seq<CandidateKey>, nodes: set<nat>, needs: Needs, order: seq<nat>) {
    forall k :: 0 <= k < |order| ==> LeastAvailable(keys, nodes, needs, Members(order[..k]), order[k])
  }

  /** Every node once, each after the nodes it needs. */
  predicate Topological(nodes: set<nat>, needs: Needs, order: seq<nat>) {
    && Members(order) == nodes
    && Distinct(order)
    && forall k :: 0 <= k < |order| ==> AllDone(Required(needs, order[k]), Members(order[..k]))
  }

  // ----- counting what a node still waits for

  function Pending(xs: seq<nat>, done: set<nat>): nat {
    if xs == [] then 0 else (if xs[0] in done then 0 else 1) + Pending(xs[1..], done)
  }

  lemma {:induction false} PendingNone(xs: seq<nat>, done: set<nat>)
    ensures Pending(xs, done) == 0 <==> AllDone(xs, done)
    ensures Pending(xs, {}) == |xs|
  {
    if xs != [] {
      PendingNone(xs[1..], done);
      assert forall x :: x in xs <==> x == xs[0] || x in xs[1..];
    }
  }

  /** Emitting a node takes exactly one from the count of each node that needs it. */
  lemma {:induction false} PendingStep(xs: seq<nat>, done: set<nat>, x: nat)
    requires Distinct(xs) && x !in done
    ensures Pending(xs, done) == Pending(xs, done + {x}) + if x in xs then 1 else 0
  {
    if xs != [] {
      assert Distinct(xs[1..]);
      PendingStep(xs[1..], done, x);
      if xs[0] == x {
        assert x !in xs[1..];
      }
    }
  }

  // ----- the ready set

  /** `BTreeSet::pop_first`: the least ready position under the key order. */
  method PopFirst(keys: seq<CandidateKey>, ready: set<nat>) returns (first: nat)
    requires SortedKeys(keys) && ready != {} && forall x :: x in ready ==> x < |keys|
    ensures first in ready
    ensures forall y :: y in ready && y != first ==> Before(keys, first, y)
  {
    first := 0;
    while first !in ready
      invariant forall y :: y in ready ==> first <= y
      decreases |keys| - first
    {
      first := first + 1;
    }
    forall y | y in ready && y != first ensures Before(keys, first, y) {
      BeforeIsEarlier(keys, first, y);
    }
  }

  function Ready(nodes: set<nat>, degree: map<nat, nat>, done: set<nat>): set<nat>
    requires nodes <= degree.Keys
  {
    set x | x in nodes && x !in done && degree[x] == 0
  }

  predicate Counted(nodes: set<nat>, needs: Needs, degree: map<nat, nat>, done: set<nat>) {
    degree.Keys == nodes && forall x :: x in nodes ==> degree[x] == Pending(Required(needs, x), done)
  }

  /** Some positions already count the emitted node as done, the others not yet. */
  predicate Counting(nodes: set<nat>, needs: Needs, degree: map<nat, nat>, done: set<nat>, x: nat, upTo: nat) {
    && degree.Keys == nodes
    && forall y :: y in nodes ==>
         degree[y] == Pending(Required(needs, y), if y < upTo then done + {x} else done)
  }

  /** Counting one more position as released changes its count by the edge to `x`, if it has one. */
  lemma {:induction false} CountingStep(nodes: set<nat>, needs: Needs, degree: map<nat, nat>, done: set<nat>, x: nat, y: nat)
    requires Counting(nodes, needs, degree, done, x, y) && x !in done
    requires y in nodes ==> Distinct(Required(needs, y))
    ensures y in nodes && x in Required(needs, y) ==>
              degree[y] > 0 && Counting(nodes, needs, degree[y := degree[y] - 1], done, x, y + 1)
    ensures !(y in nodes && x in Required(needs, y)) ==> Counting(nodes, needs, degree, done, x, y + 1)
  {
    if y in nodes {
      PendingStep(Required(needs, y), done, x);
    }
  }

  lemma {:induction false} ReadyStep(nodes: set<nat>, degree: map<nat, nat>, done: set<nat>, y: nat, n: nat)
    requires nodes <= degree.Keys && y in nodes && y !in done && degree[y] > 0
    ensures Ready(nodes, degree[y := n], done) == if n == 0 then Ready(nodes, degree, done) + {y} else Ready(nodes, degree, done)
  {
  }

  /** The ready set and the counts in the middle of releasing `x`, before position `upTo`. */
  predicate Releasing(nodes: set<nat>, needs: Needs, degree: map<nat, nat>, ready: set<nat>,
                      done: set<nat>, x: nat, upTo: nat) {
    Counting(nodes, needs, degree, done, x, upTo) && ready == Ready(nodes, degree, done + {x})
  }

  /** Lowers the in-degree of one node that needs `x`; if this was its last need it becomes ready. */
  method ReleaseOne(ghost nodes: set<nat>, ghost needs: Needs, ghost done: set<nat>, ghost x: nat, y: nat,
                    degree: map<nat, nat>, ready: set<nat>)
    returns (degree': map<nat, nat>, ready': set<nat>)
    requires x !in done && Releasing(nodes, needs, degree, ready, done, x, y)
    requires y in nodes && Distinct(Required(needs, y)) && x in Required(needs, y) && y !in done + {x}
    ensures Releasing(nodes, needs, degree', ready', done, x, y + 1)
  {
    CountingStep(nodes, needs, degree, done, x, y);
    ReadyStep(nodes, degree, done + {x}, y, degree[y] - 1);
    degree' := degree[y := degree[y] - 1];
    ready' := if degree'[y] == 0 then ready + {y} else ready;
  }

  /** Lowers the in-degree of every node that needs `x`; a node whose last need this was becomes ready. */
  method Release(keys: seq<CandidateKey>, ghost nodes: set<nat>, needs: Needs, ghost done: set<nat>, x: nat,
                 degree: map<nat, nat>, ready: set<nat>)
    returns (degree': map<nat, nat>, ready': set<nat>)
    requires ValidGraph(keys, nodes, needs) && x in nodes && x !in done
    requires Counted(nodes, needs, degree, done)
    requires ready == Ready(nodes, degree, done + {x})
    requires forall y :: y in done + {x} ==> AllDone(Required(needs, y), done)
    ensures Counted(nodes, needs, degree', done + {x})
    ensures ready' == Ready(nodes, degree', done + {x})
  {
    degree', ready' := degree, ready;
    for y := 0 to |keys|
      invariant Releasing(nodes, needs, degree', ready', done, x, y)
    {
      if y in needs && x in needs[y] {
        assert x in Required(needs, y) && !AllDone(Required(needs, y), done);
        degree', ready' := ReleaseOne(nodes, needs, done, x, y, degree', ready');
      } else {
        CountingStep(nodes, needs, degree', done, x, y);
      }
    }
  }

  // ----- the loop

  /** Every emitted node had all it needs emitted before. */
  lemma {:induction false} EmittedHaveAll(keys: seq<CandidateKey>, nodes: set<nat>, needs: Needs, order: seq<nat>)
    requires Greedy(keys, nodes, needs, order)
    ensures Distinct(order) && Members(order) <= nodes
    ensures forall y :: y in order ==> AllDone(Required(needs, y), Members(order))
    ensures forall k :: 0 <= k < |order| ==> AllDone(Required(needs, order[k]), Members(order[..k]))
  {
    forall k | 0 <= k < |order|
      ensures order[k] in nodes && AllDone(Required(needs, order[k]), Members(order[..k]))
      ensures forall j :: 0 <= j < k ==> order[j] != order[k]
    {
      assert LeastAvailable(keys, nodes, needs, Members(order[..k]), order[k]);
      assert forall j :: 0 <= j < k ==> order[..k][j] == order[j];
    }
  }

  lemma {:induction false} Emitted(order: seq<nat>, x: nat)
    ensures Members(order + [x]) == Members(order) + {x}
    ensures forall k :: 0 <= k <= |order| ==> (order + [x])[..k] == order[..k]
  {
    assert order[..|order|] == order;
  }

  lemma {:induction false} GreedyGrows(keys: seq<CandidateKey>, nodes: set<nat>, needs: Needs, order: seq<nat>, x: nat)
    requires Greedy(keys, nodes, needs, order)
    requires LeastAvailable(keys, nodes, needs, Members(order), x)
    ensures Greedy(keys, nodes, needs, order + [x])
  {
    Emitted(order, x);
    assert order[..|order|] == order;
    forall k | 0 <= k < |order + [x]|
      ensures LeastAvailable(keys, nodes, needs, Members((order + [x])[..k]), (order + [x])[k])
    {
    }
  }

  lemma {:induction false} ReadyIsAvailable(nodes: set<nat>, needs: Needs, degree: map<nat, nat>, done: set<nat>, x: nat)
    requires Counted(nodes, needs, degree, done)
    ensures x in Ready(nodes, degree, done) <==> Available(needs, nodes, done, x)
  {
    if x in nodes {
      PendingNone(Required(needs, x), done);
    }
  }

  /** The nodes that wait for nothing. */
  method FreeNodes(nodes: seq<nat>, degree: map<nat, nat>) returns (ready: set<nat>)
    requires degree.Keys == Members(nodes)
    ensures ready == set x | x in nodes && degree[x] == 0
  {
    ready := {};
    for i := 0 to |nodes|
      invariant ready == set x | x in nodes[..i] && degree[x] == 0
    {
      if degree[nodes[i]] == 0 {
        ready := ready + {nodes[i]};
      }
      assert nodes[..i + 1] == nodes[..i] + [nodes[i]];
    }
    assert nodes[..|nodes|] == nodes;
  }

  method CountDegrees(ghost keys: seq<CandidateKey>, nodes: seq<nat>, needs: Needs)
    returns (degree: map<nat, nat>, ready: set<nat>)
    requires ValidGraph(keys, Members(nodes), needs)
    ensures Counted(Members(nodes), needs, degree, {})
    ensures ready == Ready(Members(nodes), degree, {})
  {
    degree := map[];
    for i := 0 to |nodes|
      invariant degree.Keys == Members(nodes[..i])
      invariant forall x :: x in degree ==> degree[x] == |Required(needs, x)|
    {
      degree := degree[nodes[i] := if nodes[i] in needs then |needs[nodes[i]]| else 0];
      Emitted(nodes[..i], nodes[i]);
      assert nodes[..i + 1] == nodes[..i] + [nodes[i]];
    }
    assert nodes[..|nodes|] == nodes;
    ready := FreeNodes(nodes, degree);
    forall x | x in nodes ensures Pending(Required(needs, x), {}) == |Required(needs, x)| {
      PendingNone(Required(needs, x), {});
    }
  }

  /** Emits ready nodes, least key first, until none is ready. */
  method Emit(keys: seq<CandidateKey>, nodes: seq<nat>, needs: Needs) returns (order: seq<nat>)
    requires ValidGraph(keys, Members(nodes), needs)
    ensures Greedy(keys, Members(nodes), needs, order)
    ensures forall x :: !Available(needs, Members(nodes), Members(order), x)
  {
    ghost var all := Members(nodes);
    var degree, ready := CountDegrees(keys, nodes, needs);
    order := [];
    assert Members(order) == {};
    while ready != {}
      invariant Greedy(keys, all, needs, order)
      invariant Counted(all, needs, degree, Members(order))
      invariant ready == Ready(all, degree, Members(order))
      decreases all - Members(order)
    {
      ghost var done := Members(order);
      var first := PopFirst(keys, ready);
      ready := ready - {first};
      Chosen(keys, all, needs, degree, done, first);
      EmittedHaveAll(keys, all, needs, order);
      GreedyGrows(keys, all, needs, order, first);
      Emitted(order, first);
      order := order + [first];
      assert ready == Ready(all, degree, done + {first});
      degree, ready := Release(keys, all, needs, done, first, degree, ready);
    }
    forall x ensures !Available(needs, all, Members(order), x) {
      ReadyIsAvailable(all, needs, degree, Members(order), x);
    }
  }

  lemma {:induction false} Chosen(
    keys: seq<CandidateKey>, nodes: set<nat>, needs: Needs, degree: map<nat, nat>, done: set<nat>, first: nat)
    requires Counted(nodes, needs, degree, done)
    requires first in Ready(nodes, degree, done)
    requires forall y :: y in Ready(nodes, degree, done) && y != first ==> Before(keys, first, y)
    ensures LeastAvailable(keys, nodes, needs, done, first)
  {
    forall y ensures y in Ready(nodes, degree, done) <==> Available(needs, nodes, done, y) {
      ReadyIsAvailable(nodes, needs, degree, done, y);
    }
  }

  // ----- what the emitted order is

  /** All nodes are emitted exactly when the graph has no cycle. */
  lemma {:induction false} CompleteUnlessCycle(keys: seq<CandidateKey>, nodes: set<nat>, needs: Needs, order: seq<nat>)
    requires ValidGraph(keys, nodes, needs) && Greedy(keys, nodes, needs, order)
    requires forall x :: !Available(needs, nodes, Members(order), x)
    ensures Topological(nodes, needs, order) <==> !HasCycle(EdgesOf(needs))
    ensures Topological(nodes, needs, order) <==> Members(order) == nodes
  {
    EmittedHaveAll(keys, nodes, needs, order);
    var stuck := nodes - Members(order);
    if stuck == {} {
      assert nodes == Members(order) + stuck;
      TopologicalIsAcyclic(nodes, needs, order);
    } else {
      forall x | x in stuck ensures Waits(EdgesOf(needs), stuck, x) {
        assert !Available(needs, nodes, Members(order), x);
        var y :| y in Required(needs, x) && y !in Members(order);
        assert y in EdgesOf(needs)(x) && y in stuck;
      }
      StuckHasCycle(EdgesOf(needs), stuck);
    }
  }

  /** The position of a node in an order, or its length. */
  function Place(order: seq<nat>, x: nat): (k: nat)
    ensures k <= |order|
    ensures k < |order| ==> order[k] == x
    ensures forall j :: 0 <= j < k ==> order[j] != x
  {
    if order == [] || order[0] == x then 0 else 1 + Place(order[1..], x)
  }

  lemma {:induction false} TopologicalIsAcyclic(nodes: set<nat>, needs: Needs, order: seq<nat>)
    requires Topological(nodes, needs, order)
    requires forall x :: x in needs ==> x in nodes
    ensures !HasCycle(EdgesOf(needs))
  {
    var edges := EdgesOf(needs);
    var rank := (x: nat) => Place(order, x);
    forall x: nat, y: nat | y in edges(x) ensures rank(y) < rank(x) {
      NeedsComeFirst(nodes, needs, order, x, y);
    }
    RankedIsAcyclic(edges, rank);
  }

  lemma {:induction false} NeedsComeFirst(nodes: set<nat>, needs: Needs, order: seq<nat>, x: nat, y: nat)
    requires Topological(nodes, needs, order)
    requires x in nodes && y in Required(needs, x)
    ensures Place(order, y) < Place(order, x) < |order|
  {
    assert x in order;
    var k := Place(order, x);
    assert AllDone(Required(needs, order[k]), Members(order[..k]));
    var j :| 0 <= j < k && order[..k][j] == y;
    assert order[j] == y;
  }

  /** The order emitted is the least of all topological orders: where another one first differs, its key is larger. */
  lemma {:induction false} GreedyIsLeast(keys: seq<CandidateKey>, nodes: set<nat>, needs: Needs, order: seq<nat>, other: seq<nat>)
    requires Greedy(keys, nodes, needs, order)
    requires Topological(nodes, needs, order) && Topological(nodes, needs, other) && other != order
    ensures exists k :: 0 <= k < |order| && k < |other| && order[..k] == other[..k] && Before(keys, order[k], other[k])
  {
    SameLength(order, other);
    var k := FirstDifference(order, other);
    assert LeastAvailable(keys, nodes, needs, Members(order[..k]), order[k]);
    assert AllDone(Required(needs, other[k]), Members(other[..k]));
    assert other[k] in Members(other);
    assert forall j :: 0 <= j < k ==> other[..k][j] == other[j];
    assert Available(needs, nodes, Members(order[..k]), other[k]);
  }

  lemma {:induction false} SameLength(a: seq<nat>, b: seq<nat>)
    requires Distinct(a) && Distinct(b) && Members(a) == Members(b)
    ensures |a| == |b|
  {
    DistinctFits(a, Members(b));
    DistinctFits(b, Members(a));
    CardinalityAtMost(a);
    CardinalityAtMost(b);
  }

  lemma {:induction false} CardinalityAtMost(s: seq<nat>)
    ensures |Members(s)| <= |s|
  {
    if s != [] {
      var rest := s[..|s| - 1];
      CardinalityAtMost(rest);
      Emitted(rest, s[|s| - 1]);
      assert s == rest + [s[|s| - 1]];
    }
  }

  lemma {:induction false} FirstDifference(a: seq<nat>, b: seq<nat>) returns (k: nat)
    requires |a| == |b| && a != b
    ensures k < |a| && a[k] != b[k] && a[..k] == b[..k]
  {
    var i :| 0 <= i < |a| && a[i] != b[i];
    k := 0;
    while a[k] == b[k]
      invariant k <= i && forall j :: 0 <= j < k ==> a[j] == b[j]
      decreases i - k
    {
      k := k + 1;
    }
  }
}
