/** Dependency graphs over numbered nodes: walks, cycles, and the two ways of deciding that there is none. */
module Graph {

  /** The nodes a node depends on. */
  type Edges = nat -> seq<nat>

  /** Each node of a walk depends on the next. */
  predicate Walk(edges: Edges, w: seq<nat>) {
    forall i :: 0 <= i < |w| - 1 ==> w[i + 1] in edges(w[i])
  }

  predicate ClosedWalk(edges: Edges, w: seq<nat>) {
    |w| >= 2 && Walk(edges, w) && w[0] == w[|w| - 1]
  }

  ghost predicate HasCycle(edges: Edges) {
    exists w :: ClosedWalk(edges, w)
  }

  /** Some walk from a node comes back to a node of the stack or to itself. */
  ghost predicate Returns(edges: Edges, from: nat, stack: seq<nat>) {
    exists w :: ReturningWalk(edges, from, stack, w)
  }

  predicate ReturningWalk(edges: Edges, from: nat, stack: seq<nat>, w: seq<nat>) {
    && |w| >= 1 && w[0] == from && Walk(edges, w)
    && (w[|w| - 1] in stack || w[|w| - 1] in w[..|w| - 1])
  }

  /** Off the stack, a node returns exactly when one of its dependencies returns with the node stacked. */
  lemma {:induction false} ReturnsThroughDependency(edges: Edges, from: nat, stack: seq<nat>)
    requires from !in stack
    ensures Returns(edges, from, stack) <==> exists d :: d in edges(from) && Returns(edges, d, stack + [from])
  {
    if Returns(edges, from, stack) {
      var w :| ReturningWalk(edges, from, stack, w);
      var tail := w[1..];
      assert |w| >= 2 && w[1] in edges(w[0]);
      forall i | 0 <= i < |tail| - 1 ensures tail[i + 1] in edges(tail[i]) {
        assert w[i + 1 + 1] in edges(w[i + 1]);
      }
      assert w[..|w| - 1] == [from] + tail[..|tail| - 1];
      assert ReturningWalk(edges, w[1], stack + [from], tail);
    }
    if d :| d in edges(from) && Returns(edges, d, stack + [from]) {
      var tail :| ReturningWalk(edges, d, stack + [from], tail);
      var w := [from] + tail;
      forall i | 0 <= i < |w| - 1 ensures w[i + 1] in edges(w[i]) {
        if i > 0 {
          assert tail[i - 1 + 1] in edges(tail[i - 1]);
        }
      }
      assert w[..|w| - 1] == [from] + tail[..|tail| - 1];
      assert ReturningWalk(edges, from, stack, w);
    }
  }

  lemma {:induction false} Slice(edges: Edges, w: seq<nat>, i: nat, j: nat)
    requires Walk(edges, w) && i < j < |w| && w[i] == w[j]
    ensures ClosedWalk(edges, w[i..j + 1])
  {
    var c := w[i..j + 1];
    forall k | 0 <= k < |c| - 1 ensures c[k + 1] in edges(c[k]) {
      assert w[i + k + 1] in edges(w[i + k]);
    }
  }

  /** With an empty stack, some node returns exactly when the graph has a cycle. */
  lemma {:induction false} ReturnsMeansCycle(edges: Edges)
    ensures (exists from :: Returns(edges, from, [])) <==> HasCycle(edges)
  {
    if from :| Returns(edges, from, []) {
      var w :| ReturningWalk(edges, from, [], w);
      var i :| 0 <= i < |w| - 1 && w[i] == w[|w| - 1];
      Slice(edges, w, i, |w| - 1);
    }
    if w :| ClosedWalk(edges, w) {
      assert w[0] == w[..|w| - 1][0];
      assert ReturningWalk(edges, w[0], [], w);
      assert Returns(edges, w[0], []);
    }
  }

  /** A graph whose edges all lead to a smaller rank has no cycle. */
  lemma {:induction false} RankedIsAcyclic(edges: Edges, rank: nat -> nat)
    requires forall x, y :: y in edges(x) ==> rank(y) < rank(x)
    ensures !HasCycle(edges)
  {
    forall w | ClosedWalk(edges, w) ensures false {
      RankFalls(edges, rank, w, |w| - 1);
    }
  }

  lemma {:induction false} RankFalls(edges: Edges, rank: nat -> nat, w: seq<nat>, i: nat)
    requires forall x, y :: y in edges(x) ==> rank(y) < rank(x)
    requires Walk(edges, w) && 0 < i < |w|
    ensures rank(w[i]) < rank(w[0])
  {
    assert w[i - 1 + 1] in edges(w[i - 1]);
    if i > 1 {
      RankFalls(edges, rank, w, i - 1);
    }
  }

  // ----- a set of nodes that all wait for each other holds a cycle

  predicate Waits(edges: Edges, stuck: set<nat>, x: nat) {
    exists y :: y in edges(x) && y in stuck
  }

  lemma {:induction false} LongWalk(edges: Edges, stuck: set<nat>, start: nat, n: nat) returns (w: seq<nat>)
    requires start in stuck && forall x :: x in stuck ==> Waits(edges, stuck, x)
    ensures |w| == n + 1 && w[0] == start && Walk(edges, w) && forall x :: x in w ==> x in stuck
    decreases n
  {
    if n == 0 {
      w := [start];
    } else {
      assert Waits(edges, stuck, start);
      var next :| next in edges(start) && next in stuck;
      var tail := LongWalk(edges, stuck, next, n - 1);
      w := [start] + tail;
      forall i | 0 <= i < |w| - 1 ensures w[i + 1] in edges(w[i]) {
        if i > 0 {
          assert tail[i - 1 + 1] in edges(tail[i - 1]);
        }
      }
    }
  }

  predicate Distinct(w: seq<nat>) {
    forall i, j :: 0 <= i < j < |w| ==> w[i] != w[j]
  }

  lemma {:induction false} DistinctFits(w: seq<nat>, s: set<nat>)
    requires Distinct(w) && forall x :: x in w ==> x in s
    ensures |w| <= |s|
  {
    if w != [] {
      var last := w[|w| - 1];
      DistinctFits(w[..|w| - 1], s - {last});
    }
  }

  lemma {:induction false} StuckHasCycle(edges: Edges, stuck: set<nat>)
    requires stuck != {} && forall x :: x in stuck ==> Waits(edges, stuck, x)
    ensures HasCycle(edges)
  {
    var start :| start in stuck;
    var w := LongWalk(edges, stuck, start, |stuck|);
    if Distinct(w) {
      DistinctFits(w, stuck);
      assert false;
    }
    var i, j :| 0 <= i < j < |w| && w[i] == w[j];
    Slice(edges, w, i, j);
  }
}
