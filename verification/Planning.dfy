/**
  The planner from end to end (crates/sysboost-core/src/planner.rs, 1245-1315 and 2853-2888): every case passes the
  gate, its candidate is filed by key, and the filed candidates are ordered into a plan.
 */
module Planning {
  import opened Outcome
  import opened Bytes
  import opened Mutation
  import opened Keys
  import opened Schedule
  import opened Ordering
  import opened PlannerOutput
  import opened Admission
  import Plan

  /** A case and the position of its feature in the table of features. */
  datatype Task = Task(subject: Case, order: u16)

  function TaskKey(t: Task): CandidateKey {
    CandidateKey(t.subject.spec.capability, t.subject.target, t.subject.spec.operation, t.order)
  }

  /** The enumeration meets each feature and each target of it once, so no two cases share a key. */
  predicate DistinctTasks(tasks: seq<Task>) {
    forall i, j :: 0 <= i < j < |tasks| ==> TaskKey(tasks[i]) != TaskKey(tasks[j])
  }

  /** The candidate the gate makes of a case. */
  function Decision(p: Policy, t: Task): (r: Result<Candidate>)
    ensures r.Ok? ==> WellBuilt(r.value) && r.value.key == TaskKey(t)
  {
    var decision :- ResolveSpec(p, t.subject);
    GateBuildsCandidates(p, t.subject, t.order);
    Ok(CandidateOf(t.subject, t.order, decision))
  }

  type Gate = Task -> Result<Candidate>

  function GateOf(p: Policy): Gate {
    (t: Task) => Decision(p, t)
  }

  /** The candidates in key order, one for each case. */
  ghost predicate Gathered(gate: Gate, tasks: seq<Task>, cs: seq<Candidate>) {
    && CandidateList(cs)
    && (forall t :: t in tasks ==> gate(t).Ok? && gate(t).value in cs)
    && (forall c :: c in cs ==> exists t :: t in tasks && gate(t) == Ok(c))
  }

  /** `insert_candidate`, for a key that is not taken. */
  method InsertCandidate(cs: seq<Candidate>, c: Candidate) returns (r: seq<Candidate>)
    requires CandidateList(cs) && WellBuilt(c) && forall x :: x in cs ==> x.key != c.key
    ensures CandidateList(r)
    ensures forall x :: x in r <==> x in cs || x == c
  {
    var i := 0;
    while i < |cs| && KeyLess(cs[i].key, c.key)
      invariant 0 <= i <= |cs|
      invariant forall j :: 0 <= j < i ==> KeyLess(cs[j].key, c.key)
    {
      i := i + 1;
    }
    forall j | i <= j < |cs| ensures KeyLess(c.key, cs[j].key) {
      assert cs[i] in cs;
      KeyTotal(cs[i].key, c.key);
      if i < j {
        assert KeyLess(KeysOf(cs)[i], KeysOf(cs)[j]);
        KeyTransitive(c.key, cs[i].key, cs[j].key);
      }
    }
    r := cs[..i] + [c] + cs[i..];
    InsertedInOrder(cs, i, c);
    assert cs == cs[..i] + cs[i..];
  }

  lemma {:induction false} InsertedInOrder(cs: seq<Candidate>, i: nat, c: Candidate)
    requires SortedKeys(KeysOf(cs)) && i <= |cs|
    requires forall j :: 0 <= j < i ==> KeyLess(cs[j].key, c.key)
    requires forall j :: i <= j < |cs| ==> KeyLess(c.key, cs[j].key)
    ensures SortedKeys(KeysOf(cs[..i] + [c] + cs[i..]))
  {
    var r := cs[..i] + [c] + cs[i..];
    forall j, k | 0 <= j < k < |r| ensures KeyLess(r[j].key, r[k].key) {
      var x, y := if j < i then j else j - 1, if k < i then k else k - 1;
      if j != i && k != i {
        assert KeyLess(KeysOf(cs)[x], KeysOf(cs)[y]);
      }
    }
  }

  /** The items of a plan made of the cases. */
  ghost predicate PlanOf(gate: Gate, tasks: seq<Task>, items: seq<Item>) {
    exists cs: seq<Candidate>, order: seq<nat> :: Gathered(gate, tasks, cs) && BuiltAlong(cs, order, items)
  }

  /** Why the cases make no plan: the gate fails on a case, or ordering refuses the gathered candidates. */
  ghost predicate NoPlan(gate: Gate, tasks: seq<Task>) {
    || (exists t :: t in tasks && gate(t).Err?)
    || (exists cs: seq<Candidate>, why: Refusal :: Gathered(gate, tasks, cs) && Unplannable(cs, why))
  }

  /** The gate files every candidate under the key of its case. */
  ghost predicate Files(gate: Gate) {
    forall t :: gate(t).Ok? ==> WellBuilt(gate(t).value) && gate(t).value.key == TaskKey(t)
  }

  /** Gate, candidate map and ordering, for any gate. */
  method ResolveWith(gate: Gate, tasks: seq<Task>) returns (r: Option<seq<Item>>)
    requires Files(gate) && DistinctTasks(tasks)
    ensures r.Some? ==> PlanOf(gate, tasks, r.value)
    ensures r.None? ==> NoPlan(gate, tasks)
  {
    var cs: seq<Candidate> := [];
    for i := 0 to |tasks|
      invariant CandidateList(cs)
      invariant forall j :: 0 <= j < i ==> gate(tasks[j]).Ok? && gate(tasks[j]).value in cs
      invariant forall c :: c in cs ==> exists j :: 0 <= j < i && gate(tasks[j]) == Ok(c)
    {
      var made := gate(tasks[i]);
      if made.Err? {
        assert tasks[i] in tasks;
        return None;
      }
      cs := InsertCandidate(cs, made.value);
    }
    assert Gathered(gate, tasks, cs);
    var finalized := Finalize(cs);
    if finalized.Stopped? {
      return None;
    }
    r := Some(finalized.items);
  }

  /** `resolve`. */
  method Resolve(p: Policy, tasks: seq<Task>) returns (r: Option<seq<Item>>)
    requires DistinctTasks(tasks)
    ensures r.Some? ==> PlanOf(GateOf(p), tasks, r.value)
    ensures r.None? ==> NoPlan(GateOf(p), tasks)
  {
    r := ResolveWith(GateOf(p), tasks);
  }

  // ----- a plan made of the gathered candidates is accepted

  /** The mutations of a plan pass the dependency layer of plan validation. */
  lemma {:induction false} ResolvedPlanAccepted(gate: Gate, tasks: seq<Task>, items: seq<Item>)
    requires PlanOf(gate, tasks, items) && |items| <= 0xFFFF_FFFF
    ensures Plan.WellFormed(FromItems(items)) && Plan.InOrder(FromItems(items))
  {
    var cs: seq<Candidate>, order: seq<nat> :| Gathered(gate, tasks, cs) && BuiltAlong(cs, order, items);
    PlannerOutputAccepted(cs, order, items);
  }

  // ----- tightening shrinks the finished plan

  lemma {:induction false} SortedKeysUnique(a: seq<CandidateKey>, b: seq<CandidateKey>)
    requires SortedKeys(a) && SortedKeys(b) && forall k :: k in a <==> k in b
    ensures a == b
  {
    forall x, y | KeyLess(x, y) ensures !KeyLess(y, x) {
      KeyTotal(x, y);
    }
    AscendingUnique(KeyLess, a, b);
  }

  lemma {:induction false} GatheredKeys(gate: Gate, tasks: seq<Task>, cs: seq<Candidate>, k: CandidateKey)
    requires Files(gate) && Gathered(gate, tasks, cs)
    ensures k in KeysOf(cs) <==> exists t :: t in tasks && TaskKey(t) == k
  {
    if t :| t in tasks && TaskKey(t) == k {
      var i :| 0 <= i < |cs| && cs[i] == gate(t).value;
      assert KeysOf(cs)[i] == k;
    }
    if i :| 0 <= i < |cs| && KeysOf(cs)[i] == k {
      assert cs[i] in cs;
    }
  }

  lemma {:induction false} TaskByKey(tasks: seq<Task>, t: Task, u: Task)
    requires DistinctTasks(tasks) && t in tasks && u in tasks && TaskKey(t) == TaskKey(u)
    ensures t == u
  {
    var i :| 0 <= i < |tasks| && tasks[i] == t;
    var j :| 0 <= j < |tasks| && tasks[j] == u;
  }

  /** What the first gate makes executable the second one makes the same candidate. */
  ghost predicate GateTighter(p: Gate, q: Gate) {
    forall t :: p(t).Ok? && p(t).value.draft.Some? && q(t).Ok? ==> q(t) == p(t)
  }

  lemma {:induction false} PolicyGate(p: Policy, q: Policy)
    ensures Files(GateOf(p))
    ensures Tighter(p, q) ==> GateTighter(GateOf(p), GateOf(q))
  {
    if Tighter(p, q) {
      forall t | Decision(p, t).Ok? && Decision(p, t).value.draft.Some? && Decision(q, t).Ok?
        ensures Decision(q, t) == Decision(p, t)
      {
        TighteningIsMonotone(p, q, t.subject);
      }
    }
  }

  /** One change under possibly different IDs. */
  predicate SameChange(m: PlannedMutation, n: PlannedMutation) {
    && m.capability == n.capability && m.target == n.target && m.kind == n.kind && m.desired == n.desired
    && m.precondition == n.precondition && m.equality == n.equality && m.rollback == n.rollback
  }

  /** Item by item, what the first plan changes the second changes too. */
  predicate PlansNoMore(a: seq<Item>, b: seq<Item>) {
    && |a| == |b|
    && forall i :: 0 <= i < |a| ==>
         && a[i].key == b[i].key
         && (a[i].mutation.Some? ==>
               && b[i].mutation.Some? && SameChange(a[i].mutation.value, b[i].mutation.value)
               && b[i].identity == a[i].identity)
  }

  lemma {:induction false} ItemChange(
    cs: seq<Candidate>, order: seq<nat>, a: seq<Item>, ds: seq<Candidate>, other: seq<nat>, b: seq<Item>, i: nat)
    requires CandidateList(cs) && BuiltAlong(cs, order, a) && CandidateList(ds) && BuiltAlong(ds, other, b)
    requires i < |cs| && i < |ds| && a[i].mutation.Some? && (cs[i].draft.Some? ==> ds[i] == cs[i])
    ensures b[i].mutation.Some? && SameChange(a[i].mutation.value, b[i].mutation.value)
    ensures b[i].identity == a[i].identity
  {
    assert ItemBuilt(cs, order, a, i) && ItemBuilt(ds, other, b, i);
    assert i in Nodes(cs) && i in Nodes(ds);
  }

  /** The candidates of two gates stand side by side under the same keys. */
  lemma {:induction false} SideBySide(
    p: Gate, q: Gate, tasks: seq<Task>, cs: seq<Candidate>, ds: seq<Candidate>)
    requires Files(p) && Files(q) && DistinctTasks(tasks) && Gathered(p, tasks, cs) && Gathered(q, tasks, ds)
    requires GateTighter(p, q)
    ensures |cs| == |ds|
    ensures forall i :: 0 <= i < |cs| ==> cs[i].key == ds[i].key && (cs[i].draft.Some? ==> ds[i] == cs[i])
  {
    forall k ensures k in KeysOf(cs) <==> k in KeysOf(ds) {
      GatheredKeys(p, tasks, cs, k);
      GatheredKeys(q, tasks, ds, k);
    }
    SortedKeysUnique(KeysOf(cs), KeysOf(ds));
    forall i | 0 <= i < |cs| ensures cs[i].key == ds[i].key && (cs[i].draft.Some? ==> ds[i] == cs[i]) {
      assert KeysOf(cs)[i] == KeysOf(ds)[i];
      assert cs[i] in cs && ds[i] in ds;
      var t :| t in tasks && p(t) == Ok(cs[i]);
      var u :| u in tasks && q(u) == Ok(ds[i]);
      TaskByKey(tasks, t, u);
    }
  }

  lemma {:induction false} TighterGatePlansNoMore(p: Gate, q: Gate, tasks: seq<Task>, a: seq<Item>, b: seq<Item>)
    requires Files(p) && Files(q) && DistinctTasks(tasks) && GateTighter(p, q)
    requires PlanOf(p, tasks, a) && PlanOf(q, tasks, b)
    ensures PlansNoMore(a, b)
  {
    var cs: seq<Candidate>, order: seq<nat> :| Gathered(p, tasks, cs) && BuiltAlong(cs, order, a);
    var ds: seq<Candidate>, other: seq<nat> :| Gathered(q, tasks, ds) && BuiltAlong(ds, other, b);
    SideBySide(p, q, tasks, cs, ds);
    forall i | 0 <= i < |a|
      ensures a[i].key == b[i].key
      ensures a[i].mutation.Some? ==> b[i].mutation.Some? && SameChange(a[i].mutation.value, b[i].mutation.value)
      ensures a[i].mutation.Some? ==> b[i].identity == a[i].identity
    {
      assert ItemBuilt(cs, order, a, i) && ItemBuilt(ds, other, b, i);
      if a[i].mutation.Some? {
        ItemChange(cs, order, a, ds, other, b, i);
      }
    }
  }

  /** When both policies make a plan of the same cases, the finished plan of the tighter one changes nothing that
      the plan of the looser one does not change in the same way. */
  lemma {:induction false} TighterPolicyPlansNoMore(
    p: Policy, q: Policy, tasks: seq<Task>, a: seq<Item>, b: seq<Item>)
    requires DistinctTasks(tasks) && Tighter(p, q)
    requires PlanOf(GateOf(p), tasks, a) && PlanOf(GateOf(q), tasks, b)
    ensures PlansNoMore(a, b)
  {
    PolicyGate(p, q);
    PolicyGate(q, p);
    TighterGatePlansNoMore(GateOf(p), GateOf(q), tasks, a, b);
  }
}
