/**
  The planner and the plan validator together (crates/sysboost-core/src/planner.rs, 2890-3033;
  plan.rs, 135-159 and 201-309): what ordering emits, validation accepts.
 */
module PlannerOutput {
  import opened Outcome
  import opened Bytes
  import opened Mutation
  import opened Graph
  import opened Keys
  import opened Schedule
  import opened Ordering
  import Plan

  /** The constructor of mutations takes the draft of candidate `i`. */
  predicate DraftAccepted(c: Candidate) {
    c.draft.Some? ==> KindAccepted(c.draft.value.kind) && c.draft.value.desired == Desired(c.draft.value.kind)
  }

  /** Why there is no plan: the dependencies are refused, or met but cyclic, or a draft is not accepted (or there are
      more candidates than IDs). */
  ghost predicate Unplannable(cs: seq<Candidate>, why: Refusal) {
    match why
    case CyclicDependencies => DependenciesMet(cs) && Cyclic(cs)
    case InvalidMutation =>
      && DependenciesMet(cs) && !Cyclic(cs)
      && ((exists i :: 0 <= i < |cs| && !DraftAccepted(cs[i])) || |cs| > 0xFFFF_FFFF)
    case _ => RefusedFor(cs, why)
  }

  /** Item `j` carries a mutation that the mutation of item `i` depends on. */
  predicate Linked(items: seq<Item>, i: nat, j: nat) {
    && i < |items| && j < |items| && items[i].mutation.Some? && items[j].mutation.Some?
    && items[j].mutation.value.id in items[i].mutation.value.dependencies
  }

  /** What `i` depends on has the smaller ID. */
  predicate LinkedBefore(items: seq<Item>, i: nat, j: nat) {
    Linked(items, i, j) && items[j].mutation.value.id < items[i].mutation.value.id
  }

  /** Every executable candidate that is depended on is linked, and every dependency ID is that of one; without
      wrap-around what is depended on has the smaller ID. */
  ghost predicate DependenciesKept(cs: seq<Candidate>, items: seq<Item>) {
    && |items| == |cs|
    && (forall i, j :: DependsOn(cs, i, j) ==> Linked(items, i, j))
    && (forall i, id :: 0 <= i < |items| && items[i].mutation.Some? && id in items[i].mutation.value.dependencies ==>
          exists j: nat :: DependsOn(cs, i, j) && Linked(items, i, j) && items[j].mutation.value.id == id)
    && (|cs| <= 0xFFFF_FFFF ==> forall i, j :: DependsOn(cs, i, j) ==> LinkedBefore(items, i, j))
  }

  /** `finalize_candidates`: the items of a plan along the least topological order, or why there is none. */
  method Finalize(cs: seq<Candidate>) returns (r: Finalized)
    requires CandidateList(cs)
    ensures r.Built? ==> exists order :: BuiltAlong(cs, order, r.items)
    ensures r.Built? ==> DependenciesMet(cs) && !Cyclic(cs) && DependenciesKept(cs, r.items)
    ensures r.Stopped? ==> Unplannable(cs, r.why)
  {
    var nodes := MutationIndices(cs);
    var needs, refusal := Resolve(cs, nodes);
    if refusal.Some? {
      return Stopped(refusal.value);
    }
    NeedsAreGraph(cs);
    CyclesAreDependencies(cs);
    var order := Emit(KeysOf(cs), nodes, needs);
    CompleteUnlessCycle(KeysOf(cs), Nodes(cs), needs, order);
    EmittedHaveAll(KeysOf(cs), Nodes(cs), needs, order);
    if |order| != |nodes| {
      if Members(order) == Nodes(cs) {
        SameLength(order, nodes);
      }
      return Stopped(CyclicDependencies);
    }
    FullLength(order, nodes);
    r := BuildItems(cs, needs, order);
    if r.Built? {
      assert BuiltAlong(cs, order, r.items);
      AlreadySorted(cs, order, r.items);
      r := Built(SortItems(r.items));
      BuiltKeeps(cs, order, r.items);
    } else {
      ghost var i :| i in Nodes(cs) && PlannedAt(cs, order, i).Err?;
      PlannedRefused(cs, order, i);
    }
  }

  lemma {:induction false} OwnIdFree(cs: seq<Candidate>, order: seq<nat>, i: nat)
    requires CandidateList(cs) && Topological(Nodes(cs), NeedsOf(cs), order) && |cs| <= 0xFFFF_FFFF && i in Nodes(cs)
    ensures IdAt(Place(order, i)) !in IdsOf(order, Required(NeedsOf(cs), i))
  {
    SmallOrder(cs, order);
    NeedsDistinct(cs, i);
    NeededIds(Nodes(cs), NeedsOf(cs), order, i);
    assert i in Members(order);
    assert IdAt(Place(order, i)) == Place(order, i) + 1;
  }

  /** A draft is refused only by the constructor, or for want of IDs. */
  lemma {:induction false} PlannedRefused(cs: seq<Candidate>, order: seq<nat>, i: nat)
    requires CandidateList(cs) && Topological(Nodes(cs), NeedsOf(cs), order)
    requires i in Nodes(cs) && PlannedAt(cs, order, i).Err?
    ensures !DraftAccepted(cs[i]) || |cs| > 0xFFFF_FFFF
  {
    if |cs| <= 0xFFFF_FFFF {
      OwnIdFree(cs, order, i);
    }
  }

  lemma {:induction false} BuiltLinks(cs: seq<Candidate>, order: seq<nat>, items: seq<Item>, i: nat, j: nat)
    requires CandidateList(cs) && DependenciesMet(cs) && BuiltAlong(cs, order, items) && DependsOn(cs, i, j)
    ensures Linked(items, i, j)
  {
    NeedsMeaning(cs);
    assert i < |cs| && j < |cs| && cs[i].draft.Some? && cs[j].draft.Some?;
    assert ItemBuilt(cs, order, items, i) && ItemBuilt(cs, order, items, j);
    var required := Required(NeedsOf(cs), i);
    assert j in required;
    var k :| 0 <= k < |required| && required[k] == j;
    assert IdsOf(order, required)[k] == items[j].mutation.value.id;
  }

  lemma {:induction false} LinkedIds(
    cs: seq<Candidate>, order: seq<nat>, items: seq<Item>, i: nat, id: MutationId) returns (j: nat)
    requires CandidateList(cs) && DependenciesMet(cs) && BuiltAlong(cs, order, items)
    requires i < |items| && items[i].mutation.Some? && id in items[i].mutation.value.dependencies
    ensures DependsOn(cs, i, j) && Linked(items, i, j) && items[j].mutation.value.id == id
  {
    NeedsMeaning(cs);
    assert ItemBuilt(cs, order, items, i);
    var required := Required(NeedsOf(cs), i);
    var ids := IdsOf(order, required);
    var k :| 0 <= k < |ids| && ids[k] == id;
    j := required[k];
    assert j in required;
    BuiltLinks(cs, order, items, i, j);
    assert ItemBuilt(cs, order, items, j);
  }

  lemma {:induction false} BuiltKeeps(cs: seq<Candidate>, order: seq<nat>, items: seq<Item>)
    requires CandidateList(cs) && DependenciesMet(cs) && BuiltAlong(cs, order, items)
    ensures DependenciesKept(cs, items)
  {
    forall i: nat, j: nat | DependsOn(cs, i, j) ensures Linked(items, i, j) {
      BuiltLinks(cs, order, items, i, j);
    }
    forall i, id | 0 <= i < |items| && items[i].mutation.Some? && id in items[i].mutation.value.dependencies
      ensures exists j: nat :: DependsOn(cs, i, j) && Linked(items, i, j) && items[j].mutation.value.id == id
    {
      var j := LinkedIds(cs, order, items, i, id);
    }
    if |cs| <= 0xFFFF_FFFF {
      forall i: nat, j: nat | DependsOn(cs, i, j) ensures LinkedBefore(items, i, j) {
        DependedFirst(cs, order, items, i, j);
      }
    }
  }

  lemma {:induction false} DependedFirst(cs: seq<Candidate>, order: seq<nat>, items: seq<Item>, i: nat, j: nat)
    requires CandidateList(cs) && DependenciesMet(cs) && BuiltAlong(cs, order, items) && DependsOn(cs, i, j)
    requires |cs| <= 0xFFFF_FFFF
    ensures LinkedBefore(items, i, j)
  {
    BuiltLinks(cs, order, items, i, j);
    ItemNumbered(cs, order, items, i);
    ItemNumbered(cs, order, items, j);
    NeedsMeaning(cs);
    assert ItemBuilt(cs, order, items, i);
    NeedsComeFirst(Nodes(cs), NeedsOf(cs), order, i, j);
  }

  /** With IDs to spare, there is a plan exactly when all dependencies are met, without a cycle, and every draft is
      accepted. */
  lemma {:induction false} PlannableExactly(cs: seq<Candidate>, why: Refusal)
    requires CandidateList(cs) && |cs| <= 0xFFFF_FFFF && Unplannable(cs, why)
    ensures !(DependenciesMet(cs) && !Cyclic(cs) && forall i :: 0 <= i < |cs| ==> DraftAccepted(cs[i]))
  {
    if why.MissingOperation? {
      var i, d :| Declares(cs, i, d) && forall j :: !Meets(cs, i, d, j);
      assert !Met(cs, i, d);
    }
    if why.NotAdmitted? {
      var i, d, j: nat :| && Declares(cs, i, d) && Meets(cs, i, d, j)
        && !cs[j].action.Mutate? && !cs[j].action.NoOp? && !cs[j].action.Preserved?;
      forall k: nat | Meets(cs, i, d, k) ensures k == j {
        MeetsOnce(cs, i, d, j, k);
      }
      assert !Met(cs, i, d);
    }
    if why.DependsOnItself? {
      var i, d :| Declares(cs, i, d) && Meets(cs, i, d, i);
      assert DependsOn(cs, i, i);
      ItselfIsUnmet(cs, i);
    }
  }

  // ----- the closing sort by key and action

  function ActionRank(a: Action): nat {
    match a
    case Mutate => 0
    case NoOp => 1
    case Unsupported => 2
    case Preserved => 3
    case ExplicitOptInRequired => 4
    case ExperimentalDisabled => 5
    case DeniedByPolicy => 6
    case CapabilityDenied => 7
    case Indeterminate => 8
  }

  predicate ItemLess(x: Item, y: Item) {
    KeyLess(x.key, y.key) || (x.key == y.key && ActionRank(x.action) < ActionRank(y.action))
  }

  function InsertItem(x: Item, s: seq<Item>): seq<Item> {
    if s == [] || !ItemLess(x, s[|s| - 1]) then s + [x]
    else InsertItem(x, s[..|s| - 1]) + [s[|s| - 1]]
  }

  function SortItems(items: seq<Item>): seq<Item> {
    if items == [] then [] else InsertItem(items[|items| - 1], SortItems(items[..|items| - 1]))
  }

  lemma {:induction false} NotBefore(x: Item, y: Item)
    requires KeyLess(y.key, x.key)
    ensures !ItemLess(x, y)
  {
    KeyTotal(y.key, x.key);
  }

  lemma {:induction false} SortKeepsOrder(items: seq<Item>)
    requires forall i, j :: 0 <= i < j < |items| ==> KeyLess(items[i].key, items[j].key)
    ensures SortItems(items) == items
    decreases |items|
  {
    if items != [] {
      var rest, last := items[..|items| - 1], items[|items| - 1];
      assert items == rest + [last];
      SortKeepsOrder(rest);
      if rest != [] {
        NotBefore(last, rest[|rest| - 1]);
      }
    }
  }

  /** The items stand in the strict key order of the candidates, so the closing sort moves none. */
  lemma {:induction false} AlreadySorted(cs: seq<Candidate>, order: seq<nat>, items: seq<Item>)
    requires CandidateList(cs) && BuiltAlong(cs, order, items)
    ensures SortItems(items) == items
  {
    forall i, j | 0 <= i < j < |items| ensures KeyLess(items[i].key, items[j].key) {
      assert ItemBuilt(cs, order, items, i) && ItemBuilt(cs, order, items, j);
      assert KeyLess(KeysOf(cs)[i], KeysOf(cs)[j]);
    }
    SortKeepsOrder(items);
  }

  /** Distinct nodes of the right number are all the nodes. */
  lemma {:induction false} FullLength(order: seq<nat>, nodes: seq<nat>)
    requires Distinct(order) && Distinct(nodes) && |order| == |nodes| && Members(order) <= Members(nodes)
    ensures Members(order) == Members(nodes)
  {
    DistinctCardinality(order);
    DistinctCardinality(nodes);
    var rest := Members(nodes) - Members(order);
    assert Members(nodes) == Members(order) + rest;
    assert |Members(nodes)| == |Members(order)| + |rest|;
  }

  lemma {:induction false} DistinctCardinality(s: seq<nat>)
    requires Distinct(s)
    ensures |Members(s)| == |s|
  {
    CardinalityAtMost(s);
    DistinctFits(s, Members(s));
  }

  // ----- `Plan::from_items`: collect the mutations and sort them by ID

  function Mutations(items: seq<Item>): seq<PlannedMutation> {
    if items == [] then []
    else
      var before := Mutations(items[..|items| - 1]);
      var last := items[|items| - 1].mutation;
      if last.Some? then before + [last.value] else before
  }

  /** Inserts behind every mutation with an ID that is not larger. */
  function InsertById(m: PlannedMutation, s: seq<PlannedMutation>): seq<PlannedMutation> {
    if s == [] then [m]
    else if s[|s| - 1].id <= m.id then s + [m]
    else InsertById(m, s[..|s| - 1]) + [s[|s| - 1]]
  }

  function SortById(ms: seq<PlannedMutation>): seq<PlannedMutation> {
    if ms == [] then [] else InsertById(ms[|ms| - 1], SortById(ms[..|ms| - 1]))
  }

  function FromItems(items: seq<Item>): seq<PlannedMutation> {
    SortById(Mutations(items))
  }

  predicate IdsIncrease(s: seq<PlannedMutation>) {
    forall i, j :: 0 <= i < j < |s| ==> s[i].id < s[j].id
  }

  predicate SameElements(a: seq<PlannedMutation>, b: seq<PlannedMutation>) {
    (forall x :: x in a ==> x in b) && (forall x :: x in b ==> x in a)
  }

  lemma {:induction false} InsertIncreases(m: PlannedMutation, s: seq<PlannedMutation>)
    requires IdsIncrease(s) && forall x :: x in s ==> x.id != m.id
    ensures IdsIncrease(InsertById(m, s))
    ensures forall x :: x in InsertById(m, s) <==> x in s || x == m
    decreases |s|
  {
    if s != [] {
      var rest, last := s[..|s| - 1], s[|s| - 1];
      assert s == rest + [last];
      if last.id > m.id {
        InsertIncreases(m, rest);
        forall x | x in InsertById(m, rest) ensures x.id < last.id {
        }
      }
    }
  }

  lemma {:induction false} SortIncreases(ms: seq<PlannedMutation>)
    requires UniqueIds(ms)
    ensures IdsIncrease(SortById(ms)) && SameElements(SortById(ms), ms)
    decreases |ms|
  {
    if ms != [] {
      var rest, last := ms[..|ms| - 1], ms[|ms| - 1];
      assert ms == rest + [last];
      SortIncreases(rest);
      InsertIncreases(last, SortById(rest));
    }
  }

  /** A list in strict ID order is determined by its elements. */
  lemma {:induction false} IncreasingUnique(a: seq<PlannedMutation>, b: seq<PlannedMutation>)
    requires IdsIncrease(a) && IdsIncrease(b) && SameElements(a, b)
    ensures a == b
  {
    AscendingUnique((x: PlannedMutation, y: PlannedMutation) => x.id < y.id, a, b);
  }

  // ----- the planned mutations along the order

  /** The planned mutations in the order in which they got their IDs. */
  function Emission(items: seq<Item>, order: seq<nat>): (ms: seq<PlannedMutation>)
    requires forall p :: 0 <= p < |order| ==> order[p] < |items| && items[order[p]].mutation.Some?
    ensures |ms| == |order| && forall p :: 0 <= p < |order| ==> ms[p] == items[order[p]].mutation.value
  {
    seq(|order|, p requires 0 <= p < |order| => items[order[p]].mutation.value)
  }

  lemma {:induction false} MutationsOf(items: seq<Item>, x: PlannedMutation)
    ensures x in Mutations(items) <==> exists i :: 0 <= i < |items| && items[i].mutation == Some(x)
    decreases |items|
  {
    if items != [] {
      var rest := items[..|items| - 1];
      MutationsOf(rest, x);
      if i :| 0 <= i < |rest| && rest[i].mutation == Some(x) {
        assert items[i].mutation == Some(x);
      }
      if i :| 0 <= i < |items| && items[i].mutation == Some(x) {
        assert i < |rest| ==> rest[i].mutation == Some(x);
      }
    }
  }

  lemma {:induction false} MutationsUnique(items: seq<Item>)
    requires forall i, j :: 0 <= i < j < |items| && items[i].mutation.Some? && items[j].mutation.Some? ==>
               items[i].mutation.value.id != items[j].mutation.value.id
    ensures UniqueIds(Mutations(items))
    decreases |items|
  {
    if items != [] {
      var rest := items[..|items| - 1];
      MutationsUnique(rest);
      forall x | x in Mutations(rest) && items[|items| - 1].mutation.Some?
        ensures x.id != items[|items| - 1].mutation.value.id
      {
        MutationsOf(rest, x);
      }
    }
  }

  /** Without wrap-around the mutation at place `p` has the ID `p + 1` and depends on smaller IDs of the plan. */
  predicate Numbered(ms: seq<PlannedMutation>) {
    && (forall p :: 0 <= p < |ms| ==> ms[p].id == p + 1)
    && (forall p :: 0 <= p < |ms| ==> Distinct(ms[p].dependencies))
    && (forall p, d :: 0 <= p < |ms| && d in ms[p].dependencies ==> 1 <= d <= p)
  }

  /** The IDs of what a node needs are distinct and smaller than its own. */
  lemma {:induction false} NeededIds(nodes: set<nat>, needs: Schedule.Needs, order: seq<nat>, i: nat)
    requires Topological(nodes, needs, order) && |order| <= 0xFFFF_FFFF
    requires i in nodes && Distinct(Required(needs, i))
    ensures var ids := IdsOf(order, Required(needs, i));
            Distinct(ids) && forall d :: d in ids ==> 1 <= d <= Place(order, i)
  {
    var required := Required(needs, i);
    forall k | 0 <= k < |required| ensures Place(order, required[k]) < Place(order, i) < |order| {
      NeedsComeFirst(nodes, needs, order, i, required[k]);
    }
    var ids := IdsOf(order, required);
    forall j, k | 0 <= j < k < |ids| ensures ids[j] != ids[k] {
      assert required[j] != required[k];
    }
  }

  lemma {:induction false} EmissionNumbered(cs: seq<Candidate>, order: seq<nat>, items: seq<Item>, p: nat)
    requires CandidateList(cs) && |cs| <= 0xFFFF_FFFF && BuiltAlong(cs, order, items) && p < |order|
    ensures order[p] in Nodes(cs) && items[order[p]].mutation.Some?
    ensures var m := items[order[p]].mutation.value;
            && m.id == p + 1 && Distinct(m.dependencies)
            && forall d :: d in m.dependencies ==> 1 <= d <= p
  {
    var i := order[p];
    assert i in Members(order) && ItemBuilt(cs, order, items, i);
    SmallOrder(cs, order);
    assert Place(order, i) == p;
    NeedsDistinct(cs, i);
    NeededIds(Nodes(cs), NeedsOf(cs), order, i);
  }

  lemma {:induction false} NeedsDistinct(cs: seq<Candidate>, i: nat)
    requires CandidateList(cs)
    ensures Distinct(Required(NeedsOf(cs), i))
  {
    NeedsAreGraph(cs);
  }

  lemma {:induction false} SmallOrder(cs: seq<Candidate>, order: seq<nat>)
    requires Members(order) == Nodes(cs) && Distinct(order)
    ensures |order| <= |cs|
  {
    forall x | x in order ensures x in UpTo(|cs|) {
      assert x in Members(order);
    }
    DistinctFits(order, UpTo(|cs|));
  }

  function UpTo(n: nat): (s: set<nat>)
    ensures |s| == n
    ensures forall x: nat :: x in s <==> x < n
  {
    if n == 0 then {} else UpTo(n - 1) + {n - 1}
  }

  lemma {:induction false} NumberedAccepted(ms: seq<PlannedMutation>)
    requires Numbered(ms)
    ensures Plan.WellFormed(ms) && Plan.InOrder(ms)
  {
    forall p, d | 0 <= p < |ms| && d in ms[p].dependencies
      ensures Plan.PositionOf(ms, d) == d - 1 && Plan.Contains(ms, d)
    {
      assert ms[d - 1].id == d;
      var k := Plan.PositionOf(ms, d);
      assert k < |ms| ==> ms[k].id == k + 1;
    }
    forall p | 0 <= p < |ms| ensures Plan.Closed(ms, ms[p]) && Plan.Earlier(ms, p) {
    }
  }

  /** Collecting and sorting the items yields the mutations in the order they were emitted. */
  lemma {:induction false} SortedIsEmission(cs: seq<Candidate>, order: seq<nat>, items: seq<Item>)
    requires CandidateList(cs) && |cs| <= 0xFFFF_FFFF && BuiltAlong(cs, order, items)
    ensures forall p :: 0 <= p < |order| ==> order[p] < |items| && items[order[p]].mutation.Some?
    ensures FromItems(items) == Emission(items, order)
    ensures Numbered(FromItems(items))
  {
    forall p | 0 <= p < |order| ensures order[p] < |items| && items[order[p]].mutation.Some? {
      EmissionNumbered(cs, order, items, p);
    }
    var ms := Emission(items, order);
    forall p | 0 <= p < |ms|
      ensures ms[p].id == p + 1 && Distinct(ms[p].dependencies) && forall d :: d in ms[p].dependencies ==> 1 <= d <= p
    {
      EmissionNumbered(cs, order, items, p);
    }
    ItemsAreEmission(cs, order, items);
    SortIncreases(Mutations(items));
    IncreasingUnique(SortById(Mutations(items)), ms);
  }

  /** Each item with a mutation has a place in the order, and its mutation the ID of that place. */
  lemma {:induction false} ItemNumbered(cs: seq<Candidate>, order: seq<nat>, items: seq<Item>, i: nat)
    requires CandidateList(cs) && |cs| <= 0xFFFF_FFFF && BuiltAlong(cs, order, items)
    requires i < |items| && items[i].mutation.Some?
    ensures Place(order, i) < |order| && items[i].mutation.value.id == Place(order, i) + 1
  {
    assert ItemBuilt(cs, order, items, i);
    assert i in Nodes(cs) && i in Members(order);
    EmissionNumbered(cs, order, items, Place(order, i));
  }

  lemma {:induction false} ItemsAreEmission(cs: seq<Candidate>, order: seq<nat>, items: seq<Item>)
    requires CandidateList(cs) && |cs| <= 0xFFFF_FFFF && BuiltAlong(cs, order, items)
    requires forall p :: 0 <= p < |order| ==> order[p] < |items| && items[order[p]].mutation.Some?
    ensures UniqueIds(Mutations(items)) && SameElements(Mutations(items), Emission(items, order))
  {
    forall i: nat | i < |items| && items[i].mutation.Some?
      ensures Place(order, i) < |order| && items[i].mutation.value.id == Place(order, i) + 1
    {
      ItemNumbered(cs, order, items, i);
    }
    MutationsUnique(items);
    CollectedElements(items, order);
  }

  lemma {:induction false} CollectedElements(items: seq<Item>, order: seq<nat>)
    requires forall p :: 0 <= p < |order| ==> order[p] < |items| && items[order[p]].mutation.Some?
    requires forall i: nat :: i < |items| && items[i].mutation.Some? ==> Place(order, i) < |order|
    ensures SameElements(Mutations(items), Emission(items, order))
  {
    var ms := Emission(items, order);
    forall x ensures x in Mutations(items) <==> x in ms {
      MutationsOf(items, x);
      if x in Mutations(items) {
        var i :| 0 <= i < |items| && items[i].mutation == Some(x);
        assert ms[Place(order, i)] == x;
      }
      if x in ms {
        var p :| 0 <= p < |ms| && ms[p] == x;
        assert items[order[p]].mutation == Some(x);
      }
    }
  }

  /** Whatever the planner emits passes the dependency layer of plan validation. */
  lemma {:induction false} PlannerOutputAccepted(cs: seq<Candidate>, order: seq<nat>, items: seq<Item>)
    requires CandidateList(cs) && |cs| <= 0xFFFF_FFFF && BuiltAlong(cs, order, items)
    ensures |FromItems(items)| == |Nodes(cs)|
    ensures forall p :: 0 <= p < |FromItems(items)| ==> FromItems(items)[p].id == p + 1
    ensures Plan.WellFormed(FromItems(items)) && Plan.InOrder(FromItems(items))
  {
    SortedIsEmission(cs, order, items);
    NumberedAccepted(FromItems(items));
    DistinctCardinality(order);
  }
}
