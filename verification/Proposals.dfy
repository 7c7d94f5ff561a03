/**
  Choosing between policy proposals (crates/sysboost-core/src/planner.rs, 225-246 and 2593-2669).  The
  tables that name an operation and its capability are parameters.
 */
module Proposals {
  import opened Outcome
  import opened Mutation
  import opened Keys

  datatype Source = Profile | Invocation | User | System

  function Precedence(s: Source): nat {
    match s
    case Profile => 0
    case Invocation => 1
    case User => 2
    case System => 3
  }

  datatype Proposal = Proposal(
    source: Source, capability: Identifier, target: Identifier, kind: MutationKind, required: bool)

  /** The name of an operation, and the capability it belongs to. */
  datatype Tables = Tables(operation: MutationKind -> Identifier, capability: MutationKind -> Identifier)

  datatype Selection = Chosen(map<CandidateKey, Proposal>) | InvalidRequest | Conflict

  function KeyOf(t: Tables, p: Proposal): CandidateKey {
    CandidateKey(p.capability, Some(p.target), t.operation(p.kind), 0)
  }

  /** `validate_request`. */
  predicate ValidRequest(t: Tables, p: Proposal) {
    p.capability == t.capability(p.kind)
  }

  // ----- the stable sort: by key, then by falling precedence

  predicate NotAfter(t: Tables, p: Proposal, q: Proposal) {
    KeyLess(KeyOf(t, p), KeyOf(t, q))
    || (KeyOf(t, p) == KeyOf(t, q) && Precedence(p.source) >= Precedence(q.source))
  }

  lemma {:induction false} NotAfterOrder(t: Tables, p: Proposal, q: Proposal, r: Proposal)
    ensures NotAfter(t, p, q) || NotAfter(t, q, p)
    ensures NotAfter(t, p, q) && NotAfter(t, q, r) ==> NotAfter(t, p, r)
  {
    KeyTotal(KeyOf(t, p), KeyOf(t, q));
    if KeyLess(KeyOf(t, p), KeyOf(t, q)) && KeyLess(KeyOf(t, q), KeyOf(t, r)) {
      KeyTransitive(KeyOf(t, p), KeyOf(t, q), KeyOf(t, r));
    }
  }

  function Insert(t: Tables, p: Proposal, s: seq<Proposal>): seq<Proposal> {
    if s == [] then [p]
    else if NotAfter(t, s[|s| - 1], p) then s + [p]
    else Insert(t, p, s[..|s| - 1]) + [s[|s| - 1]]
  }

  function Sorted(t: Tables, ps: seq<Proposal>): seq<Proposal> {
    if ps == [] then [] else Insert(t, ps[|ps| - 1], Sorted(t, ps[..|ps| - 1]))
  }

  predicate InOrder(t: Tables, s: seq<Proposal>) {
    forall i, j :: 0 <= i < j < |s| ==> NotAfter(t, s[i], s[j])
  }

  lemma {:induction false} InsertInOrder(t: Tables, p: Proposal, s: seq<Proposal>)
    requires InOrder(t, s)
    ensures InOrder(t, Insert(t, p, s))
    ensures forall x :: x in Insert(t, p, s) <==> x in s || x == p
    decreases |s|
  {
    if s != [] {
      var rest, last := s[..|s| - 1], s[|s| - 1];
      assert s == rest + [last];
      if NotAfter(t, last, p) {
        forall i | 0 <= i < |s| ensures NotAfter(t, s[i], p) {
          NotAfterOrder(t, s[i], last, p);
        }
      } else {
        NotAfterOrder(t, last, p, p);
        InsertInOrder(t, p, rest);
        forall x | x in Insert(t, p, rest) ensures NotAfter(t, x, last) {
        }
      }
    }
  }

  lemma {:induction false} SortedInOrder(t: Tables, ps: seq<Proposal>)
    ensures InOrder(t, Sorted(t, ps))
    ensures forall x :: x in Sorted(t, ps) <==> x in ps
    decreases |ps|
  {
    if ps != [] {
      var rest, last := ps[..|ps| - 1], ps[|ps| - 1];
      assert ps == rest + [last];
      SortedInOrder(t, rest);
      InsertInOrder(t, last, Sorted(t, rest));
    }
  }

  // ----- what is chosen

  /** No proposal for the key of `p` has a higher precedence. */
  predicate Top(t: Tables, ps: seq<Proposal>, p: Proposal) {
    p in ps && forall q :: q in ps && KeyOf(t, q) == KeyOf(t, p) ==> Precedence(q.source) <= Precedence(p.source)
  }

  /** Two proposals of highest precedence for one key want different operations. */
  predicate Clash(t: Tables, ps: seq<Proposal>, p: Proposal, q: Proposal) {
    Top(t, ps, p) && Top(t, ps, q) && KeyOf(t, p) == KeyOf(t, q) && p.kind != q.kind
  }

  ghost predicate Clashes(t: Tables, ps: seq<Proposal>) {
    exists p, q :: Clash(t, ps, p, q)
  }

  predicate AllValid(t: Tables, ps: seq<Proposal>) {
    forall p :: p in ps ==> ValidRequest(t, p)
  }

  /** For each key that occurs, a proposal of highest precedence. */
  predicate ChoosesTop(t: Tables, ps: seq<Proposal>, chosen: map<CandidateKey, Proposal>) {
    && (forall p :: p in ps ==> KeyOf(t, p) in chosen)
    && (forall k :: k in chosen ==> Top(t, ps, chosen[k]) && KeyOf(t, chosen[k]) == k)
  }

  /** The chosen proposal is the first of its key in sorted order. */
  predicate First(t: Tables, sorted: seq<Proposal>, p: Proposal) {
    exists n :: 0 <= n < |sorted| && sorted[n] == p && forall i :: 0 <= i < n ==> KeyOf(t, sorted[i]) != KeyOf(t, p)
  }

  /** What is chosen: for each key that occurs, the first of its proposals in sorted order, which is a top one. */
  ghost predicate Selects(t: Tables, ps: seq<Proposal>, chosen: map<CandidateKey, Proposal>) {
    ChoosesTop(t, ps, chosen) && forall k :: k in chosen ==> First(t, Sorted(t, ps), chosen[k])
  }

  /** A proposal is the chosen one of its key, agrees with it, or is outranked by it. */
  predicate Settled(t: Tables, chosen: map<CandidateKey, Proposal>, p: Proposal) {
    && ValidRequest(t, p)
    && KeyOf(t, p) in chosen
    && (p.kind == chosen[KeyOf(t, p)].kind
        || Precedence(p.source) < Precedence(chosen[KeyOf(t, p)].source))
  }

  predicate ChosenWell(t: Tables, ps: seq<Proposal>, sorted: seq<Proposal>, k: CandidateKey, p: Proposal) {
    Top(t, ps, p) && KeyOf(t, p) == k && First(t, sorted, p)
  }

  /** After a prefix of the sorted proposals: each key has its first proposal, and no later one contradicts it. */
  predicate ChosenSoFar(t: Tables, ps: seq<Proposal>, sorted: seq<Proposal>, n: nat, chosen: map<CandidateKey, Proposal>) {
    && n <= |sorted|
    && (forall k :: k in chosen ==> ChosenWell(t, ps, sorted, k, chosen[k]))
    && (forall i :: 0 <= i < n ==> Settled(t, chosen, sorted[i]))
  }

  /** The first proposal of a key in sorted order is a top one. */
  lemma {:induction false} FirstIsTop(t: Tables, ps: seq<Proposal>, sorted: seq<Proposal>, n: nat)
    requires InOrder(t, sorted) && (forall x :: x in sorted <==> x in ps) && n < |sorted|
    requires forall i :: 0 <= i < n ==> KeyOf(t, sorted[i]) != KeyOf(t, sorted[n])
    ensures Top(t, ps, sorted[n])
  {
    forall q | q in ps && KeyOf(t, q) == KeyOf(t, sorted[n])
      ensures Precedence(q.source) <= Precedence(sorted[n].source)
    {
      assert q in sorted;
      var j :| 0 <= j < |sorted| && sorted[j] == q;
      KeyTotal(KeyOf(t, q), KeyOf(t, q));
    }
  }

  lemma {:induction false} FirstOfKey(
    t: Tables, ps: seq<Proposal>, sorted: seq<Proposal>, n: nat, chosen: map<CandidateKey, Proposal>)
    requires InOrder(t, sorted) && (forall x :: x in sorted <==> x in ps) && n < |sorted|
    requires ChosenSoFar(t, ps, sorted, n, chosen)
    requires ValidRequest(t, sorted[n]) && KeyOf(t, sorted[n]) !in chosen
    ensures ChosenSoFar(t, ps, sorted, n + 1, chosen[KeyOf(t, sorted[n]) := sorted[n]])
  {
    var more := chosen[KeyOf(t, sorted[n]) := sorted[n]];
    forall i | 0 <= i < n
      ensures KeyOf(t, sorted[i]) != KeyOf(t, sorted[n]) && Settled(t, more, sorted[i])
    {
      assert Settled(t, chosen, sorted[i]);
    }
    FirstIsTop(t, ps, sorted, n);
    assert First(t, sorted, sorted[n]);
    forall k | k in more ensures ChosenWell(t, ps, sorted, k, more[k]) {
      if k in chosen {
        assert ChosenWell(t, ps, sorted, k, chosen[k]);
      }
    }
  }

  /** A proposal of the same precedence as a top one for its key is a top one too. */
  lemma {:induction false} SecondTop(t: Tables, ps: seq<Proposal>, p: Proposal, q: Proposal)
    requires Top(t, ps, p) && q in ps && KeyOf(t, q) == KeyOf(t, p) && p.kind != q.kind
    requires Precedence(q.source) == Precedence(p.source)
    ensures Clash(t, ps, p, q)
  {
  }

  /** `select_proposals`. */
  method SelectProposals(t: Tables, ps: seq<Proposal>) returns (r: Selection)
    ensures match r
            case Chosen(chosen) => AllValid(t, ps) && !Clashes(t, ps) && Selects(t, ps, chosen)
            case InvalidRequest => !AllValid(t, ps)
            case Conflict => Clashes(t, ps)
  {
    var sorted := Sorted(t, ps);
    SortedInOrder(t, ps);
    var selected: map<CandidateKey, Proposal> := map[];
    for n := 0 to |sorted|
      invariant ChosenSoFar(t, ps, sorted, n, selected)
    {
      var p := sorted[n];
      assert p in sorted;
      if !ValidRequest(t, p) {
        return InvalidRequest;
      }
      var key := KeyOf(t, p);
      if key !in selected {
        FirstOfKey(t, ps, sorted, n, selected);
        selected := selected[key := p];
      } else {
        var existing := selected[key];
        assert ChosenWell(t, ps, sorted, key, existing);
        if existing.kind == p.kind {
        } else if Precedence(existing.source) > Precedence(p.source) {
        } else if Precedence(existing.source) < Precedence(p.source) {
          selected := selected[key := p];
        } else {
          SecondTop(t, ps, existing, p);
          return Conflict;
        }
      }
    }
    NoClashLeft(t, ps, sorted, selected);
    r := Chosen(selected);
  }

  lemma {:induction false} NoClashLeft(
    t: Tables, ps: seq<Proposal>, sorted: seq<Proposal>, chosen: map<CandidateKey, Proposal>)
    requires (forall x :: x in sorted <==> x in ps) && ChosenSoFar(t, ps, sorted, |sorted|, chosen)
    ensures AllValid(t, ps) && !Clashes(t, ps) && ChoosesTop(t, ps, chosen)
    ensures forall k :: k in chosen ==> First(t, sorted, chosen[k])
  {
    forall k | k in chosen ensures Top(t, ps, chosen[k]) && KeyOf(t, chosen[k]) == k && First(t, sorted, chosen[k]) {
      assert ChosenWell(t, ps, sorted, k, chosen[k]);
    }
    forall i | 0 <= i < |sorted| ensures Settled(t, chosen, sorted[i]) {
    }
    forall p | p in ps ensures ValidRequest(t, p) && KeyOf(t, p) in chosen {
      assert p in sorted;
      var i :| 0 <= i < |sorted| && sorted[i] == p;
    }
    forall p | Top(t, ps, p) ensures KeyOf(t, p) in chosen && p.kind == chosen[KeyOf(t, p)].kind {
      assert p in sorted;
      var i :| 0 <= i < |sorted| && sorted[i] == p;
    }
  }

  lemma {:induction false} TopsIgnoreOrder(t: Tables, ps: seq<Proposal>, qs: seq<Proposal>)
    requires forall x :: x in ps <==> x in qs
    ensures AllValid(t, ps) <==> AllValid(t, qs)
    ensures forall p :: Top(t, ps, p) <==> Top(t, qs, p)
    ensures Clashes(t, ps) <==> Clashes(t, qs)
  {
    forall p, q ensures Clash(t, ps, p, q) <==> Clash(t, qs, p, q) {
      assert Top(t, ps, p) <==> Top(t, qs, p);
      assert Top(t, ps, q) <==> Top(t, qs, q);
    }
  }

  /** Everything about a choice except its `required` flag. */
  predicate SameOperation(p: Proposal, q: Proposal) {
    p.source == q.source && p.capability == q.capability && p.target == q.target && p.kind == q.kind
  }

  /** For valid requests, which operations are chosen does not depend on the order of the proposals. */
  lemma {:induction false} ChoiceIgnoresOrder(
    t: Tables, ps: seq<Proposal>, qs: seq<Proposal>,
    a: map<CandidateKey, Proposal>, b: map<CandidateKey, Proposal>)
    requires forall x :: x in ps <==> x in qs
    requires !Clashes(t, ps) && ChoosesTop(t, ps, a) && ChoosesTop(t, qs, b)
    ensures a.Keys == b.Keys && forall k :: k in a ==> SameOperation(a[k], b[k])
  {
    TopsIgnoreOrder(t, ps, qs);
    forall k | k in a ensures k in b && SameOperation(a[k], b[k]) {
      assert a[k] in qs;
      SameTop(t, ps, a[k], b[k]);
    }
    forall k | k in b ensures k in a {
      assert b[k] in ps;
    }
  }

  lemma {:induction false} SameTop(t: Tables, ps: seq<Proposal>, p: Proposal, q: Proposal)
    requires !Clashes(t, ps) && Top(t, ps, p) && Top(t, ps, q) && KeyOf(t, p) == KeyOf(t, q)
    ensures SameOperation(p, q)
  {
    assert !Clash(t, ps, p, q);
  }

  /** The order of sources: the system outranks the user, who outranks the invocation, which outranks the profile. */
  predicate Outranked(a: Source, b: Source) {
    || (a.Profile? && !b.Profile?)
    || (a.Invocation? && (b.User? || b.System?))
    || (a.User? && b.System?)
  }

  /** Two proposals compete when they propose the same named operation of one capability for one target. */
  predicate Compete(t: Tables, p: Proposal, q: Proposal) {
    p.capability == q.capability && p.target == q.target && t.operation(p.kind) == t.operation(q.kind)
  }

  /** A chosen proposal is one of those made, no competing one outranks it, and where the sources are the same the
      operations are; every proposal has a chosen competitor. */
  lemma {:induction false} ChosenOutranks(t: Tables, ps: seq<Proposal>, chosen: map<CandidateKey, Proposal>)
    requires !Clashes(t, ps) && Selects(t, ps, chosen)
    ensures forall k, q :: k in chosen && q in ps && Compete(t, chosen[k], q) ==>
      && !Outranked(chosen[k].source, q.source)
      && (chosen[k].source == q.source ==> chosen[k].kind == q.kind)
    ensures forall k :: k in chosen ==> chosen[k] in ps
    ensures forall q :: q in ps ==> exists k :: k in chosen && Compete(t, chosen[k], q)
  {
    forall k, q | k in chosen && q in ps && Compete(t, chosen[k], q)
      ensures !Outranked(chosen[k].source, q.source)
      ensures chosen[k].source == q.source ==> chosen[k].kind == q.kind
    {
      assert KeyOf(t, q) == KeyOf(t, chosen[k]);
      if chosen[k].source == q.source {
        assert !Clash(t, ps, chosen[k], q);
      }
    }
    forall q | q in ps ensures exists k :: k in chosen && Compete(t, chosen[k], q) {
      assert KeyOf(t, q) in chosen;
      assert Compete(t, chosen[KeyOf(t, q)], q);
    }
  }

  // ----- the `required` flag

  /** Two proposals that are first of the same key are the same. */
  lemma {:induction false} FirstIsUnique(t: Tables, sorted: seq<Proposal>, p: Proposal, q: Proposal)
    requires First(t, sorted, p) && First(t, sorted, q) && KeyOf(t, p) == KeyOf(t, q)
    ensures p == q
  {
    var n :| 0 <= n < |sorted| && sorted[n] == p && forall i :: 0 <= i < n ==> KeyOf(t, sorted[i]) != KeyOf(t, p);
    var m :| 0 <= m < |sorted| && sorted[m] == q && forall i :: 0 <= i < m ==> KeyOf(t, sorted[i]) != KeyOf(t, q);
    assert n == m;
  }

  /** A later proposal that does not go before it leaves the first of a key first: the sort is stable. */
  lemma {:induction false} InsertKeepsFirst(t: Tables, x: Proposal, s: seq<Proposal>, p: Proposal)
    requires First(t, s, p) && (KeyOf(t, x) == KeyOf(t, p) ==> NotAfter(t, p, x))
    ensures First(t, Insert(t, x, s), p)
    decreases |s|
  {
    var rest, last := s[..|s| - 1], s[|s| - 1];
    var n :| 0 <= n < |s| && s[n] == p && forall i :: 0 <= i < n ==> KeyOf(t, s[i]) != KeyOf(t, p);
    if NotAfter(t, last, x) {
      assert (s + [x])[n] == p;
    } else if n < |s| - 1 {
      assert rest[n] == p;
      InsertKeepsFirst(t, x, rest, p);
      FirstExtends(t, Insert(t, x, rest), last, p);
    } else {
      InsertMembers(t, x, rest);
      var all := Insert(t, x, rest) + [last];
      forall i | 0 <= i < |all| - 1 ensures KeyOf(t, all[i]) != KeyOf(t, p) {
        assert all[i] in Insert(t, x, rest);
      }
      assert all[|all| - 1] == p;
    }
  }

  lemma {:induction false} FirstExtends(t: Tables, s: seq<Proposal>, last: Proposal, p: Proposal)
    requires First(t, s, p)
    ensures First(t, s + [last], p)
  {
    var n :| 0 <= n < |s| && s[n] == p && forall i :: 0 <= i < n ==> KeyOf(t, s[i]) != KeyOf(t, p);
    assert (s + [last])[n] == p;
  }

  lemma {:induction false} InsertMembers(t: Tables, p: Proposal, s: seq<Proposal>)
    ensures forall x :: x in Insert(t, p, s) <==> x in s || x == p
    decreases |s|
  {
    if s != [] {
      assert s == s[..|s| - 1] + [s[|s| - 1]];
      InsertMembers(t, p, s[..|s| - 1]);
    }
  }

  /** A proposal at the front that no other of its key outranks is the first of its key in sorted order. */
  lemma {:induction false} FrontIsFirst(t: Tables, p: Proposal, rest: seq<Proposal>)
    requires forall x :: x in rest && KeyOf(t, x) == KeyOf(t, p) ==> Precedence(x.source) <= Precedence(p.source)
    ensures First(t, Sorted(t, [p] + rest), p)
    decreases |rest|
  {
    var all := [p] + rest;
    if rest == [] {
      assert all[..0] == [] && Sorted(t, all) == [p];
      assert [p][0] == p;
    } else {
      var before, last := rest[..|rest| - 1], rest[|rest| - 1];
      assert rest == before + [last];
      assert all[..|all| - 1] == [p] + before && all[|all| - 1] == last;
      FrontIsFirst(t, p, before);
      assert last in rest;
      InsertKeepsFirst(t, last, Sorted(t, [p] + before), p);
    }
  }

  /** The other proposals, in their order. */
  function Without(ps: seq<Proposal>, p: Proposal): (rest: seq<Proposal>)
    requires p in ps
    ensures multiset([p] + rest) == multiset(ps)
  {
    if ps[0] == p then
      assert ps == [p] + ps[1..];
      ps[1..]
    else
      assert ps == [ps[0]] + ps[1..];
      [ps[0]] + Without(ps[1..], p)
  }

  lemma {:induction false} SameMembers(ps: seq<Proposal>, qs: seq<Proposal>)
    requires multiset(ps) == multiset(qs)
    ensures forall x :: x in ps <==> x in qs
  {
    forall x ensures x in ps <==> x in qs {
      assert x in ps <==> x in multiset(ps);
      assert x in qs <==> x in multiset(qs);
    }
  }

  lemma {:induction false} FirstExists(t: Tables, s: seq<Proposal>, x: Proposal)
    requires x in s
    ensures exists p :: First(t, s, p) && KeyOf(t, p) == KeyOf(t, x)
    decreases |s|
  {
    var before, last := s[..|s| - 1], s[|s| - 1];
    assert s == before + [last];
    if y :| y in before && KeyOf(t, y) == KeyOf(t, x) {
      FirstExists(t, before, y);
      var p :| First(t, before, p) && KeyOf(t, p) == KeyOf(t, y);
      FirstExtends(t, before, last, p);
    } else {
      assert last == x;
      forall i | 0 <= i < |before| ensures KeyOf(t, s[i]) != KeyOf(t, last) {
        assert before[i] in before;
      }
      assert First(t, s, last);
    }
  }

  ghost predicate IsChoice(t: Tables, ps: seq<Proposal>, k: CandidateKey, p: Proposal) {
    First(t, Sorted(t, ps), p) && KeyOf(t, p) == k
  }

  /** Every list of proposals has a choice. */
  lemma {:induction false} SelectionExists(t: Tables, ps: seq<Proposal>) returns (chosen: map<CandidateKey, Proposal>)
    ensures Selects(t, ps, chosen)
  {
    SortedInOrder(t, ps);
    var sorted := Sorted(t, ps);
    var keys := set p | p in ps :: KeyOf(t, p);
    forall k | k in keys ensures exists p :: IsChoice(t, ps, k, p) {
      var x :| x in ps && KeyOf(t, x) == k;
      FirstExists(t, sorted, x);
      var p :| First(t, sorted, p) && KeyOf(t, p) == k;
      assert IsChoice(t, ps, k, p);
    }
    chosen := map k | k in keys :: var p :| IsChoice(t, ps, k, p); p;
    forall k | k in chosen ensures Top(t, ps, chosen[k]) && KeyOf(t, chosen[k]) == k && First(t, sorted, chosen[k]) {
      assert IsChoice(t, ps, k, chosen[k]);
      var n :| 0 <= n < |sorted| && sorted[n] == chosen[k]
        && forall i :: 0 <= i < n ==> KeyOf(t, sorted[i]) != KeyOf(t, chosen[k]);
      FirstIsTop(t, ps, sorted, n);
    }
  }

  /** Every reordering of the proposals chooses the very same proposal for the key. */
  ghost predicate OrderFree(t: Tables, ps: seq<Proposal>, k: CandidateKey) {
    forall qs, a, b :: multiset(qs) == multiset(ps) && Selects(t, ps, a) && Selects(t, qs, b) && k in a && k in b
      ==> a[k] == b[k]
  }

  /** The top proposals of the key agree on the `required` flag. */
  predicate TopsAgree(t: Tables, ps: seq<Proposal>, k: CandidateKey) {
    forall p, q :: p in ps && q in ps && Top(t, ps, p) && Top(t, ps, q) && KeyOf(t, p) == k && KeyOf(t, q) == k
      ==> p.required == q.required
  }

  /** A top proposal moved to the front is the one that is chosen. */
  lemma {:induction false} FrontIsChosen(t: Tables, ps: seq<Proposal>, p: Proposal)
    returns (qs: seq<Proposal>, chosen: map<CandidateKey, Proposal>)
    requires Top(t, ps, p)
    ensures multiset(qs) == multiset(ps) && Selects(t, qs, chosen)
    ensures KeyOf(t, p) in chosen && chosen[KeyOf(t, p)] == p
  {
    var rest := Without(ps, p);
    qs := [p] + rest;
    SameMembers(ps, qs);
    forall x | x in rest && KeyOf(t, x) == KeyOf(t, p) ensures Precedence(x.source) <= Precedence(p.source) {
      assert x in qs;
    }
    FrontIsFirst(t, p, rest);
    chosen := SelectionExists(t, qs);
    assert p in qs;
    FirstIsUnique(t, Sorted(t, qs), chosen[KeyOf(t, p)], p);
  }

  /**
    For valid proposals without a clash the whole choice for a key, with its `required` flag, is independent of the
    order exactly when the top proposals of the key agree on that flag.
   */
  lemma {:induction false} RequiredIgnoresOrder(t: Tables, ps: seq<Proposal>, k: CandidateKey)
    requires AllValid(t, ps) && !Clashes(t, ps)
    ensures OrderFree(t, ps, k) <==> TopsAgree(t, ps, k)
  {
    if TopsAgree(t, ps, k) {
      forall qs, a, b | multiset(qs) == multiset(ps) && Selects(t, ps, a) && Selects(t, qs, b) && k in a && k in b
        ensures a[k] == b[k]
      {
        SameMembers(ps, qs);
        TopsIgnoreOrder(t, ps, qs);
        SameTop(t, ps, a[k], b[k]);
      }
    } else {
      var p, q :| p in ps && q in ps && Top(t, ps, p) && Top(t, ps, q) && KeyOf(t, p) == k && KeyOf(t, q) == k
        && p.required != q.required;
      var a := SelectionExists(t, ps);
      assert k in a;
      var qs, b := FrontIsChosen(t, ps, if a[k] == p then q else p);
    }
  }

  lemma {:induction false} FrontOfTwo(t: Tables, p: Proposal, q: Proposal) returns (chosen: map<CandidateKey, Proposal>)
    requires ValidRequest(t, p) && q == p.(required := !p.required)
    ensures AllValid(t, [p, q]) && !Clashes(t, [p, q]) && Selects(t, [p, q], chosen)
    ensures KeyOf(t, p) in chosen && chosen[KeyOf(t, p)] == p
  {
    FrontIsFirst(t, p, [q]);
    assert [p] + [q] == [p, q];
    chosen := SelectionExists(t, [p, q]);
    assert p in [p, q];
    FirstIsUnique(t, Sorted(t, [p, q]), chosen[KeyOf(t, p)], p);
    assert forall x :: x in [p, q] ==> x == p || x == q;
  }

  /** Two valid proposals that differ in the `required` flag only do not clash, and each order of them chooses
      another one. */
  lemma {:induction false} RequiredDependsOnOrder(t: Tables, source: Source, target: Identifier, kind: MutationKind)
    returns (a: map<CandidateKey, Proposal>, b: map<CandidateKey, Proposal>)
    ensures var p := Proposal(source, t.capability(kind), target, kind, true);
      var q := p.(required := false);
      && multiset([p, q]) == multiset([q, p])
      && AllValid(t, [p, q]) && !Clashes(t, [p, q]) && Selects(t, [p, q], a)
      && AllValid(t, [q, p]) && !Clashes(t, [q, p]) && Selects(t, [q, p], b)
      && KeyOf(t, p) in a && a[KeyOf(t, p)] == p && KeyOf(t, p) in b && b[KeyOf(t, p)] == q
  {
    var p := Proposal(source, t.capability(kind), target, kind, true);
    var q := p.(required := false);
    a := FrontOfTwo(t, p, q);
    b := FrontOfTwo(t, q, p);
    assert KeyOf(t, q) == KeyOf(t, p);
  }
}
