/**
  Which state files the decoder accepts are the ones the encoder writes (crates/sysboost-core/src/transaction.rs,
  474-568 and 985-1045): exactly the plain ones.
 */
module PlainCodec {
  import opened Outcome
  import opened Bytes
  import opened Mutation
  import opened Session
  import opened Wire
  import opened TupleWire
  import opened RecordWire
  import opened StructureWire
  import opened CodecWire
  import opened PlainWire

  // ----- structures

  lemma {:induction false} StructExact<X(!new)>(
    layout: seq<CellType>, cells: X -> seq<Cell>, build: seq<Cell> -> Result<X>, good: X -> bool,
    put: X -> Bits, get: seq<byte> -> Result<Parsed<X>>, plain: seq<byte> -> bool)
    requires Lawful(layout, cells, build, good)
    requires forall x :: put(x) == PutStruct(cells, x)
    requires forall s :: get(s) == GetStruct(layout, build, s) && plain(s) == PlainCells(layout, s)
    ensures Exact(put, get, plain)
  {
    forall s | get(s).Ok? ensures ExactOn(put, get(s).value, plain(s), s) {
      CellsExact(layout, s);
      var f := GetCells(layout, s).value.value;
      assert cells(build(f).value) == f;
    }
  }

  predicate PlainMutation(s: seq<byte>) { PlainCells(MUTATION, s) }
  predicate PlainSnapshot(s: seq<byte>) { PlainCells(SNAPSHOT, s) }
  predicate PlainApply(s: seq<byte>) { PlainCells(APPLY, s) }
  predicate PlainVerification(s: seq<byte>) { PlainCells(VERIFICATION, s) }
  predicate PlainRestore(s: seq<byte>) { PlainCells(RESTORE, s) }
  predicate PlainFailure(s: seq<byte>) { PlainCells(FAILURE, s) }
  predicate PlainTransition(s: seq<byte>) { PlainCells(TRANSITION, s) }
  predicate PlainSession(s: seq<byte>) { PlainCells(SESSION, s) }

  lemma {:induction false} PlanExact()
    ensures Exact(PutMutation, GetMutation, PlainMutation)
    ensures Exact(PutSnapshot, GetSnapshot, PlainSnapshot)
  {
    MutationLawful();
    StructExact(MUTATION, MutationCells, BuildMutation, MutationBuilt, PutMutation, GetMutation, PlainMutation);
    SnapshotLawful();
    StructExact(SNAPSHOT, SnapshotCells, BuildSnapshot, SnapshotBuilt, PutSnapshot, GetSnapshot, PlainSnapshot);
  }

  lemma {:induction false} ReceiptExact()
    ensures Exact(PutApply, GetApply, PlainApply)
    ensures Exact(PutVerification, GetVerification, PlainVerification)
    ensures Exact(PutRestore, GetRestore, PlainRestore)
  {
    ApplyLawful();
    StructExact(APPLY, ApplyCells, BuildApply, Any<ApplyReceipt>, PutApply, GetApply, PlainApply);
    VerificationLawful();
    StructExact(VERIFICATION, VerificationCells, BuildVerification, Any<Verification>, PutVerification,
                GetVerification, PlainVerification);
    RestoreLawful();
    StructExact(RESTORE, RestoreCells, BuildRestore, Any<RestoreReceipt>, PutRestore, GetRestore, PlainRestore);
  }

  lemma {:induction false} JournalExact()
    ensures Exact(PutFailure, GetFailure, PlainFailure)
    ensures Exact(PutTransition, GetTransition, PlainTransition)
    ensures Exact(PutSession, GetSession, PlainSession)
  {
    FailureLawful();
    StructExact(FAILURE, FailureCells, BuildFailure, Any<Failure>, PutFailure, GetFailure, PlainFailure);
    TransitionLawful();
    StructExact(TRANSITION, TransitionCells, BuildTransition, Any<TransitionRecord>, PutTransition, GetTransition,
                PlainTransition);
    SessionLawful();
    StructExact(SESSION, SessionCells, BuildSession, Any<Session>, PutSession, GetSession, PlainSession);
  }

  // ----- tuples

  /** One reader after the other; the second sees what the first leaves. */
  predicate PlainThen<A>(
    getA: seq<byte> -> Result<Parsed<A>>, plainA: seq<byte> -> bool, plainB: seq<byte> -> bool, s: seq<byte>)
  {
    plainA(s) && (getA(s).Ok? ==> plainB(getA(s).value.rest))
  }

  lemma {:induction false} ThreeExact<A(!new), B(!new), C(!new)>(
    putA: A -> Bits, putB: B -> Bits, putC: C -> Bits,
    getA: seq<byte> -> Result<Parsed<A>>, getB: seq<byte> -> Result<Parsed<B>>, getC: seq<byte> -> Result<Parsed<C>>,
    plainA: seq<byte> -> bool, plainB: seq<byte> -> bool, plainC: seq<byte> -> bool,
    put: ((A, B, C)) -> Bits, get: seq<byte> -> Result<Parsed<(A, B, C)>>,
    fromB: seq<byte> -> bool, plain: seq<byte> -> bool)
    requires Exact(putA, getA, plainA) && Exact(putB, getB, plainB) && Exact(putC, getC, plainC)
    requires forall x :: put(x) == PutThree(putA, putB, putC, x)
    requires forall s :: get(s) == GetThree(getA, getB, getC, s)
    requires forall s :: fromB(s) == PlainThen(getB, plainB, plainC, s)
    requires forall s :: plain(s) == PlainThen(getA, plainA, fromB, s)
    ensures Exact(put, get, plain)
  {
    forall s | get(s).Ok? ensures ExactOn(put, get(s).value, plain(s), s) {
      var a := getA(s).value;
      var b := getB(a.rest).value;
      var c := getC(b.rest).value;
      Chain(putB(b.value).value, putC(c.value).value, a.rest, b.rest, c.rest);
      Chain(putA(a.value).value, putB(b.value).value + putC(c.value).value, s, a.rest, c.rest);
    }
  }

  lemma {:induction false} FourExact<A(!new), B(!new), C(!new), D(!new)>(
    putA: A -> Bits, putB: B -> Bits, putC: C -> Bits, putD: D -> Bits,
    getA: seq<byte> -> Result<Parsed<A>>, getB: seq<byte> -> Result<Parsed<B>>,
    getC: seq<byte> -> Result<Parsed<C>>, getD: seq<byte> -> Result<Parsed<D>>,
    plainA: seq<byte> -> bool, plainB: seq<byte> -> bool, plainC: seq<byte> -> bool, plainD: seq<byte> -> bool,
    put: ((A, B, C, D)) -> Bits, get: seq<byte> -> Result<Parsed<(A, B, C, D)>>,
    fromC: seq<byte> -> bool, fromB: seq<byte> -> bool, plain: seq<byte> -> bool)
    requires Exact(putA, getA, plainA) && Exact(putB, getB, plainB) && Exact(putC, getC, plainC)
      && Exact(putD, getD, plainD)
    requires forall x :: put(x) == PutFour(putA, putB, putC, putD, x)
    requires forall s :: get(s) == GetFour(getA, getB, getC, getD, s)
    requires forall s :: fromC(s) == PlainThen(getC, plainC, plainD, s)
    requires forall s :: fromB(s) == PlainThen(getB, plainB, fromC, s)
    requires forall s :: plain(s) == PlainThen(getA, plainA, fromB, s)
    ensures Exact(put, get, plain)
  {
    forall s | get(s).Ok? ensures ExactOn(put, get(s).value, plain(s), s) {
      var a := getA(s).value;
      var b := getB(a.rest).value;
      var c := getC(b.rest).value;
      var d := getD(c.rest).value;
      var cd := putC(c.value).value + putD(d.value).value;
      Chain(putC(c.value).value, putD(d.value).value, b.rest, c.rest, d.rest);
      Chain(putB(b.value).value, cd, a.rest, b.rest, d.rest);
      Chain(putA(a.value).value, putB(b.value).value + cd, s, a.rest, d.rest);
    }
  }

  lemma {:induction false} FiveExact<A(!new), B(!new), C(!new), D(!new), E(!new)>(
    putA: A -> Bits, putB: B -> Bits, putC: C -> Bits, putD: D -> Bits, putE: E -> Bits,
    getA: seq<byte> -> Result<Parsed<A>>, getB: seq<byte> -> Result<Parsed<B>>,
    getC: seq<byte> -> Result<Parsed<C>>, getD: seq<byte> -> Result<Parsed<D>>, getE: seq<byte> -> Result<Parsed<E>>,
    plainA: seq<byte> -> bool, plainB: seq<byte> -> bool, plainC: seq<byte> -> bool, plainD: seq<byte> -> bool,
    plainE: seq<byte> -> bool,
    put: ((A, B, C, D, E)) -> Bits, get: seq<byte> -> Result<Parsed<(A, B, C, D, E)>>,
    fromD: seq<byte> -> bool, fromC: seq<byte> -> bool, fromB: seq<byte> -> bool, plain: seq<byte> -> bool)
    requires Exact(putA, getA, plainA) && Exact(putB, getB, plainB) && Exact(putC, getC, plainC)
      && Exact(putD, getD, plainD) && Exact(putE, getE, plainE)
    requires forall x :: put(x) == PutFive(putA, putB, putC, putD, putE, x)
    requires forall s :: get(s) == GetFive(getA, getB, getC, getD, getE, s)
    requires forall s :: fromD(s) == PlainThen(getD, plainD, plainE, s)
    requires forall s :: fromC(s) == PlainThen(getC, plainC, fromD, s)
    requires forall s :: fromB(s) == PlainThen(getB, plainB, fromC, s)
    requires forall s :: plain(s) == PlainThen(getA, plainA, fromB, s)
    ensures Exact(put, get, plain)
  {
    forall s | get(s).Ok? ensures ExactOn(put, get(s).value, plain(s), s) {
      var a := getA(s).value;
      var b := getB(a.rest).value;
      var c := getC(b.rest).value;
      var d := getD(c.rest).value;
      var e := getE(d.rest).value;
      var de := putD(d.value).value + putE(e.value).value;
      var cde := putC(c.value).value + de;
      Chain(putD(d.value).value, putE(e.value).value, c.rest, d.rest, e.rest);
      Chain(putC(c.value).value, de, b.rest, c.rest, e.rest);
      Chain(putB(b.value).value, cde, a.rest, b.rest, e.rest);
      Chain(putA(a.value).value, putB(b.value).value + cde, s, a.rest, e.rest);
    }
  }

  // ----- operations

  predicate PlainMaybeSnapshot(s: seq<byte>) { PlainOption(PlainSnapshot, s) }
  predicate PlainMaybeApply(s: seq<byte>) { PlainOption(PlainApply, s) }
  predicate PlainMaybeVerification(s: seq<byte>) { PlainOption(PlainVerification, s) }
  predicate PlainMaybeRestore(s: seq<byte>) { PlainOption(PlainRestore, s) }
  predicate PlainMaybeFailure(s: seq<byte>) { PlainOption(PlainFailure, s) }

  predicate PlainOutcome(s: seq<byte>) { PlainThen(GetMaybeRestore, PlainMaybeRestore, PlainMaybeFailure, s) }
  predicate PlainChecked(s: seq<byte>) { PlainThen(GetMaybeVerification, PlainMaybeVerification, PlainOutcome, s) }
  predicate PlainApplied(s: seq<byte>) { PlainThen(GetMaybeApply, PlainMaybeApply, PlainChecked, s) }
  predicate PlainReceipts(s: seq<byte>) { PlainThen(GetMaybeSnapshot, PlainMaybeSnapshot, PlainApplied, s) }

  lemma {:induction false} MaybeReceiptsExact()
    ensures Exact(PutMaybeSnapshot, GetMaybeSnapshot, PlainMaybeSnapshot)
    ensures Exact(PutMaybeApply, GetMaybeApply, PlainMaybeApply)
    ensures Exact(PutMaybeVerification, GetMaybeVerification, PlainMaybeVerification)
    ensures Exact(PutMaybeRestore, GetMaybeRestore, PlainMaybeRestore)
    ensures Exact(PutMaybeFailure, GetMaybeFailure, PlainMaybeFailure)
  {
    PlanExact();
    ReceiptExact();
    JournalExact();
    OptionExact(PutSnapshot, GetSnapshot, PlainSnapshot, PutMaybeSnapshot, GetMaybeSnapshot, PlainMaybeSnapshot);
    OptionExact(PutApply, GetApply, PlainApply, PutMaybeApply, GetMaybeApply, PlainMaybeApply);
    OptionExact(PutVerification, GetVerification, PlainVerification,
                PutMaybeVerification, GetMaybeVerification, PlainMaybeVerification);
    OptionExact(PutRestore, GetRestore, PlainRestore, PutMaybeRestore, GetMaybeRestore, PlainMaybeRestore);
    OptionExact(PutFailure, GetFailure, PlainFailure, PutMaybeFailure, GetMaybeFailure, PlainMaybeFailure);
  }

  lemma {:induction false} ReceiptsExact()
    ensures Exact(PutReceipts, GetReceipts, PlainReceipts)
  {
    MaybeReceiptsExact();
    FiveExact(PutMaybeSnapshot, PutMaybeApply, PutMaybeVerification, PutMaybeRestore, PutMaybeFailure,
              GetMaybeSnapshot, GetMaybeApply, GetMaybeVerification, GetMaybeRestore, GetMaybeFailure,
              PlainMaybeSnapshot, PlainMaybeApply, PlainMaybeVerification, PlainMaybeRestore, PlainMaybeFailure,
              PutReceipts, GetReceipts, PlainOutcome, PlainChecked, PlainApplied, PlainReceipts);
  }

  lemma {:induction false} StateExact()
    ensures Exact(PutOperationState, GetOperationState, Always)
  {
  }

  predicate PlainProgress(s: seq<byte>) { PlainThen(GetOperationState, Always, PlainReceipts, s) }
  predicate PlainOperation(s: seq<byte>) { PlainThen(GetMutation, PlainMutation, PlainProgress, s) }

  lemma {:induction false} PartsExact()
    ensures Exact(PutParts, GetParts, PlainOperation)
  {
    PlanExact();
    StateExact();
    ReceiptsExact();
    ThreeExact(PutMutation, PutOperationState, PutReceipts, GetMutation, GetOperationState, GetReceipts,
               PlainMutation, Always, PlainReceipts, PutParts, GetParts, PlainProgress, PlainOperation);
  }

  /** A format for parts is exact for the whole they are the parts of. */
  lemma {:induction false} IsoExact<A(!new), B(!new)>(
    putA: A -> Bits, getA: seq<byte> -> Result<Parsed<A>>, parts: B -> A, whole: A -> B,
    put: B -> Bits, get: seq<byte> -> Result<Parsed<B>>, plain: seq<byte> -> bool)
    requires Exact(putA, getA, plain)
    requires forall x :: put(x) == putA(parts(x))
    requires forall a :: parts(whole(a)) == a
    requires forall s :: get(s) == Wrapped(getA(s), whole)
    ensures Exact(put, get, plain)
  {
    forall s | get(s).Ok? ensures ExactOn(put, get(s).value, plain(s), s) {
      assert ExactOn(putA, getA(s).value, plain(s), s);
    }
  }

  lemma {:induction false} OperationExact()
    ensures Exact(PutOperation, GetOperation, PlainOperation)
  {
    PartsExact();
    IsoExact(PutParts, GetParts, PartsOf, OperationFrom, PutOperation, GetOperation, PlainOperation);
  }

  // ----- records

  predicate PlainOperations(s: seq<byte>) { PlainList(GetOperation, PlainOperation, s) }
  predicate PlainTransitions(s: seq<byte>) { PlainList(GetTransition, PlainTransition, s) }
  predicate PlainFailures(s: seq<byte>) { PlainList(GetFailure, PlainFailure, s) }

  predicate PlainJournal(s: seq<byte>) { PlainThen(GetTransitions, PlainTransitions, PlainFailures, s) }
  predicate PlainLists(s: seq<byte>) { PlainThen(GetOperations, PlainOperations, PlainJournal, s) }
  predicate PlainPayload(s: seq<byte>) { PlainThen(GetSession, PlainSession, PlainLists, s) }

  lemma {:induction false} RecordPartsExact()
    ensures Exact(PutRecordParts, GetRecordParts, PlainPayload)
  {
    JournalExact();
    OperationExact();
    ListExact(PutOperation, GetOperation, PlainOperation, MAX_OPERATIONS, PutOperations, GetOperations, PlainOperations);
    ListExact(PutTransition, GetTransition, PlainTransition, MAX_TRANSITIONS,
              PutTransitions, GetTransitions, PlainTransitions);
    ListExact(PutFailure, GetFailure, PlainFailure, MAX_FAILURES, PutFailures, GetFailures, PlainFailures);
    FourExact(PutSession, PutOperations, PutTransitions, PutFailures,
              GetSession, GetOperations, GetTransitions, GetFailures,
              PlainSession, PlainOperations, PlainTransitions, PlainFailures,
              PutRecordParts, GetRecordParts, PlainJournal, PlainLists, PlainPayload);
  }

  lemma {:induction false} PayloadExact()
    ensures Exact(PutPayload, GetPayload, PlainPayload)
  {
    RecordPartsExact();
    IsoExact(PutRecordParts, GetRecordParts, RecordPartsOf, RecordFrom, PutPayload, GetPayload, PlainPayload);
  }

  // ----- files

  lemma {:induction false} FrameInjective(a: seq<byte>, b: seq<byte>)
    requires Frame(a) == Frame(b)
    ensures a == b
  {
    FrameParts(a);
    FrameParts(b);
  }

  lemma {:induction false} ReencodesWith(
    put: Record -> Bits, get: seq<byte> -> Result<Parsed<Record>>, plain: seq<byte> -> bool, b: seq<byte>)
    requires Exact(put, get, plain) && DecodeWith(get, b).Ok?
    ensures EncodeWith(put, DecodeWith(get, b).value) == Ok(b) <==> plain(Unframe(b).value)
  {
    var payload := Unframe(b).value;
    var r := DecodeWith(get, b).value;
    FrameUnframe(b);
    assert ExactOn(put, get(payload).value, plain(payload), payload);
    assert put(r).value + [] == put(r).value;
    if EncodeWith(put, r) == Ok(b) {
      FrameInjective(put(r).value, payload);
    }
  }

  /**
    An accepted file is written again byte for byte exactly when it is plain: every flag and presence byte in it is 0
    or 1, and every CPU list is strictly increasing.
   */
  lemma {:induction false} ReencodesExactly(b: seq<byte>)
    ensures Decode(b).Ok? ==> (Encode(Decode(b).value) == Ok(b) <==> PlainPayload(Unframe(b).value))
  {
    PayloadExact();
    if Decode(b).Ok? {
      ReencodesWith(PutPayload, GetPayload, PlainPayload, b);
    }
  }
}
