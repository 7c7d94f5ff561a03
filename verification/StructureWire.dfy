/**
  The structures of a durable record as lists of cells, and the record put together from them
  (crates/sysboost-core/src/transaction.rs, 940-1229).
 */
module StructureWire {
  import opened Outcome
  import opened Bytes
  import opened Mutation
  import opened Session
  import opened Wire
  import opened VocabularyWire
  import opened LayoutWire
  import opened RecordWire

  function PutStruct<X>(cells: X -> seq<Cell>, x: X): Bits {
    PutAll(PutCell, cells(x))
  }

  function GetStruct<X>(layout: seq<CellType>, build: seq<Cell> -> Result<X>, s: seq<byte>): Result<Parsed<X>> {
    var p :- GetCells(layout, s);
    var x :- build(p.value);
    Ok(Parsed(x, p.rest))
  }

  /** `cells` and `build` are mutually inverse between the `good` values and the well-typed cell lists. */
  ghost predicate Lawful<X(!new)>(
    layout: seq<CellType>, cells: X -> seq<Cell>, build: seq<Cell> -> Result<X>, good: X -> bool)
  {
    && (forall x: X :: good(x) ==> CellsTyped(cells(x), layout) && build(cells(x)) == Ok(x))
    && (forall f: seq<Cell> :: build(f).Ok? ==> good(build(f).value) && cells(build(f).value) == f)
  }

  lemma {:induction false} StructCodec<X(!new)>(
    layout: seq<CellType>, cells: X -> seq<Cell>, build: seq<Cell> -> Result<X>, good: X -> bool,
    put: X -> Bits, get: seq<byte> -> Result<Parsed<X>>)
    requires Lawful(layout, cells, build, good)
    requires forall x :: put(x) == PutStruct(cells, x)
    requires forall s :: get(s) == GetStruct(layout, build, s)
    ensures Codec(put, get, good)
  {
    forall x: X | good(x)
      ensures Reads(put, get, x)
    {
      if PutStruct(cells, x).Ok? {
        CellsRead(cells(x), layout);
      }
    }
    forall s: seq<byte> | get(s).Ok?
      ensures good(get(s).value.value) && Fits(put(get(s).value.value), get(s).value.rest, s)
    {
      CellsRewrite(layout, s);
    }
  }

  // ----- the planned mutation

  const MUTATION: seq<CellType> :=
    [TScalar(TWord32), TScalar(TName), TScalar(TName), TKind, TValue, TFixed32, TScalar(TByte), TIds]

  function MutationCells(m: PlannedMutation): seq<Cell> {
    [Scalar(Word32(m.id)), Scalar(Name(m.capability)), Scalar(Name(m.target)), Kind(m.kind),
     Value(m.desired), Fixed32(m.precondition), Scalar(Byte(EqualityTag(m.equality))), Ids(m.dependencies)]
  }

  function BuildMutation(f: seq<Cell>): Result<PlannedMutation> {
    if !CellsTyped(f, MUTATION) then Err(JournalCorrupt)
    else
      var equality :- EqualityOf(f[6].field.n8);
      var m := NewMutation(f[0].field.n32, f[1].field.name, f[2].field.name, f[3].kind, f[4].value,
                           f[5].f32, equality, f[7].ids);
      if m.Ok? then Ok(m.value) else Err(JournalCorrupt)
  }

  function PutMutation(m: PlannedMutation): Bits { PutStruct(MutationCells, m) }
  function GetMutation(s: seq<byte>): Result<Parsed<PlannedMutation>> {
    GetStruct(MUTATION, BuildMutation, s)
  }

  predicate MutationBuilt(m: PlannedMutation) { Constructed(m) && KindBounded(m.kind) }

  lemma {:induction false} DesiredBounded(kind: MutationKind)
    requires KindBounded(kind)
    ensures ValueBounded(Desired(kind))
  {
  }

  lemma {:induction false} MutationWrites(x: PlannedMutation)
    requires MutationBuilt(x)
    ensures CellsTyped(MutationCells(x), MUTATION) && BuildMutation(MutationCells(x)) == Ok(x)
  {
    DesiredBounded(x.kind);
    TagsDecode(New, OpPlanned, x.equality, PlanStage, Unsupported);
  }

  lemma {:induction false} MutationReads(f: seq<Cell>)
    requires BuildMutation(f).Ok?
    ensures MutationBuilt(BuildMutation(f).value) && MutationCells(BuildMutation(f).value) == f
  {
    assert CellFits(MUTATION[3], f[3]);
  }

  lemma {:induction false} MutationLawful()
    ensures Lawful(MUTATION, MutationCells, BuildMutation, MutationBuilt)
  {
    forall x: PlannedMutation | MutationBuilt(x)
      ensures CellsTyped(MutationCells(x), MUTATION) && BuildMutation(MutationCells(x)) == Ok(x)
    {
      MutationWrites(x);
    }
    forall f: seq<Cell> | BuildMutation(f).Ok?
      ensures MutationBuilt(BuildMutation(f).value) && MutationCells(BuildMutation(f).value) == f
    {
      MutationReads(f);
    }
  }

  lemma {:induction false} MutationCodec()
    ensures Codec(PutMutation, GetMutation, MutationBuilt)
  {
    MutationLawful();
    StructCodec(MUTATION, MutationCells, BuildMutation, MutationBuilt, PutMutation, GetMutation);
  }

  // ----- receipts, snapshots and journal entries

  const SNAPSHOT: seq<CellType> :=
    [TScalar(TWord32), TScalar(TName), TRaw, TValue, TFixed32, TScalar(TByte), TFixed16, TWord128]

  function SnapshotCells(x: Snapshot): seq<Cell> {
    [Scalar(Word32(x.id)), Scalar(Name(x.target)), Raw(x.raw), Value(x.typed), Fixed32(x.fingerprint),
     Scalar(Byte(EqualityTag(x.equality))), Fixed16(x.identity), Word128(x.capturedAt)]
  }

  function BuildSnapshot(f: seq<Cell>): Result<Snapshot> {
    if !CellsTyped(f, SNAPSHOT) then Err(JournalCorrupt)
    else
      var equality :- EqualityOf(f[5].field.n8);
      Ok(Snapshot(f[0].field.n32, f[1].field.name, f[2].raw, f[3].value, f[4].f32, equality, f[6].f16, f[7].n128))
  }

  predicate SnapshotBuilt(x: Snapshot) { ValueBounded(x.typed) }

  function PutSnapshot(x: Snapshot): Bits { PutStruct(SnapshotCells, x) }
  function GetSnapshot(s: seq<byte>): Result<Parsed<Snapshot>> { GetStruct(SNAPSHOT, BuildSnapshot, s) }

  lemma {:induction false} SnapshotLawful()
    ensures Lawful(SNAPSHOT, SnapshotCells, BuildSnapshot, SnapshotBuilt)
  {
    forall x: Snapshot | SnapshotBuilt(x)
      ensures CellsTyped(SnapshotCells(x), SNAPSHOT) && BuildSnapshot(SnapshotCells(x)) == Ok(x)
    {
      TagsDecode(New, OpPlanned, x.equality, PlanStage, Unsupported);
    }
    forall f: seq<Cell> | BuildSnapshot(f).Ok?
      ensures SnapshotBuilt(BuildSnapshot(f).value) && SnapshotCells(BuildSnapshot(f).value) == f
    {
      assert CellFits(SNAPSHOT[3], f[3]);
    }
  }

  lemma {:induction false} SnapshotCodec()
    ensures Codec(PutSnapshot, GetSnapshot, SnapshotBuilt)
  {
    SnapshotLawful();
    StructCodec(SNAPSHOT, SnapshotCells, BuildSnapshot, SnapshotBuilt, PutSnapshot, GetSnapshot);
  }

  const APPLY: seq<CellType> :=
    [TScalar(TWord32), TFixed32, TFixed32, TFixed32]

  function ApplyCells(x: ApplyReceipt): seq<Cell> {
    [Scalar(Word32(x.id)), Fixed32(x.precondition), Fixed32(x.postcondition), Fixed32(x.ownership)]
  }

  function BuildApply(f: seq<Cell>): Result<ApplyReceipt> {
    if !CellsTyped(f, APPLY) then Err(JournalCorrupt)
    else
      Ok(ApplyReceipt(f[0].field.n32, f[1].f32, f[2].f32, f[3].f32))
  }

  function PutApply(x: ApplyReceipt): Bits { PutStruct(ApplyCells, x) }
  function GetApply(s: seq<byte>): Result<Parsed<ApplyReceipt>> { GetStruct(APPLY, BuildApply, s) }

  lemma {:induction false} ApplyLawful()
    ensures Lawful(APPLY, ApplyCells, BuildApply, Any<ApplyReceipt>)
  {
    forall x: ApplyReceipt | Any<ApplyReceipt>(x)
      ensures CellsTyped(ApplyCells(x), APPLY) && BuildApply(ApplyCells(x)) == Ok(x)
    {
    }
    forall f: seq<Cell> | BuildApply(f).Ok?
      ensures Any<ApplyReceipt>(BuildApply(f).value) && ApplyCells(BuildApply(f).value) == f
    {
    }
  }

  lemma {:induction false} ApplyCodec()
    ensures Codec(PutApply, GetApply, Any<ApplyReceipt>)
  {
    ApplyLawful();
    StructCodec(APPLY, ApplyCells, BuildApply, Any<ApplyReceipt>, PutApply, GetApply);
  }

  const VERIFICATION: seq<CellType> :=
    [TScalar(TWord32), TFixed32, TMaybePrint, TScalar(TFlag)]

  function VerificationCells(x: Verification): seq<Cell> {
    [Scalar(Word32(x.id)), Fixed32(x.expected), MaybePrint(x.observed), Scalar(Flag(x.matched))]
  }

  function BuildVerification(f: seq<Cell>): Result<Verification> {
    if !CellsTyped(f, VERIFICATION) then Err(JournalCorrupt)
    else
      Ok(Verification(f[0].field.n32, f[1].f32, f[2].mark, f[3].field.flag))
  }

  function PutVerification(x: Verification): Bits { PutStruct(VerificationCells, x) }
  function GetVerification(s: seq<byte>): Result<Parsed<Verification>> { GetStruct(VERIFICATION, BuildVerification, s) }

  lemma {:induction false} VerificationLawful()
    ensures Lawful(VERIFICATION, VerificationCells, BuildVerification, Any<Verification>)
  {
    forall x: Verification | Any<Verification>(x)
      ensures CellsTyped(VerificationCells(x), VERIFICATION) && BuildVerification(VerificationCells(x)) == Ok(x)
    {
    }
    forall f: seq<Cell> | BuildVerification(f).Ok?
      ensures Any<Verification>(BuildVerification(f).value) && VerificationCells(BuildVerification(f).value) == f
    {
    }
  }

  lemma {:induction false} VerificationCodec()
    ensures Codec(PutVerification, GetVerification, Any<Verification>)
  {
    VerificationLawful();
    StructCodec(VERIFICATION, VerificationCells, BuildVerification, Any<Verification>, PutVerification, GetVerification);
  }

  const RESTORE: seq<CellType> :=
    [TScalar(TWord32), TFixed32, TScalar(TFlag)]

  function RestoreCells(x: RestoreReceipt): seq<Cell> {
    [Scalar(Word32(x.id)), Fixed32(x.restored), Scalar(Flag(x.verified))]
  }

  function BuildRestore(f: seq<Cell>): Result<RestoreReceipt> {
    if !CellsTyped(f, RESTORE) then Err(JournalCorrupt)
    else
      Ok(RestoreReceipt(f[0].field.n32, f[1].f32, f[2].field.flag))
  }

  function PutRestore(x: RestoreReceipt): Bits { PutStruct(RestoreCells, x) }
  function GetRestore(s: seq<byte>): Result<Parsed<RestoreReceipt>> { GetStruct(RESTORE, BuildRestore, s) }

  lemma {:induction false} RestoreLawful()
    ensures Lawful(RESTORE, RestoreCells, BuildRestore, Any<RestoreReceipt>)
  {
    forall x: RestoreReceipt | Any<RestoreReceipt>(x)
      ensures CellsTyped(RestoreCells(x), RESTORE) && BuildRestore(RestoreCells(x)) == Ok(x)
    {
    }
    forall f: seq<Cell> | BuildRestore(f).Ok?
      ensures Any<RestoreReceipt>(BuildRestore(f).value) && RestoreCells(BuildRestore(f).value) == f
    {
    }
  }

  lemma {:induction false} RestoreCodec()
    ensures Codec(PutRestore, GetRestore, Any<RestoreReceipt>)
  {
    RestoreLawful();
    StructCodec(RESTORE, RestoreCells, BuildRestore, Any<RestoreReceipt>, PutRestore, GetRestore);
  }

  const FAILURE: seq<CellType> :=
    [TScalar(TWord16), TScalar(TByte), TMaybeId, TText]

  function FailureCells(x: Failure): seq<Cell> {
    [Scalar(Word16(CodeTag(x.code))), Scalar(Byte(StageTag(x.stage))), MaybeId(x.id), Text(x.message)]
  }

  function BuildFailure(f: seq<Cell>): Result<Failure> {
    if !CellsTyped(f, FAILURE) then Err(JournalCorrupt)
    else
      var code :- CodeOf(f[0].field.n16);
      var stage :- StageOf(f[1].field.n8);
      Ok(Failure(code, stage, f[2].id, f[3].text))
  }

  function PutFailure(x: Failure): Bits { PutStruct(FailureCells, x) }
  function GetFailure(s: seq<byte>): Result<Parsed<Failure>> { GetStruct(FAILURE, BuildFailure, s) }

  lemma {:induction false} FailureLawful()
    ensures Lawful(FAILURE, FailureCells, BuildFailure, Any<Failure>)
  {
    forall x: Failure | Any<Failure>(x)
      ensures CellsTyped(FailureCells(x), FAILURE) && BuildFailure(FailureCells(x)) == Ok(x)
    {
      TagsDecode(New, OpPlanned, ByteExact, x.stage, x.code);
    }
    forall f: seq<Cell> | BuildFailure(f).Ok?
      ensures Any<Failure>(BuildFailure(f).value) && FailureCells(BuildFailure(f).value) == f
    {
    }
  }

  lemma {:induction false} FailureCodec()
    ensures Codec(PutFailure, GetFailure, Any<Failure>)
  {
    FailureLawful();
    StructCodec(FAILURE, FailureCells, BuildFailure, Any<Failure>, PutFailure, GetFailure);
  }

  const TRANSITION: seq<CellType> :=
    [TScalar(TWord64), TFixed16, TScalar(TByte), TScalar(TByte), TWord128, TText]

  function TransitionCells(x: TransitionRecord): seq<Cell> {
    [Scalar(Word64(x.sequence)), Fixed16(x.sessionId), Scalar(Byte(SessionStateTag(x.from))),
     Scalar(Byte(SessionStateTag(x.to))), Word128(x.at), Text(x.reason)]
  }

  function BuildTransition(f: seq<Cell>): Result<TransitionRecord> {
    if !CellsTyped(f, TRANSITION) then Err(JournalCorrupt)
    else
      var from :- SessionStateOf(f[2].field.n8);
      var to :- SessionStateOf(f[3].field.n8);
      Ok(TransitionRecord(f[0].field.n64, f[1].f16, from, to, f[4].n128, f[5].text))
  }

  function PutTransition(x: TransitionRecord): Bits { PutStruct(TransitionCells, x) }
  function GetTransition(s: seq<byte>): Result<Parsed<TransitionRecord>> { GetStruct(TRANSITION, BuildTransition, s) }

  lemma {:induction false} TransitionLawful()
    ensures Lawful(TRANSITION, TransitionCells, BuildTransition, Any<TransitionRecord>)
  {
    forall x: TransitionRecord | Any<TransitionRecord>(x)
      ensures CellsTyped(TransitionCells(x), TRANSITION) && BuildTransition(TransitionCells(x)) == Ok(x)
    {
      TagsDecode(x.from, OpPlanned, ByteExact, PlanStage, Unsupported);
      TagsDecode(x.to, OpPlanned, ByteExact, PlanStage, Unsupported);
    }
    forall f: seq<Cell> | BuildTransition(f).Ok?
      ensures Any<TransitionRecord>(BuildTransition(f).value) && TransitionCells(BuildTransition(f).value) == f
    {
    }
  }

  lemma {:induction false} TransitionCodec()
    ensures Codec(PutTransition, GetTransition, Any<TransitionRecord>)
  {
    TransitionLawful();
    StructCodec(TRANSITION, TransitionCells, BuildTransition, Any<TransitionRecord>, PutTransition, GetTransition);
  }

  const SESSION: seq<CellType> :=
    [TFixed16, TFixed16, TFixed32, TWord128, TScalar(TByte), TNames]

  function SessionCells(x: Session): seq<Cell> {
    [Fixed16(x.header.sessionId), Fixed16(x.header.planId), Fixed32(x.header.planDigest),
     Word128(x.header.createdAt), Scalar(Byte(SessionStateTag(x.state))), Names(x.header.targets)]
  }

  function BuildSession(f: seq<Cell>): Result<Session> {
    if !CellsTyped(f, SESSION) then Err(JournalCorrupt)
    else
      var state :- SessionStateOf(f[4].field.n8);
      Ok(Session(Header(f[0].f16, f[1].f16, f[2].f32, f[3].n128, f[5].names), state))
  }

  function PutSession(x: Session): Bits { PutStruct(SessionCells, x) }
  function GetSession(s: seq<byte>): Result<Parsed<Session>> { GetStruct(SESSION, BuildSession, s) }

  lemma {:induction false} SessionLawful()
    ensures Lawful(SESSION, SessionCells, BuildSession, Any<Session>)
  {
    forall x: Session | Any<Session>(x)
      ensures CellsTyped(SessionCells(x), SESSION) && BuildSession(SessionCells(x)) == Ok(x)
    {
      TagsDecode(x.state, OpPlanned, ByteExact, PlanStage, Unsupported);
    }
    forall f: seq<Cell> | BuildSession(f).Ok?
      ensures Any<Session>(BuildSession(f).value) && SessionCells(BuildSession(f).value) == f
    {
    }
  }

  lemma {:induction false} SessionCodec()
    ensures Codec(PutSession, GetSession, Any<Session>)
  {
    SessionLawful();
    StructCodec(SESSION, SessionCells, BuildSession, Any<Session>, PutSession, GetSession);
  }

}
