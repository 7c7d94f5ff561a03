/**
  The layout of the durable record (crates/sysboost-core/src/transaction.rs, 940-1390): every
  structure is a list of cells, and an operation or a record is put together from structures.
 */
module RecordWire {
  import opened Outcome
  import opened Bytes
  import opened Text
  import opened Mutation
  import opened Session
  import opened Wire
  import opened VocabularyWire
  import opened LayoutWire

  // ----- tags

  function SessionStateTag(s: SessionState): byte {
    match s
    case New => 0 case Detected => 1 case Planned => 2 case Snapshotted => 3 case IntentDurable => 4
    case Applying => 5 case Active => 6 case Restoring => 7 case Restored => 8 case RollingBack => 9
    case Degraded => 10 case RecoveryPending => 11
  }

  function SessionStateOf(tag: byte): (r: Result<SessionState>)
    ensures r.Ok? ==> SessionStateTag(r.value) == tag
    ensures r.Err? ==> r.code == JournalCorrupt
  {
    match tag
    case 0 => Ok(New) case 1 => Ok(Detected) case 2 => Ok(Planned) case 3 => Ok(Snapshotted)
    case 4 => Ok(IntentDurable) case 5 => Ok(Applying) case 6 => Ok(Active) case 7 => Ok(Restoring)
    case 8 => Ok(Restored) case 9 => Ok(RollingBack) case 10 => Ok(Degraded) case 11 => Ok(RecoveryPending)
    case _ => Err(JournalCorrupt)
  }

  function OperationStateTag(s: OperationState): byte {
    match s
    case OpPlanned => 0 case OpSnapshotted => 1 case OpIntentRecorded => 2 case OpApplying => 3
    case OpApplied => 4 case OpVerified => 5 case OpRestoring => 6 case OpRestored => 7
    case OpFailed => 8 case OpRestoreFailed => 9
  }

  function OperationStateOf(tag: byte): (r: Result<OperationState>)
    ensures r.Ok? ==> OperationStateTag(r.value) == tag
    ensures r.Err? ==> r.code == JournalCorrupt
  {
    match tag
    case 0 => Ok(OpPlanned) case 1 => Ok(OpSnapshotted) case 2 => Ok(OpIntentRecorded)
    case 3 => Ok(OpApplying) case 4 => Ok(OpApplied) case 5 => Ok(OpVerified) case 6 => Ok(OpRestoring)
    case 7 => Ok(OpRestored) case 8 => Ok(OpFailed) case 9 => Ok(OpRestoreFailed)
    case _ => Err(JournalCorrupt)
  }

  function EqualityTag(e: Equality): byte {
    match e case ByteExact => 0 case ScalarExact => 1 case SetExact => 2
  }

  function EqualityOf(tag: byte): (r: Result<Equality>)
    ensures r.Ok? ==> EqualityTag(r.value) == tag
    ensures r.Err? ==> r.code == JournalCorrupt
  {
    match tag
    case 0 => Ok(ByteExact) case 1 => Ok(ScalarExact) case 2 => Ok(SetExact) case _ => Err(JournalCorrupt)
  }

  function StageTag(s: Stage): byte {
    match s
    case DetectStage => 0 case PlanStage => 1 case SnapshotStage => 2 case DurableIntentStage => 3
    case ApplyStage => 4 case VerifyStage => 5 case RestoreStage => 6 case RecoveryStage => 7
    case TransportStage => 8 case ConfigStage => 9
  }

  function StageOf(tag: byte): (r: Result<Stage>)
    ensures r.Ok? ==> StageTag(r.value) == tag
    ensures r.Err? ==> r.code == JournalCorrupt
  {
    match tag
    case 0 => Ok(DetectStage) case 1 => Ok(PlanStage) case 2 => Ok(SnapshotStage)
    case 3 => Ok(DurableIntentStage) case 4 => Ok(ApplyStage) case 5 => Ok(VerifyStage)
    case 6 => Ok(RestoreStage) case 7 => Ok(RecoveryStage) case 8 => Ok(TransportStage)
    case 9 => Ok(ConfigStage) case _ => Err(JournalCorrupt)
  }

  function CodeTag(c: ErrorCode): u16 {
    match c
    case ConfigError => 1 case CapabilityError => 2 case Unsupported => 3 case AuthorizationError => 4
    case TargetError => 5 case PlanningError => 6 case SnapshotError => 7 case DurabilityError => 8
    case TransportError => 9 case ApplyError => 10 case VerificationError => 11 case RestoreConflict => 12
    case RestoreError => 13 case JournalCorrupt => 14 case InvariantViolation => 15 case InvalidInput => 16
  }

  function CodeOf(tag: u16): (r: Result<ErrorCode>)
    ensures r.Ok? ==> CodeTag(r.value) == tag
    ensures r.Err? ==> r.code == JournalCorrupt
  {
    match tag
    case 1 => Ok(ConfigError) case 2 => Ok(CapabilityError) case 3 => Ok(Unsupported)
    case 4 => Ok(AuthorizationError) case 5 => Ok(TargetError) case 6 => Ok(PlanningError)
    case 7 => Ok(SnapshotError) case 8 => Ok(DurabilityError) case 9 => Ok(TransportError)
    case 10 => Ok(ApplyError) case 11 => Ok(VerificationError) case 12 => Ok(RestoreConflict)
    case 13 => Ok(RestoreError) case 14 => Ok(JournalCorrupt) case 15 => Ok(InvariantViolation)
    case 16 => Ok(InvalidInput) case _ => Err(JournalCorrupt)
  }

  lemma {:induction false} TagsDecode(s: SessionState, o: OperationState, e: Equality, g: Stage, c: ErrorCode)
    ensures SessionStateOf(SessionStateTag(s)) == Ok(s)
    ensures OperationStateOf(OperationStateTag(o)) == Ok(o)
    ensures EqualityOf(EqualityTag(e)) == Ok(e)
    ensures StageOf(StageTag(g)) == Ok(g)
    ensures CodeOf(CodeTag(c)) == Ok(c)
  {
  }

  // ----- cells

  datatype CellType =
    | TScalar(field: FieldType) | TFixed16 | TFixed32 | TWord128 | TRaw | TText
    | TKind | TValue | TMaybePrint | TMaybeId | TIds | TNames

  datatype Cell =
    | Scalar(field: Field) | Fixed16(f16: Bytes16) | Fixed32(f32: Bytes32) | Word128(n128: u128)
    | Raw(raw: BoundedBytes) | Text(text: Utf8) | Kind(kind: MutationKind) | Value(value: TypedValue)
    | MaybePrint(mark: Option<Bytes32>) | MaybeId(id: Option<u32>) | Ids(ids: seq<u32>)
    | Names(names: seq<Identifier>)
  {
    function Type(): CellType {
      match this
      case Scalar(f) => TScalar(f.Type()) case Fixed16(_) => TFixed16 case Fixed32(_) => TFixed32
      case Word128(_) => TWord128 case Raw(_) => TRaw case Text(_) => TText case Kind(_) => TKind
      case Value(_) => TValue case MaybePrint(_) => TMaybePrint case MaybeId(_) => TMaybeId
      case Ids(_) => TIds case Names(_) => TNames
    }

    predicate Bounded() {
      match this
      case Scalar(f) => f.Bounded()
      case Kind(k) => KindBounded(k)
      case Value(v) => ValueBounded(v)
      case _ => true
    }
  }

  function PutFixed16(x: Bytes16): Bits { Ok(x) }
  function PutFixed32(x: Bytes32): Bits { Ok(x) }
  function PutWord128(x: u128): Bits { Ok(PutU128(x)) }
  function PutRaw(x: BoundedBytes): Bits { PutBytes(x) }

  function GetRaw(s: seq<byte>): Result<Parsed<BoundedBytes>> {
    var p :- GetBytes(s, MAX_PREIMAGE_BYTES);
    Ok(Parsed(p.value, p.rest))
  }

  function PutText(t: Utf8): Bits { PutString(t, MAX_REASON_BYTES) }
  function GetText(s: seq<byte>): Result<Parsed<Utf8>> { GetString(s, MAX_REASON_BYTES) }
  function PutMaybePrint(x: Option<Bytes32>): Bits { PutOption(PutFixed32, x) }
  function GetMaybePrint(s: seq<byte>): Result<Parsed<Option<Bytes32>>> { GetOption(GetFixed32, s) }
  function PutMaybeId(x: Option<u32>): Bits { PutOption(PutWord32, x) }
  function GetMaybeId(s: seq<byte>): Result<Parsed<Option<u32>>> { GetOption(GetU32, s) }
  function PutIds(x: seq<u32>): Bits { PutList(PutWord32, x, MAX_DEPENDENCIES) }
  function GetIds(s: seq<byte>): Result<Parsed<seq<u32>>> { GetList(GetU32, MAX_DEPENDENCIES, s) }
  function PutNames(x: seq<Identifier>): Bits { PutList(PutIdentifier, x, MAX_TARGETS) }
  function GetNames(s: seq<byte>): Result<Parsed<seq<Identifier>>> { GetList(GetIdentifier, MAX_TARGETS, s) }

  function PutCell(c: Cell): Bits {
    match c
    case Scalar(f) => PutField(f)
    case Fixed16(x) => PutFixed16(x)
    case Fixed32(x) => PutFixed32(x)
    case Word128(x) => PutWord128(x)
    case Raw(x) => PutRaw(x)
    case Text(x) => PutText(x)
    case Kind(x) => PutKind(x)
    case Value(x) => PutValue(x)
    case MaybePrint(x) => PutMaybePrint(x)
    case MaybeId(x) => PutMaybeId(x)
    case Ids(x) => PutIds(x)
    case Names(x) => PutNames(x)
  }

  function GetCell(t: CellType, s: seq<byte>): Result<Parsed<Cell>> {
    match t
    case TScalar(f) => var p :- GetField(f, s); Ok(Parsed(Scalar(p.value), p.rest))
    case TFixed16 => var p :- GetFixed16(s); Ok(Parsed(Fixed16(p.value), p.rest))
    case TFixed32 => var p :- GetFixed32(s); Ok(Parsed(Fixed32(p.value), p.rest))
    case TWord128 => var p :- GetU128(s); Ok(Parsed(Word128(p.value), p.rest))
    case TRaw => var p :- GetRaw(s); Ok(Parsed(Raw(p.value), p.rest))
    case TText => var p :- GetText(s); Ok(Parsed(Text(p.value), p.rest))
    case TKind => var p :- GetKind(s); Ok(Parsed(Kind(p.value), p.rest))
    case TValue => var p :- GetValue(s); Ok(Parsed(Value(p.value), p.rest))
    case TMaybePrint => var p :- GetMaybePrint(s); Ok(Parsed(MaybePrint(p.value), p.rest))
    case TMaybeId => var p :- GetMaybeId(s); Ok(Parsed(MaybeId(p.value), p.rest))
    case TIds => var p :- GetIds(s); Ok(Parsed(Ids(p.value), p.rest))
    case TNames => var p :- GetNames(s); Ok(Parsed(Names(p.value), p.rest))
  }

  predicate CellFits(t: CellType, c: Cell) { c.Type() == t && c.Bounded() }

  /**
    A bounded cell of type `t` reads back as itself in front of any continuation, and whatever is
    read as a cell of type `t` is such a cell and can be written in no more room.
   */
  ghost predicate CellLaw(t: CellType) {
    && (forall c: Cell :: CellFits(t, c) ==> ReadsAs(PutCell, GetCell, t, c))
    && (forall s: seq<byte> :: RewritesAt(PutCell, GetCell, CellFits, t, s))
  }

  lemma {:induction false} ScalarCellLaw(f: FieldType)
    ensures CellLaw(TScalar(f))
  {
    EveryFieldLaw(f);
    var wrap := (x: Field) => Scalar(x);
    RewrapCodec(PutField, GetField, FieldFits, f, PutCell, GetCell, CellFits, TScalar(f), wrap);
    assert forall c: Cell :: CellFits(TScalar(f), c) ==> c == wrap(c.field);
  }

  lemma {:induction false} Fixed32Codec()
    ensures Codec(PutFixed32, GetFixed32, Any)
  {
    forall x: Bytes32
      ensures Reads(PutFixed32, GetFixed32, x)
    {
      Fixed32Reads(x);
    }
  }

  lemma {:induction false} IdentifierCodec()
    ensures Codec(PutIdentifier, GetIdentifier, Any)
  {
    forall x: Identifier
      ensures Reads(PutIdentifier, GetIdentifier, x)
    {
      NameReads(x);
    }
  }

  lemma {:induction false} Fixed16CellLaw()
    ensures CellLaw(TFixed16)
  {
    forall x: Bytes16
      ensures Reads(PutFixed16, GetFixed16, x)
    {
      Fixed16Reads(x);
    }
    var wrap := (x: Bytes16) => Fixed16(x);
    WrapCodec(PutFixed16, GetFixed16, Any, PutCell, GetCell, CellFits, TFixed16, wrap);
    assert forall c: Cell :: CellFits(TFixed16, c) ==> c == wrap(c.f16);
  }

  lemma {:induction false} Fixed32CellLaw()
    ensures CellLaw(TFixed32)
  {
    Fixed32Codec();
    var wrap := (x: Bytes32) => Fixed32(x);
    WrapCodec(PutFixed32, GetFixed32, Any, PutCell, GetCell, CellFits, TFixed32, wrap);
    assert forall c: Cell :: CellFits(TFixed32, c) ==> c == wrap(c.f32);
  }

  lemma {:induction false} Word128CellLaw()
    ensures CellLaw(TWord128)
  {
    forall x: u128
      ensures Reads(PutWord128, GetU128, x)
    {
      U128Reads(x);
    }
    var wrap := (x: u128) => Word128(x);
    WrapCodec(PutWord128, GetU128, Any, PutCell, GetCell, CellFits, TWord128, wrap);
    assert forall c: Cell :: CellFits(TWord128, c) ==> c == wrap(c.n128);
  }

  lemma {:induction false} RawCellLaw()
    ensures CellLaw(TRaw)
  {
    forall x: BoundedBytes
      ensures Reads(PutRaw, GetRaw, x)
    {
      if PutRaw(x).Ok? {
        BytesRead(x, MAX_PREIMAGE_BYTES);
      }
    }
    var wrap := (x: BoundedBytes) => Raw(x);
    WrapCodec(PutRaw, GetRaw, Any, PutCell, GetCell, CellFits, TRaw, wrap);
    assert forall c: Cell :: CellFits(TRaw, c) ==> c == wrap(c.raw);
  }

  lemma {:induction false} TextCellLaw()
    ensures CellLaw(TText)
  {
    forall x: Utf8
      ensures Reads(PutText, GetText, x)
    {
      if PutText(x).Ok? {
        StringReads(x, MAX_REASON_BYTES);
      }
    }
    var wrap := (x: Utf8) => Text(x);
    WrapCodec(PutText, GetText, Any, PutCell, GetCell, CellFits, TText, wrap);
    assert forall c: Cell :: CellFits(TText, c) ==> c == wrap(c.text);
  }

  lemma {:induction false} KindCellLaw()
    ensures CellLaw(TKind)
  {
    KindCodec();
    var wrap := (x: MutationKind) => Kind(x);
    WrapCodec(PutKind, GetKind, KindBounded, PutCell, GetCell, CellFits, TKind, wrap);
    assert forall c: Cell :: CellFits(TKind, c) ==> c == wrap(c.kind);
  }

  lemma {:induction false} ValueCellLaw()
    ensures CellLaw(TValue)
  {
    ValueCodec();
    var wrap := (x: TypedValue) => Value(x);
    WrapCodec(PutValue, GetValue, ValueBounded, PutCell, GetCell, CellFits, TValue, wrap);
    assert forall c: Cell :: CellFits(TValue, c) ==> c == wrap(c.value);
  }

  lemma {:induction false} MaybePrintCellLaw()
    ensures CellLaw(TMaybePrint)
  {
    Fixed32Codec();
    OptionCodec(PutFixed32, GetFixed32, Any, PutMaybePrint, GetMaybePrint, Any);
    var wrap := (x: Option<Bytes32>) => MaybePrint(x);
    WrapCodec(PutMaybePrint, GetMaybePrint, Any, PutCell, GetCell, CellFits, TMaybePrint, wrap);
    assert forall c: Cell :: CellFits(TMaybePrint, c) ==> c == wrap(c.mark);
  }

  lemma {:induction false} MaybeIdCellLaw()
    ensures CellLaw(TMaybeId)
  {
    Word32Codec();
    OptionCodec(PutWord32, GetU32, Any, PutMaybeId, GetMaybeId, Any);
    var wrap := (x: Option<u32>) => MaybeId(x);
    WrapCodec(PutMaybeId, GetMaybeId, Any, PutCell, GetCell, CellFits, TMaybeId, wrap);
    assert forall c: Cell :: CellFits(TMaybeId, c) ==> c == wrap(c.id);
  }

  lemma {:induction false} IdsCellLaw()
    ensures CellLaw(TIds)
  {
    Word32Codec();
    ListCodec(PutWord32, GetU32, Any, MAX_DEPENDENCIES, PutIds, GetIds, Any);
    var wrap := (x: seq<u32>) => Ids(x);
    WrapCodec(PutIds, GetIds, Any, PutCell, GetCell, CellFits, TIds, wrap);
    assert forall c: Cell :: CellFits(TIds, c) ==> c == wrap(c.ids);
  }

  lemma {:induction false} NamesCellLaw()
    ensures CellLaw(TNames)
  {
    IdentifierCodec();
    ListCodec(PutIdentifier, GetIdentifier, Any, MAX_TARGETS, PutNames, GetNames, Any);
    var wrap := (x: seq<Identifier>) => Names(x);
    WrapCodec(PutNames, GetNames, Any, PutCell, GetCell, CellFits, TNames, wrap);
    assert forall c: Cell :: CellFits(TNames, c) ==> c == wrap(c.names);
  }

  lemma {:induction false} EveryCellLaw(t: CellType)
    ensures CellLaw(t)
  {
    match t {
      case TScalar(f) => ScalarCellLaw(f);
      case TFixed16 => Fixed16CellLaw();
      case TFixed32 => Fixed32CellLaw();
      case TWord128 => Word128CellLaw();
      case TRaw => RawCellLaw();
      case TText => TextCellLaw();
      case TKind => KindCellLaw();
      case TValue => ValueCellLaw();
      case TMaybePrint => MaybePrintCellLaw();
      case TMaybeId => MaybeIdCellLaw();
      case TIds => IdsCellLaw();
      case TNames => NamesCellLaw();
    }
  }

  // ----- structures: lists of cells

  predicate CellsTyped(cells: seq<Cell>, layout: seq<CellType>) {
    |cells| == |layout| && forall i :: 0 <= i < |cells| ==> CellFits(layout[i], cells[i])
  }

  function GetCells(layout: seq<CellType>, s: seq<byte>): Result<Parsed<seq<Cell>>> {
    GetEach(GetCell, layout, s)
  }

  lemma {:induction false} CellsRead(cells: seq<Cell>, layout: seq<CellType>)
    requires CellsTyped(cells, layout) && PutAll(PutCell, cells).Ok?
    ensures forall rest :: GetCells(layout, PutAll(PutCell, cells).value + rest) == Ok(Parsed(cells, rest))
  {
    forall i | 0 <= i < |cells|
      ensures ReadsAs(PutCell, GetCell, layout[i], cells[i])
    {
      assert CellFits(layout[i], cells[i]);
      EveryCellLaw(layout[i]);
    }
    EachReads(PutCell, GetCell, cells, layout);
  }

  lemma {:induction false} CellsRewrite(layout: seq<CellType>, s: seq<byte>)
    requires GetCells(layout, s).Ok?
    ensures var p := GetCells(layout, s).value;
            CellsTyped(p.value, layout) && Fits(PutAll(PutCell, p.value), p.rest, s)
  {
    forall t: CellType, rest: seq<byte>
      ensures RewritesAt(PutCell, GetCell, CellFits, t, rest)
    {
      EveryCellLaw(t);
    }
    EachRewrites(PutCell, GetCell, CellFits, layout, s);
  }
}
