/**
  A state file that the decoder accepts and the encoder would not write
  (crates/sysboost-core/src/transaction.rs, 511-568 and 1231-1233): the presence byte of a failure's operation is 2.
 */
module LooseFile {
  import opened Outcome
  import opened Bytes
  import opened Mutation
  import opened Session
  import opened Wire
  import opened TupleWire
  import opened VocabularyWire
  import opened LayoutWire
  import opened RecordWire
  import opened StructureWire
  import opened CodecWire
  import opened Sizes
  import opened Storable
  import PlainCodec
  import History

  function TextBytes(f: Failure): seq<byte>
    requires TextStorable(f.message)
  {
    PutText(f.message).value
  }

  /** The operation a failure names, with a presence byte of choice, and its message. */
  function NamedBytes(f: Failure, presence: byte): seq<byte>
    requires f.id.Some? && TextStorable(f.message)
  {
    [presence] + (PutU32(f.id.value) + TextBytes(f))
  }

  function StagedBytes(f: Failure, presence: byte): seq<byte>
    requires f.id.Some? && TextStorable(f.message)
  {
    [StageTag(f.stage)] + NamedBytes(f, presence)
  }

  /** A failure as the encoder writes it, but for the presence byte of its operation. */
  function FailureBytes(f: Failure, presence: byte): seq<byte>
    requires f.id.Some? && TextStorable(f.message)
  {
    PutU16(CodeTag(f.code)) + StagedBytes(f, presence)
  }

  // ----- reading it

  lemma {:induction false} TextRead(f: Failure)
    requires TextStorable(f.message)
    ensures GetCell(TText, TextBytes(f)) == Ok(Parsed(Cell.Text(f.message), []))
  {
    TextPut(f.message);
    StringReads(f.message, MAX_REASON_BYTES);
    assert TextBytes(f) + [] == TextBytes(f);
  }

  lemma {:induction false} NameRead(f: Failure, presence: byte)
    requires f.id.Some? && TextStorable(f.message) && presence != 0
    ensures GetCell(TMaybeId, NamedBytes(f, presence)) == Ok(Parsed(MaybeId(f.id), TextBytes(f)))
  {
    U32Reads(f.id.value);
    assert NamedBytes(f, presence)[1..] == PutU32(f.id.value) + TextBytes(f);
  }

  lemma {:induction false} StageRead(f: Failure, presence: byte)
    requires f.id.Some? && TextStorable(f.message)
    ensures GetCell(TScalar(TByte), StagedBytes(f, presence))
            == Ok(Parsed(Scalar(Byte(StageTag(f.stage))), NamedBytes(f, presence)))
  {
    assert StagedBytes(f, presence)[1..] == NamedBytes(f, presence);
  }

  lemma {:induction false} CodeRead(f: Failure, presence: byte)
    requires f.id.Some? && TextStorable(f.message)
    ensures GetCell(TScalar(TWord16), FailureBytes(f, presence))
            == Ok(Parsed(Scalar(Word16(CodeTag(f.code))), StagedBytes(f, presence)))
  {
    U16Reads(CodeTag(f.code));
  }

  lemma {:induction false} EachStep<L, T>(
    get: (L, seq<byte>) -> Result<Parsed<T>>, layouts: seq<L>, s: seq<byte>, xs: seq<T>, middle: seq<byte>,
    rest: seq<byte>)
    requires layouts != [] && xs != []
    requires get(layouts[0], s) == Ok(Parsed(xs[0], middle))
    requires GetEach(get, layouts[1..], middle) == Ok(Parsed(xs[1..], rest))
    ensures GetEach(get, layouts, s) == Ok(Parsed(xs, rest))
  {
    assert [xs[0]] + xs[1..] == xs;
  }

  lemma {:induction false} FailureCellsRead(f: Failure, presence: byte)
    requires f.id.Some? && TextStorable(f.message) && presence != 0
    ensures GetCells(FAILURE, FailureBytes(f, presence)) == Ok(Parsed(FailureCells(f), []))
  {
    var cells := FailureCells(f);
    TextRead(f);
    assert FAILURE[3..][1..] == [] && cells[3..][1..] == [];
    EachStep(GetCell, FAILURE[3..], TextBytes(f), cells[3..], [], []);
    NameRead(f, presence);
    EachStep(GetCell, FAILURE[2..], NamedBytes(f, presence), cells[2..], TextBytes(f), []);
    StageRead(f, presence);
    EachStep(GetCell, FAILURE[1..], StagedBytes(f, presence), cells[1..], NamedBytes(f, presence), []);
    CodeRead(f, presence);
    EachStep(GetCell, FAILURE, FailureBytes(f, presence), cells, StagedBytes(f, presence), []);
  }

  /** Every nonzero presence byte reads the same. */
  lemma {:induction false} FailureReads(f: Failure, presence: byte)
    requires f.id.Some? && TextStorable(f.message) && presence != 0
    ensures GetFailure(FailureBytes(f, presence)) == Ok(Parsed(f, []))
  {
    FailureCellsRead(f, presence);
    FailureLawful();
    assert Any<Failure>(f);
  }

  // ----- the encoder writes 1

  lemma {:induction false} AllStep<T>(put: T -> Bits, xs: seq<T>, others: seq<byte>)
    requires xs != [] && put(xs[0]).Ok? && PutAll(put, xs[1..]) == Ok(others)
    ensures PutAll(put, xs) == Ok(put(xs[0]).value + others)
  {
  }

  lemma {:induction false} FailureWritten(f: Failure)
    requires f.id.Some? && TextStorable(f.message)
    ensures PutFailure(f) == Ok(FailureBytes(f, 1))
  {
    var cells := FailureCells(f);
    TextPut(f.message);
    assert TextBytes(f) + [] == TextBytes(f);
    AllStep(PutCell, cells[3..], []);
    AllStep(PutCell, cells[2..], TextBytes(f));
    assert ([1] + PutU32(f.id.value)) + TextBytes(f) == NamedBytes(f, 1);
    AllStep(PutCell, cells[1..], NamedBytes(f, 1));
    AllStep(PutCell, cells, StagedBytes(f, 1));
  }

  // ----- the file

  /** The payload of a record with one failure, with that failure's presence byte of choice. */
  function PayloadBytes(head: seq<byte>, f: Failure, presence: byte): seq<byte>
    requires f.id.Some? && TextStorable(f.message)
  {
    head + (PutU32(1) + FailureBytes(f, presence))
  }

  lemma {:induction false} ListOfOne<T>(get: seq<byte> -> Result<Parsed<T>>, max: nat, s: seq<byte>, x: T)
    requires get(s) == Ok(Parsed(x, [])) && max > 0
    ensures GetList(get, max, PutU32(1) + s) == Ok(Parsed([x], []))
  {
    U32Reads(1);
    assert GetAll(get, 0, []) == Ok(Parsed([], []));
    assert [x] + [] == [x];
    assert GetAll(get, 1, s) == Ok(Parsed([x], []));
  }

  lemma {:induction false} FailureListReads(f: Failure, presence: byte)
    requires f.id.Some? && TextStorable(f.message) && presence != 0
    ensures GetFailures(PutU32(1) + FailureBytes(f, presence)) == Ok(Parsed([f], []))
  {
    FailureReads(f, presence);
    ListOfOne(GetFailure, MAX_FAILURES, FailureBytes(f, presence), f);
  }

  lemma {:induction false} FailureListWritten(f: Failure)
    requires f.id.Some? && TextStorable(f.message)
    ensures PutFailures([f]) == Ok(PutU32(1) + FailureBytes(f, 1))
  {
    FailureWritten(f);
    assert [f][1..] == [];
    AllStep(PutFailure, [f], []);
    assert FailureBytes(f, 1) + [] == FailureBytes(f, 1);
  }

  /** The payload of a record up to its failures. */
  function HeadBytes(r: Record): seq<byte>
    requires PutPayload(r).Ok?
  {
    PutSession(r.session).value + (PutOperations(r.operations).value + PutTransitions(r.transitions).value)
  }

  lemma {:induction false} JoinedParts(a: Bits, b: Bits, c: Bits, d: Bits)
    requires Join(a, Join(b, Join(c, d))).Ok?
    ensures a.Ok? && b.Ok? && c.Ok? && d.Ok?
    ensures Join(a, Join(b, Join(c, d))).value == (a.value + (b.value + c.value)) + d.value
  {
    assert (a.value + (b.value + c.value)) + d.value == a.value + (b.value + (c.value + d.value));
  }

  lemma {:induction false} FourRead<A(!new), B(!new), C(!new), D(!new)>(
    putA: A -> Bits, putB: B -> Bits, putC: C -> Bits,
    getA: seq<byte> -> Result<Parsed<A>>, getB: seq<byte> -> Result<Parsed<B>>,
    getC: seq<byte> -> Result<Parsed<C>>, getD: seq<byte> -> Result<Parsed<D>>,
    x: A, y: B, z: C, w: D, rest: seq<byte>)
    requires putA(x).Ok? && putB(y).Ok? && putC(z).Ok?
    requires Reads(putA, getA, x) && Reads(putB, getB, y) && Reads(putC, getC, z) && getD(rest) == Ok(Parsed(w, []))
    ensures GetFour(getA, getB, getC, getD, (putA(x).value + (putB(y).value + putC(z).value)) + rest)
            == Ok(Parsed((x, y, z, w), []))
  {
    var a, b, c := putA(x).value, putB(y).value, putC(z).value;
    assert (a + (b + c)) + rest == a + (b + (c + rest));
  }

  lemma {:induction false} RecordReads(r: Record)
    requires BuiltByConstructors(r)
    ensures Reads(PutSession, GetSession, r.session)
    ensures Reads(PutOperations, GetOperations, r.operations)
    ensures Reads(PutTransitions, GetTransitions, r.transitions)
  {
    SessionCodec();
    ListsCodec();
    assert Any<Session>(r.session) && Any<seq<TransitionRecord>>(r.transitions);
    assert AllBuilt(r.operations);
  }

  lemma {:induction false} PayloadParts(r: Record)
    requires PutPayload(r).Ok?
    ensures PutSession(r.session).Ok? && PutOperations(r.operations).Ok? && PutTransitions(r.transitions).Ok?
    ensures PutFailures(r.failures).Ok?
    ensures PutPayload(r).value == HeadBytes(r) + PutFailures(r.failures).value
  {
    JoinedParts(PutSession(r.session), PutOperations(r.operations), PutTransitions(r.transitions),
                PutFailures(r.failures));
  }

  /** The head reads back in front of any continuation. */
  lemma {:induction false} HeadReads(r: Record, rest: seq<byte>)
    requires BuiltByConstructors(r) && PutPayload(r).Ok?
    requires GetFailures(rest) == Ok(Parsed(r.failures, []))
    ensures GetPayload(HeadBytes(r) + rest) == Ok(Parsed(r, []))
  {
    PayloadParts(r);
    RecordReads(r);
    FourRead(PutSession, PutOperations, PutTransitions, GetSession, GetOperations, GetTransitions, GetFailures,
             r.session, r.operations, r.transitions, r.failures, rest);
  }

  lemma {:induction false} OtherPayload(
    put: Record -> Bits, get: seq<byte> -> Result<Parsed<Record>>, r: Record, other: seq<byte>)
    requires EncodeWith(put, r).Ok? && get(other) == Ok(Parsed(r, []))
    requires |other| == |put(r).value| && other != put(r).value
    ensures DecodeWith(get, Frame(other)) == Ok(r) && EncodeWith(put, r) != Ok(Frame(other))
    ensures |Frame(other)| == |EncodeWith(put, r).value|
  {
    UnframeFrame(other);
    if Frame(other) == Frame(put(r).value) {
      PlainCodec.FrameInjective(other, put(r).value);
    }
  }

  lemma {:induction false} OtherPresence(head: seq<byte>, f: Failure)
    requires f.id.Some? && TextStorable(f.message)
    ensures |PayloadBytes(head, f, 2)| == |PayloadBytes(head, f, 1)|
    ensures PayloadBytes(head, f, 2) != PayloadBytes(head, f, 1)
  {
    var at := |head| + 7;
    assert PayloadBytes(head, f, 1)[at] == 1 && PayloadBytes(head, f, 2)[at] == 2;
  }

  /** For a stored record whose only failure names an operation there is a second file that is accepted as the
      record but would not be written: its last presence byte is 2. */
  lemma {:induction false} SecondFile(r: Record, f: Failure) returns (b: seq<byte>)
    requires BuiltByConstructors(r) && Encode(r).Ok? && r.failures == [f] && f.id.Some?
    ensures Decode(b) == Ok(r) && Encode(r) != Ok(b) && |b| == |Encode(r).value|
  {
    EncodesExactly(r);
    assert TextStorable(r.failures[0].message);
    PayloadParts(r);
    FailureListWritten(f);
    FailureListReads(f, 2);
    HeadReads(r, PutU32(1) + FailureBytes(f, 2));
    OtherPresence(HeadBytes(r), f);
    b := Frame(PayloadBytes(HeadBytes(r), f, 2));
    OtherPayload(PutPayload, GetPayload, r, PayloadBytes(HeadBytes(r), f, 2));
  }

  // ----- a record to show it on

  function SampleMutation(): PlannedMutation {
    var kind := CpuBoost(BoostEnabled);
    NewMutation(1, [0x61], [0x61], kind, Desired(kind), seq(32, _ => 0), ByteExact, []).value
  }

  function SampleFailure(): Failure { Failure(ApplyError, ApplyStage, Some(1), [0x61]) }

  function SampleHeader(): Header { Header(seq(16, _ => 0), seq(16, _ => 0), seq(32, _ => 0), 0, [[0x61]]) }

  /** A planned record with one operation and one failure. */
  function SampleRecord(): Record {
    Record(Session(SampleHeader(), New), [History.PlannedOperation(SampleMutation())], [], [SampleFailure()])
  }

  lemma {:induction false} SampleValid()
    ensures ValidRecord(SampleRecord()) && BuiltByConstructors(SampleRecord())
  {
    assert ValidOperation(History.PlannedOperation(SampleMutation()));
    assert ChainState([]) == New;
  }

  lemma {:induction false} SampleStorable()
    ensures RecordStorable(SampleRecord())
  {
    assert OperationStorable(History.PlannedOperation(SampleMutation()));
    assert TextStorable(SampleFailure().message);
  }

  lemma {:induction false} SampleSessionFits()
    ensures CellsSize(SessionCells(SampleRecord().session)) <= 600
  {
    TotalAtMost((n: Identifier) => TextSize(n), SampleHeader().targets, 5);
    TotalAtMost(CellSize, SessionCells(SampleRecord().session), 100);
  }

  lemma {:induction false} SampleOperationFits()
    ensures OperationSize(History.PlannedOperation(SampleMutation())) <= 1_000
  {
    var m := SampleMutation();
    TotalAtMost(FieldSize, KindFields(m.kind), 1);
    TotalAtMost(FieldSize, ValueFields(m.desired), 1);
    TotalAtMost(CellSize, MutationCells(m), 100);
  }

  lemma {:induction false} SampleFailureFits()
    ensures FailureSize(SampleFailure()) <= 400
  {
    TotalAtMost(CellSize, FailureCells(SampleFailure()), 100);
  }

  lemma {:induction false} SampleFits()
    ensures FileFits(SampleRecord())
  {
    var r := SampleRecord();
    SampleSessionFits();
    SampleOperationFits();
    OneTotal(OperationSize, r.operations);
    SampleFailureFits();
    OneTotal(FailureSize, r.failures);
  }

  lemma {:induction false} OneTotal<T>(size: T -> nat, xs: seq<T>)
    requires |xs| == 1
    ensures Total(size, xs) == size(xs[0])
  {
  }

  lemma {:induction false} SampleEncodes()
    ensures BuiltByConstructors(SampleRecord()) && Encode(SampleRecord()).Ok?
  {
    SampleValid();
    SampleStorable();
    SampleFits();
    EncodesExactly(SampleRecord());
  }

  /** An accepted file that is not written again as it is. */
  lemma {:induction false} NotCanonical() returns (b: seq<byte>)
    ensures Decode(b) == Ok(SampleRecord())
    ensures Encode(Decode(b).value).Ok? && Encode(Decode(b).value) != Ok(b)
    ensures !PlainCodec.PlainPayload(Unframe(b).value)
  {
    SampleEncodes();
    b := SecondFile(SampleRecord(), SampleFailure());
    PlainCodec.ReencodesExactly(b);
  }
}
