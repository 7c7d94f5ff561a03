/**
  Operations, whole records and the checksummed file frame
  (crates/sysboost-core/src/transaction.rs, 474-568 and 985-1045), with the round-trip and
  canonical-form theorems.
 */
module CodecWire {
  import opened Outcome
  import opened Bytes
  import opened Mutation
  import opened Session
  import opened Wire
  import opened TupleWire
  import opened RecordWire
  import opened StructureWire
  import Checksum

  // ----- operations

  function PutMaybeSnapshot(x: Option<Snapshot>): Bits { PutOption(PutSnapshot, x) }
  function GetMaybeSnapshot(s: seq<byte>): Result<Parsed<Option<Snapshot>>> { GetOption(GetSnapshot, s) }
  function PutMaybeApply(x: Option<ApplyReceipt>): Bits { PutOption(PutApply, x) }
  function GetMaybeApply(s: seq<byte>): Result<Parsed<Option<ApplyReceipt>>> { GetOption(GetApply, s) }
  function PutMaybeVerification(x: Option<Verification>): Bits { PutOption(PutVerification, x) }
  function GetMaybeVerification(s: seq<byte>): Result<Parsed<Option<Verification>>> { GetOption(GetVerification, s) }
  function PutMaybeRestore(x: Option<RestoreReceipt>): Bits { PutOption(PutRestore, x) }
  function GetMaybeRestore(s: seq<byte>): Result<Parsed<Option<RestoreReceipt>>> { GetOption(GetRestore, s) }
  function PutMaybeFailure(x: Option<Failure>): Bits { PutOption(PutFailure, x) }
  function GetMaybeFailure(s: seq<byte>): Result<Parsed<Option<Failure>>> { GetOption(GetFailure, s) }

  type Receipts = (Option<Snapshot>, Option<ApplyReceipt>, Option<Verification>, Option<RestoreReceipt>, Option<Failure>)

  function PutReceipts(x: Receipts): Bits {
    PutFive(PutMaybeSnapshot, PutMaybeApply, PutMaybeVerification, PutMaybeRestore, PutMaybeFailure, x)
  }

  function GetReceipts(s: seq<byte>): Result<Parsed<Receipts>> {
    GetFive(GetMaybeSnapshot, GetMaybeApply, GetMaybeVerification, GetMaybeRestore, GetMaybeFailure, s)
  }

  function PutOperationState(x: OperationState): Bits { Ok(PutU8(OperationStateTag(x))) }

  function GetOperationState(s: seq<byte>): Result<Parsed<OperationState>> {
    var tag :- GetU8(s);
    var state :- OperationStateOf(tag.value);
    Ok(Parsed(state, tag.rest))
  }

  function ReceiptsOf(op: Operation): Receipts {
    (op.snapshot, op.apply, op.verification, op.restore, op.failure)
  }

  type OperationParts = (PlannedMutation, OperationState, Receipts)

  function PutParts(x: OperationParts): Bits { PutThree(PutMutation, PutOperationState, PutReceipts, x) }
  function GetParts(s: seq<byte>): Result<Parsed<OperationParts>> {
    GetThree(GetMutation, GetOperationState, GetReceipts, s)
  }

  function PartsOf(op: Operation): OperationParts { (op.mutation, op.state, ReceiptsOf(op)) }

  function OperationFrom(x: OperationParts): Operation {
    Operation(x.0, x.1, x.2.0, x.2.1, x.2.2, x.2.3, x.2.4)
  }

  function PutOperation(op: Operation): Bits { PutParts(PartsOf(op)) }

  function GetOperation(s: seq<byte>): Result<Parsed<Operation>> { Wrapped(GetParts(s), OperationFrom) }

  predicate MaybeSnapshotBuilt(x: Option<Snapshot>) { x.Some? ==> SnapshotBuilt(x.value) }
  predicate ReceiptsBuilt(x: Receipts) { MaybeSnapshotBuilt(x.0) }

  lemma {:induction false} OperationStateCodec()
    ensures Codec(PutOperationState, GetOperationState, Any)
  {
    forall x: OperationState
      ensures Reads(PutOperationState, GetOperationState, x)
    {
      U8Reads(OperationStateTag(x));
      TagsDecode(New, x, ByteExact, PlanStage, Unsupported);
    }
  }

  lemma {:induction false} ReceiptsCodec()
    ensures Codec(PutReceipts, GetReceipts, ReceiptsBuilt)
  {
    SnapshotCodec();
    ApplyCodec();
    VerificationCodec();
    RestoreCodec();
    FailureCodec();
    OptionCodec(PutSnapshot, GetSnapshot, SnapshotBuilt, PutMaybeSnapshot, GetMaybeSnapshot, MaybeSnapshotBuilt);
    OptionCodec(PutApply, GetApply, Any, PutMaybeApply, GetMaybeApply, Any);
    OptionCodec(PutVerification, GetVerification, Any, PutMaybeVerification, GetMaybeVerification, Any);
    OptionCodec(PutRestore, GetRestore, Any, PutMaybeRestore, GetMaybeRestore, Any);
    OptionCodec(PutFailure, GetFailure, Any, PutMaybeFailure, GetMaybeFailure, Any);
    FiveCodec(PutMaybeSnapshot, PutMaybeApply, PutMaybeVerification, PutMaybeRestore, PutMaybeFailure,
              GetMaybeSnapshot, GetMaybeApply, GetMaybeVerification, GetMaybeRestore, GetMaybeFailure,
              MaybeSnapshotBuilt, Any, Any, Any, Any,
              PutReceipts, GetReceipts, ReceiptsBuilt);
  }

  predicate PartsBuilt(x: OperationParts) { MutationBuilt(x.0) && ReceiptsBuilt(x.2) }

  lemma {:induction false} PartsCodec()
    ensures Codec(PutParts, GetParts, PartsBuilt)
  {
    MutationCodec();
    OperationStateCodec();
    ReceiptsCodec();
    ThreeCodec(PutMutation, PutOperationState, PutReceipts, GetMutation, GetOperationState, GetReceipts,
               MutationBuilt, Any, ReceiptsBuilt, PutParts, GetParts, PartsBuilt);
  }

  lemma {:induction false} OperationCodec()
    ensures Codec(PutOperation, GetOperation, OperationBuilt)
  {
    PartsCodec();
    IsoCodec(PutParts, GetParts, PartsBuilt, PartsOf, OperationFrom, PutOperation, GetOperation, OperationBuilt);
  }

  // ----- records

  function PutOperations(xs: seq<Operation>): Bits { PutList(PutOperation, xs, MAX_OPERATIONS) }
  function GetOperations(s: seq<byte>): Result<Parsed<seq<Operation>>> { GetList(GetOperation, MAX_OPERATIONS, s) }
  function PutTransitions(xs: seq<TransitionRecord>): Bits { PutList(PutTransition, xs, MAX_TRANSITIONS) }
  function GetTransitions(s: seq<byte>): Result<Parsed<seq<TransitionRecord>>> {
    GetList(GetTransition, MAX_TRANSITIONS, s)
  }
  function PutFailures(xs: seq<Failure>): Bits { PutList(PutFailure, xs, MAX_FAILURES) }
  function GetFailures(s: seq<byte>): Result<Parsed<seq<Failure>>> { GetList(GetFailure, MAX_FAILURES, s) }

  type RecordParts = (Session, seq<Operation>, seq<TransitionRecord>, seq<Failure>)

  function PutRecordParts(x: RecordParts): Bits {
    PutFour(PutSession, PutOperations, PutTransitions, PutFailures, x)
  }

  function GetRecordParts(s: seq<byte>): Result<Parsed<RecordParts>> {
    GetFour(GetSession, GetOperations, GetTransitions, GetFailures, s)
  }

  function RecordPartsOf(r: Record): RecordParts { (r.session, r.operations, r.transitions, r.failures) }

  function RecordFrom(x: RecordParts): Record { Record(x.0, x.1, x.2, x.3) }

  function PutPayload(r: Record): Bits { PutRecordParts(RecordPartsOf(r)) }

  function GetPayload(s: seq<byte>): Result<Parsed<Record>> { Wrapped(GetRecordParts(s), RecordFrom) }

  predicate AllBuilt(ops: seq<Operation>) { forall op :: op in ops ==> OperationBuilt(op) }
  predicate RecordPartsBuilt(x: RecordParts) { AllBuilt(x.1) }

  lemma {:induction false} ListsCodec()
    ensures Codec(PutOperations, GetOperations, AllBuilt)
    ensures Codec(PutTransitions, GetTransitions, Any)
    ensures Codec(PutFailures, GetFailures, Any)
  {
    OperationCodec();
    TransitionCodec();
    FailureCodec();
    ListCodec(PutOperation, GetOperation, OperationBuilt, MAX_OPERATIONS, PutOperations, GetOperations, AllBuilt);
    ListCodec(PutTransition, GetTransition, Any, MAX_TRANSITIONS, PutTransitions, GetTransitions, Any);
    ListCodec(PutFailure, GetFailure, Any, MAX_FAILURES, PutFailures, GetFailures, Any);
  }

  lemma {:induction false} RecordPartsCodec()
    ensures Codec(PutRecordParts, GetRecordParts, RecordPartsBuilt)
  {
    SessionCodec();
    ListsCodec();
    FourCodec(PutSession, PutOperations, PutTransitions, PutFailures,
              GetSession, GetOperations, GetTransitions, GetFailures,
              Any, AllBuilt, Any, Any, PutRecordParts, GetRecordParts, RecordPartsBuilt);
  }

  lemma {:induction false} PayloadCodec()
    ensures Codec(PutPayload, GetPayload, BuiltByConstructors)
  {
    RecordPartsCodec();
    IsoCodec(PutRecordParts, GetRecordParts, RecordPartsBuilt, RecordPartsOf, RecordFrom,
             PutPayload, GetPayload, BuiltByConstructors);
  }

  // ----- the file frame

  /** "SYSBST01" */
  const MAGIC: seq<byte> := [0x53, 0x59, 0x53, 0x42, 0x53, 0x54, 0x30, 0x31]
  const VERSION: nat := 1
  const HEADER_BYTES: nat := 14
  const CHECKSUM_BYTES: nat := 32
  const MAX_SESSION_RECORD_BYTES: nat := 1_048_576

  function Frame(payload: seq<byte>): (f: seq<byte>)
    ensures |f| == HEADER_BYTES + |payload| + CHECKSUM_BYTES
  {
    MAGIC + BigEndian(VERSION, 2) + BigEndian(|payload|, 4) + payload + Checksum.Digest(payload)
  }

  /** `SessionRecord::encode`, for a given payload format. */
  function EncodeWith(put: Record -> Bits, r: Record): (e: Result<seq<byte>>)
    ensures e.Ok? ==> ValidRecord(r) && |e.value| <= MAX_SESSION_RECORD_BYTES
  {
    if !ValidRecord(r) then Err(JournalCorrupt)
    else
      var payload :- put(r);
      if HEADER_BYTES + |payload| + CHECKSUM_BYTES > MAX_SESSION_RECORD_BYTES then Err(DurabilityError)
      else Ok(Frame(payload))
  }

  /** `SessionRecord::encode`. */
  function Encode(r: Record): Result<seq<byte>> { EncodeWith(PutPayload, r) }

  /** The payload of a file whose magic, version, length and checksum are right. */
  function Unframe(b: seq<byte>): (p: Result<seq<byte>>)
    ensures p.Ok? ==> |b| == HEADER_BYTES + |p.value| + CHECKSUM_BYTES
    ensures p.Err? ==> p.code == JournalCorrupt
  {
    if |b| > MAX_SESSION_RECORD_BYTES || |b| < HEADER_BYTES + CHECKSUM_BYTES then Err(JournalCorrupt)
    else if b[..8] != MAGIC then Err(JournalCorrupt)
    else if FromBigEndian(b[8..10]) != VERSION then Err(JournalCorrupt)
    else
      var length := FromBigEndian(b[10..14]);
      if HEADER_BYTES + length + CHECKSUM_BYTES != |b| then Err(JournalCorrupt)
      else
        var payload := b[HEADER_BYTES..HEADER_BYTES + length];
        if Checksum.Digest(payload) != b[HEADER_BYTES + length..] then Err(JournalCorrupt) else Ok(payload)
  }

  /** `SessionRecord::decode`, for a given payload format. */
  function DecodeWith(get: seq<byte> -> Result<Parsed<Record>>, b: seq<byte>): (r: Result<Record>)
    ensures r.Ok? ==> ValidRecord(r.value)
  {
    var payload :- Unframe(b);
    var p :- get(payload);
    if p.rest != [] then Err(JournalCorrupt)
    else if !ValidRecord(p.value) then Err(JournalCorrupt)
    else Ok(p.value)
  }

  /** `SessionRecord::decode`. */
  function Decode(b: seq<byte>): Result<Record> { DecodeWith(GetPayload, b) }

  lemma {:induction false} FrameParts(payload: seq<byte>)
    ensures var f := Frame(payload);
            && f[..8] == MAGIC
            && f[8..10] == BigEndian(VERSION, 2)
            && f[10..14] == BigEndian(|payload|, 4)
            && f[14..14 + |payload|] == payload
            && f[14 + |payload|..] == Checksum.Digest(payload)
  {
  }

  lemma {:induction false} UnframeFrame(payload: seq<byte>)
    requires HEADER_BYTES + |payload| + CHECKSUM_BYTES <= MAX_SESSION_RECORD_BYTES
    ensures Unframe(Frame(payload)) == Ok(payload)
  {
    FrameParts(payload);
    WordSizes();
    FromToBigEndian(VERSION, 2);
    FromToBigEndian(|payload|, 4);
  }

  /** A file with a right frame is the frame of its payload. */
  lemma {:induction false} FrameUnframe(b: seq<byte>)
    requires Unframe(b).Ok?
    ensures Frame(Unframe(b).value) == b
  {
    var length := FromBigEndian(b[10..14]);
    ToFromBigEndian(b[8..10]);
    ToFromBigEndian(b[10..14]);
    assert b == b[..8] + b[8..10] + b[10..14] + b[14..14 + length] + b[14 + length..];
  }

  lemma {:induction false} EncodeFrames(r: Record) returns (payload: seq<byte>)
    requires Encode(r).Ok?
    ensures Encode(r).value == Frame(payload) && |payload| < Pow256(4)
  {
    payload := PutPayload(r).value;
    WordSizes();
  }

  lemma {:induction false} DecodeNeedsFrame(b: seq<byte>)
    ensures Unframe(b).Err? ==> Decode(b) == Err(JournalCorrupt)
  {
  }

  // ----- main theorems

  lemma {:induction false} RoundTripWith(
    put: Record -> Bits, get: seq<byte> -> Result<Parsed<Record>>, good: Record -> bool, r: Record)
    requires Codec(put, get, good) && EncodeWith(put, r).Ok?
    ensures DecodeWith(get, EncodeWith(put, r).value) == Ok(r) <==> good(r)
  {
    var payload := put(r).value;
    UnframeFrame(payload);
    assert payload + [] == payload;
    if good(r) {
      assert Reads(put, get, r);
      assert get(payload + []) == Ok(Parsed(r, []));
    }
  }

  lemma {:induction false} CanonicalWith(
    put: Record -> Bits, get: seq<byte> -> Result<Parsed<Record>>, good: Record -> bool, b: seq<byte>)
    requires Codec(put, get, good) && DecodeWith(get, b).Ok?
    ensures good(DecodeWith(get, b).value)
    ensures EncodeWith(put, DecodeWith(get, b).value).Ok?
    ensures |EncodeWith(put, DecodeWith(get, b).value).value| <= |b|
    ensures DecodeWith(get, EncodeWith(put, DecodeWith(get, b).value).value) == DecodeWith(get, b)
  {
    RoundTripWith(put, get, good, DecodeWith(get, b).value);
  }

  /**
    Whatever encodes decodes to the same record exactly when it was built by the validating
    constructors of the vocabulary.
   */
  lemma {:induction false} RoundTrip(r: Record)
    ensures Encode(r).Ok? ==> (Decode(Encode(r).value) == Ok(r) <==> BuiltByConstructors(r))
  {
    PayloadCodec();
    if Encode(r).Ok? {
      RoundTripWith(PutPayload, GetPayload, BuiltByConstructors, r);
    }
  }

  /**
    Canonical form: what decodes can be encoded again, in no more bytes, and the new file decodes to
    the same record.  `PlainCodec.ReencodesExactly` says when the new file is the old one.
   */
  lemma {:induction false} CanonicalForm(b: seq<byte>)
    ensures Decode(b).Ok? ==> BuiltByConstructors(Decode(b).value)
    ensures Decode(b).Ok? ==>
      var e := Encode(Decode(b).value);
      e.Ok? && |e.value| <= |b| && Decode(e.value) == Decode(b)
  {
    PayloadCodec();
    if Decode(b).Ok? {
      CanonicalWith(PutPayload, GetPayload, BuiltByConstructors, b);
    }
  }

  /** Two constructor-built records never share an encoding. */
  lemma {:induction false} EncodingInjective(r: Record, q: Record)
    requires BuiltByConstructors(r) && BuiltByConstructors(q)
    ensures Encode(r).Ok? && Encode(r) == Encode(q) ==> r == q
  {
    RoundTrip(r);
    RoundTrip(q);
  }
}
