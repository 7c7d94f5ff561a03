/**
  Reading and writing whole records through the encoder and the decoder
  (crates/sysboost-core/src/transaction.rs, 474-568 and 985-1045).
 */
module RecordIO {
  import opened Outcome
  import opened Bytes
  import opened Mutation
  import opened Session
  import opened Wire
  import opened TupleWire
  import opened RecordWire
  import opened StructureWire
  import opened CodecWire
  import opened EncoderIO
  import opened DecoderIO
  import Checksum

  method EncodeSnapshot(e: Encoder, x: Option<Snapshot>) returns (r: Result<Unit>)
    modifies e
    ensures Appends(old(e.bytes), e.bytes, PutMaybeSnapshot(x), r)
  {
    e.Optional(x.Some?);
    r := Ok(Unit);
    if x.Some? {
      ghost var start := e.bytes;
      r := e.Cells(SnapshotCells(x.value));
      PresentAppends(old(e.bytes), start, e.bytes, PutSnapshot(x.value), r);
    }
  }

  /** A presence byte followed by the structure is an encoded option. */
  lemma {:induction false} PresentAppends(before: seq<byte>, start: seq<byte>, after: seq<byte>, bits: Bits, r: Result<Unit>)
    requires start == before + PutBool(true) && Appends(start, after, bits, r)
    ensures bits.Ok? ==> after == before + (PutBool(true) + bits.value)
  {
    if bits.Ok? {
      assert before + PutBool(true) + bits.value == before + (PutBool(true) + bits.value);
    }
  }

  method EncodeApply(e: Encoder, x: Option<ApplyReceipt>) returns (r: Result<Unit>)
    modifies e
    ensures Appends(old(e.bytes), e.bytes, PutMaybeApply(x), r)
  {
    e.Optional(x.Some?);
    r := Ok(Unit);
    if x.Some? {
      ghost var start := e.bytes;
      r := e.Cells(ApplyCells(x.value));
      PresentAppends(old(e.bytes), start, e.bytes, PutApply(x.value), r);
    }
  }

  method EncodeVerification(e: Encoder, x: Option<Verification>) returns (r: Result<Unit>)
    modifies e
    ensures Appends(old(e.bytes), e.bytes, PutMaybeVerification(x), r)
  {
    e.Optional(x.Some?);
    r := Ok(Unit);
    if x.Some? {
      ghost var start := e.bytes;
      r := e.Cells(VerificationCells(x.value));
      PresentAppends(old(e.bytes), start, e.bytes, PutVerification(x.value), r);
    }
  }

  method EncodeRestore(e: Encoder, x: Option<RestoreReceipt>) returns (r: Result<Unit>)
    modifies e
    ensures Appends(old(e.bytes), e.bytes, PutMaybeRestore(x), r)
  {
    e.Optional(x.Some?);
    r := Ok(Unit);
    if x.Some? {
      ghost var start := e.bytes;
      r := e.Cells(RestoreCells(x.value));
      PresentAppends(old(e.bytes), start, e.bytes, PutRestore(x.value), r);
    }
  }

  method EncodeFailure(e: Encoder, x: Option<Failure>) returns (r: Result<Unit>)
    modifies e
    ensures Appends(old(e.bytes), e.bytes, PutMaybeFailure(x), r)
  {
    e.Optional(x.Some?);
    r := Ok(Unit);
    if x.Some? {
      ghost var start := e.bytes;
      r := e.Cells(FailureCells(x.value));
      PresentAppends(old(e.bytes), start, e.bytes, PutFailure(x.value), r);
    }
  }

  /** Writing the first of two joined encodings leaves the second to be written. */
  lemma {:induction false} JoinStep(
    before: seq<byte>, written: seq<byte>, after: seq<byte>, first: Bits, todo: Bits, whole: Bits, r: Result<Unit>)
    requires EncoderIO.OnTrack(before, written, Join(first, todo), whole)
    requires Appends(written, after, first, r)
    ensures r.Ok? ==> EncoderIO.OnTrack(before, after, todo, whole)
    ensures r.Err? ==> whole == Err(r.code)
  {
    if first.Ok? && todo.Ok? {
      assert written + (first.value + todo.value) == written + first.value + todo.value;
    }
  }

  method EncodeReceipts(e: Encoder, op: Operation) returns (r: Result<Unit>)
    modifies e
    ensures Appends(old(e.bytes), e.bytes, PutReceipts(ReceiptsOf(op)), r)
  {
    ghost var start, b := e.bytes, e.bytes;
    ghost var fa := PutMaybeFailure(op.failure);
    ghost var re := Join(PutMaybeRestore(op.restore), fa);
    ghost var ve := Join(PutMaybeVerification(op.verification), re);
    ghost var ap := Join(PutMaybeApply(op.apply), ve);
    ghost var whole := Join(PutMaybeSnapshot(op.snapshot), ap);
    assert whole == PutReceipts(ReceiptsOf(op));
    r := EncodeSnapshot(e, op.snapshot);
    JoinStep(start, b, e.bytes, PutMaybeSnapshot(op.snapshot), ap, whole, r);
    if r.Err? { return; }
    b := e.bytes;
    r := EncodeApply(e, op.apply);
    JoinStep(start, b, e.bytes, PutMaybeApply(op.apply), ve, whole, r);
    if r.Err? { return; }
    b := e.bytes;
    r := EncodeVerification(e, op.verification);
    JoinStep(start, b, e.bytes, PutMaybeVerification(op.verification), re, whole, r);
    if r.Err? { return; }
    b := e.bytes;
    r := EncodeRestore(e, op.restore);
    JoinStep(start, b, e.bytes, PutMaybeRestore(op.restore), fa, whole, r);
    if r.Err? { return; }
    r := EncodeFailure(e, op.failure);
  }

  method DecodeSnapshot(d: Decoder) returns (r: Result<Option<Snapshot>>)
    requires d.Valid()
    modifies d
    ensures d.Valid() && d.Follows(r, GetMaybeSnapshot(old(d.Rest())))
  {
    var present :- d.Bool();
    if !present {
      return Ok(None);
    }
    var cells :- d.Cells(SNAPSHOT);
    var x :- BuildSnapshot(cells);
    r := Ok(Some(x));
  }

  method DecodeApply(d: Decoder) returns (r: Result<Option<ApplyReceipt>>)
    requires d.Valid()
    modifies d
    ensures d.Valid() && d.Follows(r, GetMaybeApply(old(d.Rest())))
  {
    var present :- d.Bool();
    if !present {
      return Ok(None);
    }
    var cells :- d.Cells(APPLY);
    var x :- BuildApply(cells);
    r := Ok(Some(x));
  }

  method DecodeVerification(d: Decoder) returns (r: Result<Option<Verification>>)
    requires d.Valid()
    modifies d
    ensures d.Valid() && d.Follows(r, GetMaybeVerification(old(d.Rest())))
  {
    var present :- d.Bool();
    if !present {
      return Ok(None);
    }
    var cells :- d.Cells(VERIFICATION);
    var x :- BuildVerification(cells);
    r := Ok(Some(x));
  }

  method DecodeRestore(d: Decoder) returns (r: Result<Option<RestoreReceipt>>)
    requires d.Valid()
    modifies d
    ensures d.Valid() && d.Follows(r, GetMaybeRestore(old(d.Rest())))
  {
    var present :- d.Bool();
    if !present {
      return Ok(None);
    }
    var cells :- d.Cells(RESTORE);
    var x :- BuildRestore(cells);
    r := Ok(Some(x));
  }

  method DecodeFailure(d: Decoder) returns (r: Result<Option<Failure>>)
    requires d.Valid()
    modifies d
    ensures d.Valid() && d.Follows(r, GetMaybeFailure(old(d.Rest())))
  {
    var present :- d.Bool();
    if !present {
      return Ok(None);
    }
    var cells :- d.Cells(FAILURE);
    var x :- BuildFailure(cells);
    r := Ok(Some(x));
  }

  method DecodeReceipts(d: Decoder) returns (r: Result<Receipts>)
    requires d.Valid()
    modifies d
    ensures d.Valid() && d.Follows(r, GetReceipts(old(d.Rest())))
  {
    var snapshot :- DecodeSnapshot(d);
    var apply :- DecodeApply(d);
    var verification :- DecodeVerification(d);
    var restore :- DecodeRestore(d);
    var failure :- DecodeFailure(d);
    r := Ok((snapshot, apply, verification, restore, failure));
  }

  method EncodeOperation(e: Encoder, op: Operation) returns (r: Result<Unit>)
    modifies e
    ensures Appends(old(e.bytes), e.bytes, PutOperation(op), r)
  {
    ghost var start, b := e.bytes, e.bytes;
    ghost var receipts := PutReceipts(ReceiptsOf(op));
    ghost var tail := Join(PutOperationState(op.state), receipts);
    ghost var whole := Join(PutMutation(op.mutation), tail);
    assert whole == PutOperation(op);
    r := e.Cells(MutationCells(op.mutation));
    JoinStep(start, b, e.bytes, PutMutation(op.mutation), tail, whole, r);
    if r.Err? { return; }
    b := e.bytes;
    e.U8(OperationStateTag(op.state));
    JoinStep(start, b, e.bytes, PutOperationState(op.state), receipts, whole, Ok(Unit));
    r := EncodeReceipts(e, op);
  }

  method DecodeOperation(d: Decoder) returns (r: Result<Operation>)
    requires d.Valid()
    modifies d
    ensures d.Valid() && d.Follows(r, GetOperation(old(d.Rest())))
  {
    var cells :- d.Cells(MUTATION);
    var mutation :- BuildMutation(cells);
    var tag :- d.U8();
    var state :- OperationStateOf(tag);
    var p :- DecodeReceipts(d);
    r := Ok(Operation(mutation, state, p.0, p.1, p.2, p.3, p.4));
  }

  // ----- the lists of a record

  /** A list is written when its count is and nothing of its elements is left to write. */
  lemma {:induction false} ListWritten<T>(
    before: seq<byte>, start: seq<byte>, after: seq<byte>, xs: seq<T>, put: T -> Bits, max: nat)
    requires |xs| <= max && |xs| <= 0xFFFF_FFFF && start == before + PutU32(|xs|)
    requires EncoderIO.OnTrack(start, after, PutAll(put, xs[|xs|..]), PutAll(put, xs))
    ensures Appends(before, after, PutList(put, xs, max), Ok(Unit))
  {
    assert xs[|xs|..] == [];
    CountedBody(before, PutU32(|xs|), after, PutAll(put, xs));
  }

  lemma {:induction false} CountedBody(before: seq<byte>, count: seq<byte>, after: seq<byte>, bits: Bits)
    requires EncoderIO.OnTrack(before + count, after, Ok([]), bits)
    ensures bits.Ok? && after == before + (count + bits.value)
  {
    assert after + [] == after;
    assert bits.Ok? ==> before + count + bits.value == before + (count + bits.value);
  }

  method EncodeOperations(e: Encoder, xs: seq<Operation>) returns (r: Result<Unit>)
    modifies e
    ensures Appends(old(e.bytes), e.bytes, PutOperations(xs), r)
  {
    r := e.Count(|xs|, MAX_OPERATIONS);
    if r.Err? {
      return;
    }
    ghost var start, bits := e.bytes, PutAll(PutOperation, xs);
    assert xs[0..] == xs;
    for i := 0 to |xs|
      invariant r == Ok(Unit)
      invariant EncoderIO.OnTrack(start, e.bytes, PutAll(PutOperation, xs[i..]), bits)
    {
      ghost var written := e.bytes;
      r := EncodeOperation(e, xs[i]);
      EncoderIO.OnTrackStep(PutOperation, xs, i, start, written, e.bytes, bits, r);
      if r.Err? {
        return;
      }
    }
    ListWritten(old(e.bytes), start, e.bytes, xs, PutOperation, MAX_OPERATIONS);
  }

  method EncodeTransitions(e: Encoder, xs: seq<TransitionRecord>) returns (r: Result<Unit>)
    modifies e
    ensures Appends(old(e.bytes), e.bytes, PutTransitions(xs), r)
  {
    r := e.Count(|xs|, MAX_TRANSITIONS);
    if r.Err? {
      return;
    }
    ghost var start, bits := e.bytes, PutAll(PutTransition, xs);
    assert xs[0..] == xs;
    for i := 0 to |xs|
      invariant r == Ok(Unit)
      invariant EncoderIO.OnTrack(start, e.bytes, PutAll(PutTransition, xs[i..]), bits)
    {
      ghost var written := e.bytes;
      r := e.Cells(TransitionCells(xs[i]));
      EncoderIO.OnTrackStep(PutTransition, xs, i, start, written, e.bytes, bits, r);
      if r.Err? {
        return;
      }
    }
    ListWritten(old(e.bytes), start, e.bytes, xs, PutTransition, MAX_TRANSITIONS);
  }

  method EncodeFailures(e: Encoder, xs: seq<Failure>) returns (r: Result<Unit>)
    modifies e
    ensures Appends(old(e.bytes), e.bytes, PutFailures(xs), r)
  {
    r := e.Count(|xs|, MAX_FAILURES);
    if r.Err? {
      return;
    }
    ghost var start, bits := e.bytes, PutAll(PutFailure, xs);
    assert xs[0..] == xs;
    for i := 0 to |xs|
      invariant r == Ok(Unit)
      invariant EncoderIO.OnTrack(start, e.bytes, PutAll(PutFailure, xs[i..]), bits)
    {
      ghost var written := e.bytes;
      r := e.Cells(FailureCells(xs[i]));
      EncoderIO.OnTrackStep(PutFailure, xs, i, start, written, e.bytes, bits, r);
      if r.Err? {
        return;
      }
    }
    ListWritten(old(e.bytes), start, e.bytes, xs, PutFailure, MAX_FAILURES);
  }

  method DecodeOperations(d: Decoder) returns (r: Result<seq<Operation>>)
    requires d.Valid()
    modifies d
    ensures d.Valid() && d.Follows(r, GetOperations(old(d.Rest())))
  {
    var count :- d.U32();
    if count > MAX_OPERATIONS {
      return Err(JournalCorrupt);
    }
    r := DecodeOperationsCounted(d, count, (n: nat, s) => GetAll(GetOperation, n, s));
  }

  /** Reads one more element of a list of which `left` are still to come. */
  method NextOperation(
    d: Decoder, items: seq<Operation>, ghost left: nat, ghost todo: (nat, seq<byte>) -> Result<Parsed<seq<Operation>>>,
    ghost whole: Result<Parsed<seq<Operation>>>)
    returns (r: Result<seq<Operation>>)
    requires d.Valid() && left > 0 && Tracks(todo, GetOperation)
    requires DecoderIO.OnTrack(items, todo(left, d.Rest()), whole)
    modifies d
    ensures d.Valid()
    ensures r.Ok? ==> DecoderIO.OnTrack(r.value, todo(left - 1, d.Rest()), whole)
    ensures r.Err? ==> whole == Err(r.code)
  {
    assert todo(left, d.Rest()) == GetAll(GetOperation, left, d.Rest());
    DecoderIO.OnTrackStep(GetOperation, items, left, d.Rest(), whole);
    var item :- DecodeOperation(d);
    assert todo(left - 1, d.Rest()) == GetAll(GetOperation, left - 1, d.Rest());
    r := Ok(items + [item]);
  }

  method DecodeOperationsCounted(d: Decoder, count: nat, ghost todo: (nat, seq<byte>) -> Result<Parsed<seq<Operation>>>)
    returns (r: Result<seq<Operation>>)
    requires d.Valid() && Tracks(todo, GetOperation)
    modifies d
    ensures d.Valid() && d.Follows(r, todo(count, old(d.Rest())))
  {
    var items: seq<Operation> := [];
    ghost var whole := todo(count, d.Rest());
    for i := 0 to count
      invariant d.Valid()
      invariant DecoderIO.OnTrack(items, todo(count - i, d.Rest()), whole)
    {
      items :- NextOperation(d, items, count - i, todo, whole);
    }
    NothingLeft(todo, GetOperation, d.Rest());
    assert items + [] == items;
    r := Ok(items);
  }

  method DecodeTransition(d: Decoder) returns (r: Result<TransitionRecord>)
    requires d.Valid()
    modifies d
    ensures d.Valid() && d.Follows(r, GetTransition(old(d.Rest())))
  {
    var cells :- d.Cells(TRANSITION);
    r := BuildTransition(cells);
  }

  method DecodeFailureRecord(d: Decoder) returns (r: Result<Failure>)
    requires d.Valid()
    modifies d
    ensures d.Valid() && d.Follows(r, GetFailure(old(d.Rest())))
  {
    var cells :- d.Cells(FAILURE);
    r := BuildFailure(cells);
  }

  method DecodeTransitions(d: Decoder) returns (r: Result<seq<TransitionRecord>>)
    requires d.Valid()
    modifies d
    ensures d.Valid() && d.Follows(r, GetTransitions(old(d.Rest())))
  {
    var count :- d.U32();
    if count > MAX_TRANSITIONS {
      return Err(JournalCorrupt);
    }
    r := DecodeTransitionsCounted(d, count, (n: nat, s) => GetAll(GetTransition, n, s));
  }

  /** Reads one more element of a list of which `left` are still to come. */
  method NextTransitionRecord(
    d: Decoder, items: seq<TransitionRecord>, ghost left: nat, ghost todo: (nat, seq<byte>) -> Result<Parsed<seq<TransitionRecord>>>,
    ghost whole: Result<Parsed<seq<TransitionRecord>>>)
    returns (r: Result<seq<TransitionRecord>>)
    requires d.Valid() && left > 0 && Tracks(todo, GetTransition)
    requires DecoderIO.OnTrack(items, todo(left, d.Rest()), whole)
    modifies d
    ensures d.Valid()
    ensures r.Ok? ==> DecoderIO.OnTrack(r.value, todo(left - 1, d.Rest()), whole)
    ensures r.Err? ==> whole == Err(r.code)
  {
    assert todo(left, d.Rest()) == GetAll(GetTransition, left, d.Rest());
    DecoderIO.OnTrackStep(GetTransition, items, left, d.Rest(), whole);
    var item :- DecodeTransition(d);
    assert todo(left - 1, d.Rest()) == GetAll(GetTransition, left - 1, d.Rest());
    r := Ok(items + [item]);
  }

  method DecodeTransitionsCounted(d: Decoder, count: nat, ghost todo: (nat, seq<byte>) -> Result<Parsed<seq<TransitionRecord>>>)
    returns (r: Result<seq<TransitionRecord>>)
    requires d.Valid() && Tracks(todo, GetTransition)
    modifies d
    ensures d.Valid() && d.Follows(r, todo(count, old(d.Rest())))
  {
    var items: seq<TransitionRecord> := [];
    ghost var whole := todo(count, d.Rest());
    for i := 0 to count
      invariant d.Valid()
      invariant DecoderIO.OnTrack(items, todo(count - i, d.Rest()), whole)
    {
      items :- NextTransitionRecord(d, items, count - i, todo, whole);
    }
    NothingLeft(todo, GetTransition, d.Rest());
    assert items + [] == items;
    r := Ok(items);
  }

  method DecodeFailures(d: Decoder) returns (r: Result<seq<Failure>>)
    requires d.Valid()
    modifies d
    ensures d.Valid() && d.Follows(r, GetFailures(old(d.Rest())))
  {
    var count :- d.U32();
    if count > MAX_FAILURES {
      return Err(JournalCorrupt);
    }
    r := DecodeFailuresCounted(d, count, (n: nat, s) => GetAll(GetFailure, n, s));
  }

  /** Reads one more element of a list of which `left` are still to come. */
  method NextFailure(
    d: Decoder, items: seq<Failure>, ghost left: nat, ghost todo: (nat, seq<byte>) -> Result<Parsed<seq<Failure>>>,
    ghost whole: Result<Parsed<seq<Failure>>>)
    returns (r: Result<seq<Failure>>)
    requires d.Valid() && left > 0 && Tracks(todo, GetFailure)
    requires DecoderIO.OnTrack(items, todo(left, d.Rest()), whole)
    modifies d
    ensures d.Valid()
    ensures r.Ok? ==> DecoderIO.OnTrack(r.value, todo(left - 1, d.Rest()), whole)
    ensures r.Err? ==> whole == Err(r.code)
  {
    assert todo(left, d.Rest()) == GetAll(GetFailure, left, d.Rest());
    DecoderIO.OnTrackStep(GetFailure, items, left, d.Rest(), whole);
    var item :- DecodeFailureRecord(d);
    assert todo(left - 1, d.Rest()) == GetAll(GetFailure, left - 1, d.Rest());
    r := Ok(items + [item]);
  }

  method DecodeFailuresCounted(d: Decoder, count: nat, ghost todo: (nat, seq<byte>) -> Result<Parsed<seq<Failure>>>)
    returns (r: Result<seq<Failure>>)
    requires d.Valid() && Tracks(todo, GetFailure)
    modifies d
    ensures d.Valid() && d.Follows(r, todo(count, old(d.Rest())))
  {
    var items: seq<Failure> := [];
    ghost var whole := todo(count, d.Rest());
    for i := 0 to count
      invariant d.Valid()
      invariant DecoderIO.OnTrack(items, todo(count - i, d.Rest()), whole)
    {
      items :- NextFailure(d, items, count - i, todo, whole);
    }
    NothingLeft(todo, GetFailure, d.Rest());
    assert items + [] == items;
    r := Ok(items);
  }

  // ----- the payload

  method EncodePayload(e: Encoder, x: Record) returns (r: Result<Unit>)
    modifies e
    ensures Appends(old(e.bytes), e.bytes, PutPayload(x), r)
  {
    ghost var start, b := e.bytes, e.bytes;
    ghost var fs := PutFailures(x.failures);
    ghost var ts := Join(PutTransitions(x.transitions), fs);
    ghost var os := Join(PutOperations(x.operations), ts);
    ghost var whole := Join(PutSession(x.session), os);
    assert whole == PutPayload(x);
    r := e.Cells(SessionCells(x.session));
    JoinStep(start, b, e.bytes, PutSession(x.session), os, whole, r);
    if r.Err? { return; }
    b := e.bytes;
    r := EncodeOperations(e, x.operations);
    JoinStep(start, b, e.bytes, PutOperations(x.operations), ts, whole, r);
    if r.Err? { return; }
    b := e.bytes;
    r := EncodeTransitions(e, x.transitions);
    JoinStep(start, b, e.bytes, PutTransitions(x.transitions), fs, whole, r);
    if r.Err? { return; }
    r := EncodeFailures(e, x.failures);
  }

  method DecodePayload(d: Decoder) returns (r: Result<Record>)
    requires d.Valid()
    modifies d
    ensures d.Valid() && d.Follows(r, GetPayload(old(d.Rest())))
  {
    var cells :- d.Cells(SESSION);
    var session :- BuildSession(cells);
    var operations :- DecodeOperations(d);
    var transitions :- DecodeTransitions(d);
    var failures :- DecodeFailures(d);
    r := Ok(Record(session, operations, transitions, failures));
  }
}
