/**
  Which valid records can be written (crates/sysboost-core/src/transaction.rs, 474-509, 817-832, 932-938):
  the bounds and the text rules of the encoder, gathered over the whole record.
 */
module Storable {
  import opened Outcome
  import opened Bytes
  import opened Text
  import opened Mutation
  import opened Session
  import opened Lifecycle
  import opened Wire
  import opened TupleWire
  import opened VocabularyWire
  import opened LayoutWire
  import opened RecordWire
  import opened StructureWire
  import opened CodecWire
  import opened Sizes
  import History

  // ----- what the encoder asks of each part

  predicate TextStorable(t: Utf8) { t != [] && |t| <= MAX_REASON_BYTES && 0 !in t }

  predicate CpusStorable(cpus: CpuSet) { |cpus| <= MAX_DEPENDENCIES }

  predicate KindStorable(kind: MutationKind) {
    match kind
    case CgroupCpuset(_, cpus) => CpusStorable(cpus)
    case IrqAffinity(_, cpus) => CpusStorable(cpus)
    case _ => true
  }

  predicate ValueStorable(value: TypedValue) {
    match value
    case CpusetValue(cpus) => CpusStorable(cpus)
    case IrqValue(cpus) => CpusStorable(cpus)
    case _ => true
  }

  predicate MutationStorable(m: PlannedMutation) {
    KindStorable(m.kind) && ValueStorable(m.desired) && |m.dependencies| <= MAX_DEPENDENCIES
  }

  predicate OperationStorable(op: Operation) {
    && MutationStorable(op.mutation)
    && (op.snapshot.Some? ==> ValueStorable(op.snapshot.value.typed))
    && (op.failure.Some? ==> TextStorable(op.failure.value.message))
  }

  predicate RecordStorable(r: Record) {
    && (forall i :: 0 <= i < |r.operations| ==> OperationStorable(r.operations[i]))
    && (forall i :: 0 <= i < |r.transitions| ==> TextStorable(r.transitions[i].reason))
    && (forall i :: 0 <= i < |r.failures| ==> TextStorable(r.failures[i].message))
  }

  // ----- pieces

  lemma {:induction false} AllPut<T>(put: T -> Bits, xs: seq<T>)
    ensures PutAll(put, xs).Ok? <==> forall i :: 0 <= i < |xs| ==> put(xs[i]).Ok?
    decreases |xs|
  {
    if xs != [] {
      AllPut(put, xs[1..]);
      assert forall i :: 0 < i < |xs| ==> xs[i] == xs[1..][i - 1];
      if forall i :: 0 <= i < |xs| ==> put(xs[i]).Ok? {
        forall i | 0 <= i < |xs[1..]| ensures put(xs[1..][i]).Ok? {
          assert xs[1..][i] == xs[i + 1];
        }
      }
    }
  }

  lemma {:induction false} ListPut<T>(put: T -> Bits, xs: seq<T>, max: nat)
    requires max <= 0xFFFF_FFFF
    ensures PutList(put, xs, max).Ok? <==> |xs| <= max && forall i :: 0 <= i < |xs| ==> put(xs[i]).Ok?
  {
    AllPut(put, xs);
  }

  lemma {:induction false} OptionPut<T>(put: T -> Bits, x: Option<T>)
    ensures PutOption(put, x).Ok? <==> (x.Some? ==> put(x.value).Ok?)
  {
  }

  lemma {:induction false} NamePut(n: Identifier)
    ensures PutName(n).Ok?
  {
  }

  lemma {:induction false} FieldPut(f: Field)
    ensures PutField(f).Ok? <==> (f.Cpus? ==> CpusStorable(f.cpus))
  {
    match f {
      case Name(n) => NamePut(n);
      case Cgroup(c) => NamePut(c.handle);
      case Cpus(cpus) => ListPut(PutWord32, cpus, MAX_DEPENDENCIES);
      case _ =>
    }
  }

  lemma {:induction false} FieldsPut(fields: seq<Field>)
    ensures PutAll(PutField, fields).Ok?
            <==> forall i :: 0 <= i < |fields| && fields[i].Cpus? ==> CpusStorable(fields[i].cpus)
  {
    AllPut(PutField, fields);
    forall i | 0 <= i < |fields|
      ensures PutField(fields[i]).Ok? <==> (fields[i].Cpus? ==> CpusStorable(fields[i].cpus))
    {
      FieldPut(fields[i]);
    }
  }

  predicate FieldsStorable(fields: seq<Field>) {
    forall i :: 0 <= i < |fields| && fields[i].Cpus? ==> CpusStorable(fields[i].cpus)
  }

  lemma {:induction false} KindFieldsStorable(kind: MutationKind)
    ensures FieldsStorable(KindFields(kind)) <==> KindStorable(kind)
  {
    if kind.CgroupCpuset? || kind.IrqAffinity? {
      assert KindFields(kind)[1].Cpus?;
    }
  }

  lemma {:induction false} KindPut(kind: MutationKind)
    ensures PutKind(kind).Ok? <==> KindStorable(kind)
  {
    FieldsPut(KindFields(kind));
    KindFieldsStorable(kind);
  }

  lemma {:induction false} ValueFieldsStorable(value: TypedValue)
    ensures FieldsStorable(ValueFields(value)) <==> ValueStorable(value)
  {
    if value.CpusetValue? || value.IrqValue? {
      assert ValueFields(value)[0].Cpus?;
    }
  }

  lemma {:induction false} ValuePut(value: TypedValue)
    ensures PutValue(value).Ok? <==> ValueStorable(value)
  {
    FieldsPut(ValueFields(value));
    ValueFieldsStorable(value);
  }

  // ----- cells and structures

  predicate CellStorable(c: Cell) {
    match c
    case Scalar(f) => f.Cpus? ==> CpusStorable(f.cpus)
    case Text(t) => TextStorable(t)
    case Kind(k) => KindStorable(k)
    case Value(v) => ValueStorable(v)
    case Ids(ids) => |ids| <= MAX_DEPENDENCIES
    case Names(names) => |names| <= MAX_TARGETS
    case _ => true
  }

  lemma {:induction false} NamesPut(names: seq<Identifier>)
    ensures PutNames(names).Ok? <==> |names| <= MAX_TARGETS
  {
    ListPut(PutIdentifier, names, MAX_TARGETS);
    forall i | 0 <= i < |names| ensures PutIdentifier(names[i]).Ok? {
      NamePut(names[i]);
    }
  }

  lemma {:induction false} IdsPut(ids: seq<u32>)
    ensures PutIds(ids).Ok? <==> |ids| <= MAX_DEPENDENCIES
  {
    ListPut(PutWord32, ids, MAX_DEPENDENCIES);
  }

  lemma {:induction false} TextPut(t: Utf8)
    ensures PutText(t).Ok? <==> TextStorable(t)
  {
  }

  lemma {:induction false} CellPut(c: Cell)
    ensures PutCell(c).Ok? <==> CellStorable(c)
  {
    match c {
      case Scalar(f) => FieldPut(f);
      case Text(t) => TextPut(t);
      case Kind(k) => KindPut(k);
      case Value(v) => ValuePut(v);
      case Ids(ids) => IdsPut(ids);
      case Names(names) => NamesPut(names);
      case _ =>
    }
  }

  predicate CellsStorable(cells: seq<Cell>) {
    forall i :: 0 <= i < |cells| ==> CellStorable(cells[i])
  }

  lemma {:induction false} CellsPut(cells: seq<Cell>)
    ensures PutAll(PutCell, cells).Ok? <==> CellsStorable(cells)
  {
    AllPut(PutCell, cells);
    forall i | 0 <= i < |cells| ensures PutCell(cells[i]).Ok? <==> CellStorable(cells[i]) {
      CellPut(cells[i]);
    }
  }

  lemma {:induction false} MutationPut(m: PlannedMutation)
    ensures PutMutation(m).Ok? <==> MutationStorable(m)
  {
    CellsPut(MutationCells(m));
    MutationCellsStorable(m);
  }

  lemma {:induction false} MutationCellsStorable(m: PlannedMutation)
    ensures CellsStorable(MutationCells(m)) <==> MutationStorable(m)
  {
    var cells := MutationCells(m);
    if CellsStorable(cells) {
      assert CellStorable(cells[3]) && CellStorable(cells[4]) && CellStorable(cells[7]);
    }
  }

  lemma {:induction false} SnapshotPut(x: Snapshot)
    ensures PutSnapshot(x).Ok? <==> ValueStorable(x.typed)
  {
    var cells := SnapshotCells(x);
    CellsPut(cells);
    if CellsStorable(cells) {
      assert CellStorable(cells[3]);
    }
  }

  lemma {:induction false} ReceiptsPut(a: ApplyReceipt, v: Verification, r: RestoreReceipt)
    ensures PutApply(a).Ok? && PutVerification(v).Ok? && PutRestore(r).Ok?
  {
    CellsPut(ApplyCells(a));
    CellsPut(VerificationCells(v));
    CellsPut(RestoreCells(r));
  }

  lemma {:induction false} FailurePut(x: Failure)
    ensures PutFailure(x).Ok? <==> TextStorable(x.message)
  {
    var cells := FailureCells(x);
    CellsPut(cells);
    if CellsStorable(cells) {
      assert CellStorable(cells[3]);
    }
  }

  lemma {:induction false} TransitionPut(x: TransitionRecord)
    ensures PutTransition(x).Ok? <==> TextStorable(x.reason)
  {
    var cells := TransitionCells(x);
    CellsPut(cells);
    if CellsStorable(cells) {
      assert CellStorable(cells[5]);
    }
  }

  lemma {:induction false} SessionPut(x: Session)
    ensures PutSession(x).Ok? <==> |x.header.targets| <= MAX_TARGETS
  {
    var cells := SessionCells(x);
    CellsPut(cells);
    if CellsStorable(cells) {
      assert CellStorable(cells[5]);
    }
  }

  // ----- operations and records

  lemma {:induction false} JoinPut(a: Bits, b: Bits)
    ensures Join(a, b).Ok? <==> a.Ok? && b.Ok?
  {
  }

  lemma {:induction false} MaybePut(op: Operation)
    ensures PutMaybeSnapshot(op.snapshot).Ok? <==> (op.snapshot.Some? ==> ValueStorable(op.snapshot.value.typed))
    ensures PutMaybeFailure(op.failure).Ok? <==> (op.failure.Some? ==> TextStorable(op.failure.value.message))
  {
    OptionPut(PutSnapshot, op.snapshot);
    OptionPut(PutFailure, op.failure);
    if op.snapshot.Some? {
      SnapshotPut(op.snapshot.value);
    }
    if op.failure.Some? {
      FailurePut(op.failure.value);
    }
  }

  lemma {:induction false} MaybeReceiptsPut(op: Operation)
    ensures PutMaybeApply(op.apply).Ok? && PutMaybeVerification(op.verification).Ok? && PutMaybeRestore(op.restore).Ok?
  {
    OptionPut(PutApply, op.apply);
    OptionPut(PutVerification, op.verification);
    OptionPut(PutRestore, op.restore);
    if op.apply.Some? {
      ReceiptsPut(op.apply.value, Verification(0, op.apply.value.ownership, None, false),
                  RestoreReceipt(0, op.apply.value.ownership, false));
    }
    if op.verification.Some? {
      var f := op.verification.value.expected;
      ReceiptsPut(ApplyReceipt(0, f, f, f), op.verification.value, RestoreReceipt(0, f, false));
    }
    if op.restore.Some? {
      var f := op.restore.value.restored;
      ReceiptsPut(ApplyReceipt(0, f, f, f), Verification(0, f, None, false), op.restore.value);
    }
  }

  lemma {:induction false} FiveJoined(a: Bits, b: Bits, c: Bits, d: Bits, e: Bits)
    ensures Join(a, Join(b, Join(c, Join(d, e)))).Ok? <==> a.Ok? && b.Ok? && c.Ok? && d.Ok? && e.Ok?
  {
  }

  lemma {:induction false} OperationPut(op: Operation)
    ensures PutOperation(op).Ok? <==> OperationStorable(op)
  {
    MutationPut(op.mutation);
    MaybePut(op);
    MaybeReceiptsPut(op);
    FiveJoined(PutMaybeSnapshot(op.snapshot), PutMaybeApply(op.apply), PutMaybeVerification(op.verification),
               PutMaybeRestore(op.restore), PutMaybeFailure(op.failure));
    JoinPut(PutOperationState(op.state), PutReceipts(ReceiptsOf(op)));
    JoinPut(PutMutation(op.mutation), Join(PutOperationState(op.state), PutReceipts(ReceiptsOf(op))));
  }

  lemma {:induction false} ListsPut(r: Record)
    ensures PutOperations(r.operations).Ok?
            <==> |r.operations| <= MAX_OPERATIONS && forall i :: 0 <= i < |r.operations| ==> OperationStorable(r.operations[i])
    ensures PutTransitions(r.transitions).Ok?
            <==> |r.transitions| <= MAX_TRANSITIONS && forall i :: 0 <= i < |r.transitions| ==> TextStorable(r.transitions[i].reason)
    ensures PutFailures(r.failures).Ok?
            <==> |r.failures| <= MAX_FAILURES && forall i :: 0 <= i < |r.failures| ==> TextStorable(r.failures[i].message)
  {
    ListPut(PutOperation, r.operations, MAX_OPERATIONS);
    ListPut(PutTransition, r.transitions, MAX_TRANSITIONS);
    ListPut(PutFailure, r.failures, MAX_FAILURES);
    forall i | 0 <= i < |r.operations| ensures PutOperation(r.operations[i]).Ok? <==> OperationStorable(r.operations[i]) {
      OperationPut(r.operations[i]);
    }
    forall i | 0 <= i < |r.transitions| ensures PutTransition(r.transitions[i]).Ok? <==> TextStorable(r.transitions[i].reason) {
      TransitionPut(r.transitions[i]);
    }
    forall i | 0 <= i < |r.failures| ensures PutFailure(r.failures[i]).Ok? <==> TextStorable(r.failures[i].message) {
      FailurePut(r.failures[i]);
    }
  }

  lemma {:induction false} FourJoined(a: Bits, b: Bits, c: Bits, d: Bits)
    ensures Join(a, Join(b, Join(c, d))).Ok? <==> a.Ok? && b.Ok? && c.Ok? && d.Ok?
  {
  }

  /** The payload of a valid record can be written exactly when its texts and lists obey the encoder's bounds. */
  lemma {:induction false} PayloadPut(r: Record)
    requires ValidRecord(r)
    ensures PutPayload(r).Ok? <==> RecordStorable(r)
  {
    SessionPut(r.session);
    ListsPut(r);
    FourJoined(PutSession(r.session), PutOperations(r.operations), PutTransitions(r.transitions), PutFailures(r.failures));
  }

  /** Header, payload and checksum stay within the size limit of a state file. */
  predicate FileFits(r: Record) {
    HEADER_BYTES + RecordSize(r) + CHECKSUM_BYTES <= MAX_SESSION_RECORD_BYTES
  }

  lemma {:induction false} EncodesWith(put: Record -> Bits, r: Record)
    requires ValidRecord(r) ==> (put(r).Ok? <==> RecordStorable(r))
    requires put(r).Ok? ==> |put(r).value| == RecordSize(r)
    ensures EncodeWith(put, r).Ok? <==> ValidRecord(r) && RecordStorable(r) && FileFits(r)
    ensures EncodeWith(put, r).Ok? ==> |EncodeWith(put, r).value| == HEADER_BYTES + RecordSize(r) + CHECKSUM_BYTES
    ensures EncodeWith(put, r).Err? && ValidRecord(r) && RecordStorable(r) ==> EncodeWith(put, r) == Err(DurabilityError)
  {
  }

  /** A record is written exactly when it is valid, its texts and lists obey the encoder's bounds, and its size is
      within the limit, and the file is as long as that size says; a record that only exceeds the limit is refused as
      a durability error. */
  lemma {:induction false} EncodesExactly(r: Record)
    ensures Encode(r).Ok? <==> ValidRecord(r) && RecordStorable(r) && FileFits(r)
    ensures Encode(r).Ok? ==> |Encode(r).value| == HEADER_BYTES + RecordSize(r) + CHECKSUM_BYTES
    ensures Encode(r).Err? && ValidRecord(r) && RecordStorable(r) ==> Encode(r) == Err(DurabilityError)
  {
    if ValidRecord(r) {
      PayloadPut(r);
    }
    PayloadSized(r);
    EncodesWith(PutPayload, r);
  }

  /** A failure whose message is empty or holds a NUL is recorded, leaves the record valid, and from then on keeps
      it from being written: nothing a later call does removes it. */
  lemma {:induction false} SilentFailureBlocksWriting(r: Record, error: DomainError, evs: seq<Event>)
    requires ValidRecord(r) && |r.failures| < MAX_FAILURES
    requires !TextStorable(FailureOf(error).message)
    ensures var failed := Step(r, RecordFailure(error)).0;
      ValidRecord(failed) && Encode(Run(failed, evs)).Err?
  {
    var failed := Step(r, RecordFailure(error)).0;
    StepValid(r, RecordFailure(error));
    History.RunEvolves(failed, evs);
    var later := Run(failed, evs);
    assert failed.failures[|r.failures|] == FailureOf(error);
    assert later.failures[|r.failures|] == FailureOf(error);
    assert !RecordStorable(later);
    EncodesExactly(later);
  }
}
