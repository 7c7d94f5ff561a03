/**
  How many bytes each part of a record takes in a state file, counted from the record itself
  (crates/sysboost-core/src/transaction.rs, 474-509 and 770-1957).
 */
module Sizes {
  import opened Outcome
  import opened Bytes
  import opened Mutation
  import opened Session
  import opened Wire
  import opened TupleWire
  import opened VocabularyWire
  import opened LayoutWire
  import opened RecordWire
  import opened StructureWire
  import opened CodecWire

  /** Whatever is written takes as many bytes as the size says. */
  ghost predicate Sized<T(!new)>(put: T -> Bits, size: T -> nat) {
    forall x :: put(x).Ok? ==> |put(x).value| == size(x)
  }

  function Total<T>(size: T -> nat, xs: seq<T>): nat {
    if xs == [] then 0 else size(xs[0]) + Total(size, xs[1..])
  }

  function MaybeSize<T>(size: T -> nat, x: Option<T>): nat {
    if x.Some? then 1 + size(x.value) else 1
  }

  lemma {:induction false} AllSized<T(!new)>(put: T -> Bits, size: T -> nat, xs: seq<T>)
    requires Sized(put, size) && PutAll(put, xs).Ok?
    ensures |PutAll(put, xs).value| == Total(size, xs)
  {
    if xs != [] {
      AllSized(put, size, xs[1..]);
    }
  }

  lemma {:induction false} ListSized<T(!new)>(put: T -> Bits, size: T -> nat, max: nat, putMany: seq<T> -> Bits)
    requires Sized(put, size) && forall xs :: putMany(xs) == PutList(put, xs, max)
    ensures Sized(putMany, (xs: seq<T>) => 4 + Total(size, xs))
  {
    forall xs | putMany(xs).Ok? ensures |putMany(xs).value| == 4 + Total(size, xs) {
      AllSized(put, size, xs);
    }
  }

  lemma {:induction false} OptionSized<T(!new)>(put: T -> Bits, size: T -> nat, putMaybe: Option<T> -> Bits)
    requires Sized(put, size) && forall x :: putMaybe(x) == PutOption(put, x)
    ensures Sized(putMaybe, (x: Option<T>) => MaybeSize(size, x))
  {
  }

  lemma {:induction false} TotalAtMost<T>(size: T -> nat, xs: seq<T>, most: nat)
    requires forall x :: x in xs ==> size(x) <= most
    ensures Total(size, xs) <= |xs| * most
  {
    if xs != [] {
      TotalAtMost(size, xs[1..], most);
    }
  }

  // ----- fields, kinds and values

  function TextSize(n: seq<byte>): nat { 4 + |n| }

  function FieldSize(f: Field): nat {
    match f
    case Byte(_) => 1
    case Flag(_) => 1
    case Word16(_) => 2
    case Word32(_) => 4
    case Word64(_) => 8
    case Signed64(_) => 8
    case Name(n) => TextSize(n)
    case Frequency(khz) => if khz.Some? then 9 else 1
    case Cgroup(c) => 16 + TextSize(c.handle)
    case Process(_) => 12
    case Clamp(c) => if c.UclampValue? then 3 else 1
    case QuotaField(q) => if q.QuotaMicros? then 9 else 1
    case Priority(_) => 2
    case Cpus(cpus) => 4 + 4 * |cpus|
  }

  lemma {:induction false} FieldSized()
    ensures Sized(PutField, FieldSize)
  {
    forall f | PutField(f).Ok? ensures |PutField(f).value| == FieldSize(f) {
      if f.Cpus? {
        Words32Length(f.cpus);
      }
    }
  }

  function KindSize(kind: MutationKind): nat { 1 + Total(FieldSize, KindFields(kind)) }

  function ValueSize(value: TypedValue): nat { 1 + Total(FieldSize, ValueFields(value)) }

  lemma {:induction false} VocabularySized()
    ensures Sized(PutKind, KindSize) && Sized(PutValue, ValueSize)
  {
    FieldSized();
    forall kind | PutKind(kind).Ok? ensures |PutKind(kind).value| == KindSize(kind) {
      AllSized(PutField, FieldSize, KindFields(kind));
    }
    forall value | PutValue(value).Ok? ensures |PutValue(value).value| == ValueSize(value) {
      AllSized(PutField, FieldSize, ValueFields(value));
    }
  }

  // ----- cells and structures

  function CellSize(c: Cell): nat {
    match c
    case Scalar(f) => FieldSize(f)
    case Fixed16(_) => 16
    case Fixed32(_) => 32
    case Word128(_) => 16
    case Raw(raw) => 4 + |raw|
    case Text(text) => TextSize(text)
    case Kind(kind) => KindSize(kind)
    case Value(value) => ValueSize(value)
    case MaybePrint(mark) => if mark.Some? then 33 else 1
    case MaybeId(id) => if id.Some? then 5 else 1
    case Ids(ids) => 4 + 4 * |ids|
    case Names(names) => 4 + Total((n: Identifier) => TextSize(n), names)
  }

  lemma {:induction false} CellSized()
    ensures Sized(PutCell, CellSize)
  {
    FieldSized();
    VocabularySized();
    forall c | PutCell(c).Ok? ensures |PutCell(c).value| == CellSize(c) {
      match c {
        case Ids(ids) => Words32Length(ids);
        case Names(names) => AllSized(PutIdentifier, (n: Identifier) => TextSize(n), names);
        case _ =>
      }
    }
  }

  function CellsSize(cells: seq<Cell>): nat { Total(CellSize, cells) }

  lemma {:induction false} StructSized<X(!new)>(cells: X -> seq<Cell>, put: X -> Bits)
    requires forall x :: put(x) == PutStruct(cells, x)
    ensures Sized(put, (x: X) => CellsSize(cells(x)))
  {
    CellSized();
    forall x | put(x).Ok? ensures |put(x).value| == CellsSize(cells(x)) {
      AllSized(PutCell, CellSize, cells(x));
    }
  }

  // ----- operations and records

  function SnapshotSize(x: Snapshot): nat { CellsSize(SnapshotCells(x)) }
  function ApplySize(x: ApplyReceipt): nat { CellsSize(ApplyCells(x)) }
  function VerificationSize(x: Verification): nat { CellsSize(VerificationCells(x)) }
  function RestoreSize(x: RestoreReceipt): nat { CellsSize(RestoreCells(x)) }
  function FailureSize(x: Failure): nat { CellsSize(FailureCells(x)) }
  function TransitionSize(x: TransitionRecord): nat { CellsSize(TransitionCells(x)) }

  function OperationSize(op: Operation): nat {
    CellsSize(MutationCells(op.mutation)) + 1
    + MaybeSize(SnapshotSize, op.snapshot) + MaybeSize(ApplySize, op.apply)
    + MaybeSize(VerificationSize, op.verification) + MaybeSize(RestoreSize, op.restore)
    + MaybeSize(FailureSize, op.failure)
  }

  /** The size of the payload of a record. */
  function RecordSize(r: Record): nat {
    CellsSize(SessionCells(r.session)) + (4 + Total(OperationSize, r.operations))
    + (4 + Total(TransitionSize, r.transitions)) + (4 + Total(FailureSize, r.failures))
  }

  lemma {:induction false} ReceiptsSized()
    ensures Sized(PutMaybeSnapshot, (x: Option<Snapshot>) => MaybeSize(SnapshotSize, x))
    ensures Sized(PutMaybeApply, (x: Option<ApplyReceipt>) => MaybeSize(ApplySize, x))
    ensures Sized(PutMaybeVerification, (x: Option<Verification>) => MaybeSize(VerificationSize, x))
    ensures Sized(PutMaybeRestore, (x: Option<RestoreReceipt>) => MaybeSize(RestoreSize, x))
    ensures Sized(PutMaybeFailure, (x: Option<Failure>) => MaybeSize(FailureSize, x))
  {
    StructSized(SnapshotCells, PutSnapshot);
    OptionSized(PutSnapshot, SnapshotSize, PutMaybeSnapshot);
    StructSized(ApplyCells, PutApply);
    OptionSized(PutApply, ApplySize, PutMaybeApply);
    StructSized(VerificationCells, PutVerification);
    OptionSized(PutVerification, VerificationSize, PutMaybeVerification);
    StructSized(RestoreCells, PutRestore);
    OptionSized(PutRestore, RestoreSize, PutMaybeRestore);
    StructSized(FailureCells, PutFailure);
    OptionSized(PutFailure, FailureSize, PutMaybeFailure);
  }

  lemma {:induction false} JoinedSize(a: Bits, b: Bits)
    requires Join(a, b).Ok?
    ensures a.Ok? && b.Ok? && |Join(a, b).value| == |a.value| + |b.value|
  {
  }

  lemma {:induction false} OperationSized()
    ensures Sized(PutOperation, OperationSize)
  {
    StructSized(MutationCells, PutMutation);
    ReceiptsSized();
    forall op | PutOperation(op).Ok? ensures |PutOperation(op).value| == OperationSize(op) {
      var outcome := Join(PutMaybeRestore(op.restore), PutMaybeFailure(op.failure));
      var checked := Join(PutMaybeVerification(op.verification), outcome);
      var applied := Join(PutMaybeApply(op.apply), checked);
      var receipts := Join(PutMaybeSnapshot(op.snapshot), applied);
      var progress := Join(PutOperationState(op.state), receipts);
      JoinedSize(PutMutation(op.mutation), progress);
      JoinedSize(PutOperationState(op.state), receipts);
      JoinedSize(PutMaybeSnapshot(op.snapshot), applied);
      JoinedSize(PutMaybeApply(op.apply), checked);
      JoinedSize(PutMaybeVerification(op.verification), outcome);
      JoinedSize(PutMaybeRestore(op.restore), PutMaybeFailure(op.failure));
    }
  }

  /** What is written of a record is as long as its size says. */
  lemma {:induction false} PayloadSized(r: Record)
    ensures PutPayload(r).Ok? ==> |PutPayload(r).value| == RecordSize(r)
  {
    if PutPayload(r).Ok? {
      StructSized(SessionCells, PutSession);
      OperationSized();
      ListSized(PutOperation, OperationSize, MAX_OPERATIONS, PutOperations);
      StructSized(TransitionCells, PutTransition);
      ListSized(PutTransition, TransitionSize, MAX_TRANSITIONS, PutTransitions);
      StructSized(FailureCells, PutFailure);
      ListSized(PutFailure, FailureSize, MAX_FAILURES, PutFailures);
      var journal := Join(PutTransitions(r.transitions), PutFailures(r.failures));
      var lists := Join(PutOperations(r.operations), journal);
      JoinedSize(PutSession(r.session), lists);
      JoinedSize(PutOperations(r.operations), journal);
      JoinedSize(PutTransitions(r.transitions), PutFailures(r.failures));
    }
  }
}
