# Verified model of sysboost

sysboost changes performance settings of a Linux host for a bounded session and promises to put back
exactly the state that was there before.  This project models the parts of it that carry that promise and
proves, for all inputs and all runs, what they do:

1. **The durable session record.**  A record holds a session, its operations with their snapshots and
   receipts, the session transitions and the failures.  `Session` and `Mutation` hold the data,
   `RecordRules` reads the validity rule receipt by receipt, `Lifecycle` defines what each method does to a
   record as a step function, `Effects` states the result of every call in terms of states, receipts and
   journals alone, `History` what every run keeps, and `SessionRecord` is the mutable object whose methods
   are proved against the steps.  `Wire`, `VocabularyWire`, `LayoutWire`, `RecordWire`, `StructureWire`,
   `TupleWire` and `CodecWire` specify the binary format bottom-up as prefix-decodable pieces; `Encoder`,
   `Decoder` and `RecordIO` are the growing buffer and the moving cursor, proved against that specification;
   `WireFormat` writes the format out with its numbers and proves that these are the bytes; `Checksum`,
   `ChecksumBits` and `Corruption` say what the checksum computes and prove that damage is detected; `Sizes`
   counts the bytes of a record, `Storable` says exactly which records can be written, `PlainWire` and
   `PlainCodec` exactly which accepted files are the ones that are written, and `LooseFile` shows one that
   is not; `StateFile` puts the parts together.
2. **The planner.**  `Proposals` chooses between proposals, `Admission` is the gate a change passes,
   `Ordering` and `Schedule` resolve dependencies and order candidates, `Plan` is the independent
   validator, `Graph` the theory of dependency cycles both share, `PlannerOutput` proves that what ordering
   emits the validator accepts, and `Planning` puts gate, candidates and ordering together and proves that a
   tighter policy plans no more.
3. **CPU soft isolation.**  `CpuList` parses and prints CPU lists, `TopologyFacts` normalizes discovered
   facts, `Topology` groups CPUs into cores, `Isolation` and `Selection` rank the groups and split the
   online CPUs, `Mask` makes the affinity masks.
4. **The CPU frequency backend.**  `CpuFrequency` models the two kernel files of a range as cells whose
   reads and writes may fail, and proves apply, recovery and restore over them.
5. **The workload backend.**  `Hierarchy` models the deterministic cgroup hierarchy as a value,
   `HierarchyFacts` states what every read and write does to it, `Workload` proves what apply and restore
   may answer and that restore undoes apply, `CgroupFixture` is the mutable object.

How to read the model:

- Where the source computes by expressions the model is a function; where it updates fields, buffers or
  accumulators the model is a class or a method with the same loop, proved against a function.
- Text is a sequence of bytes.  UTF-8 follows section 4 of RFC 3629.  Machine integers are subset types of
  the integers; wrapping, saturation and truncation are written out.
- Errors carry the category of the source (`ErrorCode`), not its message or context.
- Fingerprints, the topology revision and the tables that name operations are arbitrary functions; nothing
  is assumed about collisions.
- Ordered maps and sets are sequences in key order, or maps iterated in an arbitrary order where the result
  does not depend on it.

Where the code does less than its comments suggest, the model follows the code. `record_apply`,
`record_verification` and `record_restore` store the receipt before they test the transition, so a refused
call can leave an invalid record behind; `Lifecycle.StepValid` gives the exact condition under which a call
keeps a record valid and `History.ReceiptOutOfTurn` the failing family. The operation transition table
allows `Applying` to `Restoring`, which the validator refuses without an apply receipt
(`History.RestoreWithoutReceipt`). The decoder takes any nonzero byte for a true flag, and CPU sets out of
order or with repeats, so an accepted file need not be the one that is written for its record
(`LooseFile.NotCanonical`); it is exactly when it is plain (`PlainCodec.ReencodesExactly`). Which of two
equal proposals is kept, and so its required flag, depends on their order
(`Proposals.RequiredDependsOnOrder`) unless the top proposals agree on the flag
(`Proposals.RequiredIgnoresOrder`). A failure with an empty message can be recorded in a valid record but
not written, so the record can no longer be stored (`Storable.SilentFailureBlocksWriting`). Removing a
managed group can be refused when its path is above an existing group (`Workload.RestoreRefused`), and only
then (`Workload.RestoreUndoesApply`).


## Model

| member | source | states |
|---|---|---|
| CodecWire.RoundTrip | crates/sysboost-core/src/transaction.rs:474-568 | A record that encodes decodes to itself exactly when its mutations, snapshots and values are in the image of the validating constructors |
| CodecWire.CanonicalForm | crates/sysboost-core/src/transaction.rs:511-568 | Whatever decodes encodes again, in no more bytes, to a file that decodes to the same record, and is in the image of the constructors |
| PlainCodec.ReencodesExactly | crates/sysboost-core/src/transaction.rs:511-568 | An accepted file is written again byte for byte exactly when every flag and presence byte in it is 0 or 1 and every CPU list is strictly increasing |
| PlainCodec.PayloadExact | crates/sysboost-core/src/transaction.rs:543-565 | What is read of a payload would be written with the very bytes it was read from exactly when they are plain, through every structure, list and optional receipt |
| PlainWire.CpusExact | crates/sysboost-core/src/transaction.rs:1868-1875 | A CPU set is written with the bytes it was read from exactly when the list read is strictly increasing |
| PlainWire.OptionExact | crates/sysboost-core/src/transaction.rs:1231-1233 | An optional value is written with the bytes it was read from exactly when its presence byte is 0 or 1 and, if present, the value is |
| LooseFile.SecondFile | crates/sysboost-core/src/transaction.rs:1231-1233 | For a stored record whose only failure names an operation there is a second file of the same length that is accepted as the record but would not be written |
| LooseFile.NotCanonical | crates/sysboost-core/src/transaction.rs:511-568 | On a concrete record: a file that is accepted, encodes differently and is not plain |
| CodecWire.EncodingInjective | crates/sysboost-core/src/transaction.rs:474-509 | Two constructor-built records never share an encoding |
| WireFormat.EncodeWritten | crates/sysboost-core/src/transaction.rs:474-509 | The file is, part by part and number by number, the frame of the payload written out in the format tables, or the stated error, and at most 1,048,576 bytes long |
| WireFormat.PayloadWritten | crates/sysboost-core/src/transaction.rs:474-489 | The payload is the session and three counted lists of at most 4096, 16,384 and 4096 entries |
| WireFormat.OperationWritten | crates/sysboost-core/src/transaction.rs:979-1006 | An operation is its mutation, its state and five optional receipts, each with its fields in the order of the source |
| WireFormat.KindWritten | crates/sysboost-core/src/transaction.rs:1392-1504 | Each of the twenty kinds is its number, 0 to 19, and its fields in the order of the source |
| WireFormat.ValueWritten | crates/sysboost-core/src/transaction.rs:1606-1691 | Each of the eighteen values is its number, 0 to 17, and its fields in the order of the source |
| WireFormat.NumberedFrom0 | crates/sysboost-core/src/transaction.rs:1235-1390 | The closed enumerations are numbered by their position in the listed order, error codes from 1 |
| WireFormat.FrameWritten | crates/sysboost-core/src/transaction.rs:498-507 | The frame is SYSBST01, version 1 in two bytes, the length in four, the payload and four lanes of eight bytes |
| Storable.EncodesExactly | crates/sysboost-core/src/transaction.rs:474-509 | A record is written exactly when it is valid, its texts and lists obey the encoder's bounds and its size, counted from the record, is within the limit; the file is that long, and a record that is only too large is refused as a durability error |
| Sizes.PayloadSized | crates/sysboost-core/src/transaction.rs:474-489 | What is written of a record takes as many bytes as the size counted from its fields |
| Storable.OperationPut | crates/sysboost-core/src/transaction.rs:979-1006 | An operation can be written exactly when its dependencies and CPU sets are within the list bound and its failure text is non-empty, bounded and free of NUL |
| Storable.SilentFailureBlocksWriting | crates/sysboost-core/src/transaction.rs:430-432 | A failure with an empty or NUL-holding message is recorded, leaves the record valid, and keeps it from being written after any later calls |
| CodecWire.PayloadCodec | crates/sysboost-core/src/transaction.rs:476-489 | The whole payload is prefix-decodable and re-encodable: session, counted operations, transitions and failures, every kind, value and optional receipt |
| CodecWire.OperationCodec | crates/sysboost-core/src/transaction.rs:979-1045 | One operation with its five optional receipts is prefix-decodable, and every decoded operation is built by the constructors |
| CodecWire.UnframeFrame | crates/sysboost-core/src/transaction.rs:491-538 | Magic, version, length and checksum of a written frame are accepted and give the payload back |
| CodecWire.FrameUnframe | crates/sysboost-core/src/transaction.rs:511-540 | A file that is accepted is byte for byte the frame of its payload |
| Corruption.DamageDetected | crates/sysboost-core/src/transaction.rs:511-540 | Any single changed byte, any change within four consecutive payload bytes, any change that hits the header or spares the payload, any truncation and any extension of an encoded record makes decode fail as a corrupt journal |
| Corruption.BurstRejected | crates/sysboost-core/src/transaction.rs:524-540 | Changes confined to four consecutive payload bytes are refused by the checksum |
| Corruption.ResizeRejected | crates/sysboost-core/src/transaction.rs:527-536 | A proper prefix or extension of a frame is refused |
| Checksum.Compute | crates/sysboost-core/src/transaction.rs:1959-1981 | The loop over four mutable 64-bit lanes computes the specified digest |
| ChecksumBits.ByteAbsorbed | crates/sysboost-core/src/transaction.rs:1969-1975 | One more byte changes only the lane its index selects: bitwise exclusive or, multiplication by 0x100000001b3 modulo 2^64, and every bit moved cyclically by index modulo 63 plus 1 |
| Checksum.StepInjective | crates/sysboost-core/src/transaction.rs:1965-1973 | One lane step is injective in the lane and in the byte: xor, odd multiplier modulo 2^64, rotation |
| Checksum.CorruptionChangesDigest | crates/sysboost-core/src/transaction.rs:1959-1981 | If some lane is fed different bytes at exactly one position, the digests differ |
| Checksum.BurstChangesDigest | crates/sysboost-core/src/transaction.rs:1959-1981 | Two inputs of one length that differ only within four consecutive positions have different digests |
| Bytes.FromToBigEndian | crates/sysboost-core/src/transaction.rs:793-811 | Reading back a big-endian word of any width gives the number |
| Bytes.ToFromBigEndian | crates/sysboost-core/src/transaction.rs:859-892 | Writing a word that was read gives the same bytes |
| Wire.ListCodec | crates/sysboost-core/src/transaction.rs:932-938 | A counted list of prefix-decodable elements is prefix-decodable within its bound |
| Wire.OptionCodec | crates/sysboost-core/src/transaction.rs:1231-1233 | An optional prefix-decodable value is prefix-decodable although any nonzero byte means present |
| LayoutWire.KindCodec | crates/sysboost-core/src/transaction.rs:1392-1604 | All twenty mutation kinds are prefix-decodable; what is read back is bounded as the constructors bound it |
| LayoutWire.ValueCodec | crates/sysboost-core/src/transaction.rs:1606-1755 | All eighteen typed values are prefix-decodable and bounded when read |
| VocabularyWire.CpuSetReads | crates/sysboost-core/src/transaction.rs:1860-1875 | A canonical CPU set survives the list encoding although reading sorts and drops repeats |
| VocabularyWire.FrequencyReads | crates/sysboost-core/src/transaction.rs:1757-1772 | An optional positive frequency is read back, whatever follows it |
| RecordWire.TagsDecode | crates/sysboost-core/src/transaction.rs:1235-1390 | Tags of session states, operation states, equalities, stages and error codes decode to what they encode |
| StructureWire.MutationCodec | crates/sysboost-core/src/transaction.rs:1047-1088 | A mutation without its stored rollback contract is read back through the validating constructor |
| StructureWire.SessionCodec | crates/sysboost-core/src/transaction.rs:940-977 | Session header, leases and state are prefix-decodable |
| EncoderIO.Encoder.Kind | crates/sysboost-core/src/transaction.rs:1392-1504 | Appends exactly the specified bytes of a mutation kind or reports the specified error |
| EncoderIO.Encoder.Value | crates/sysboost-core/src/transaction.rs:1606-1691 | Appends exactly the specified bytes of a typed value or reports the specified error |
| EncoderIO.Encoder.String | crates/sysboost-core/src/transaction.rs:826-832 | Appends a length-prefixed text, refusing empty, oversized and NUL-holding text |
| DecoderIO.Decoder.Take | crates/sysboost-core/src/transaction.rs:846-857 | Returns the next bytes and moves the offset, or fails at the end |
| DecoderIO.Decoder.Kind | crates/sysboost-core/src/transaction.rs:1506-1604 | Reads a mutation kind as specified and leaves the cursor at the specified rest |
| DecoderIO.Decoder.Value | crates/sysboost-core/src/transaction.rs:1693-1755 | Reads a typed value as specified and leaves the cursor at the specified rest |
| RecordIO.EncodePayload | crates/sysboost-core/src/transaction.rs:474-489 | The buffer grows by exactly the specified payload, through loops over operations, transitions and failures |
| RecordIO.DecodePayload | crates/sysboost-core/src/transaction.rs:543-565 | The cursor reads exactly the record the specification reads |
| StateFile.EncodeRecord | crates/sysboost-core/src/transaction.rs:474-509 | Validation, payload, size bound, frame and checksum together are the specified encoding |
| StateFile.DecodeRecord | crates/sysboost-core/src/transaction.rs:511-568 | Frame checks, checksum, payload, end of input and validation together are the specified decoding |
| Text.TruncatedIsLongest | crates/sysboost-core/src/transaction.rs:130-139 | A truncated failure message is the longest well-formed UTF-8 prefix within the bound |
| Text.Truncate | crates/sysboost-core/src/transaction.rs:130-139 | The backward search for a character boundary finds that prefix |
| Mutation.NewMutation | crates/sysboost-core/src/mutation.rs:998-1044 | Construction succeeds exactly for an accepted kind, a matching desired value and no self-dependency |
| RecordRules.MutationExactly | crates/sysboost-core/src/mutation.rs:998-1044 | A mutation is built exactly from a frequency request with a bound and no inverted range, no lower clamp of maximum, the value of the kind and no dependency on itself; it holds just what was given |
| Mutation.NewCpuSet | crates/sysboost-core/src/mutation.rs:473-483 | Sorting and dropping repeats keeps exactly the members and fails only on the empty list |
| Lifecycle.OperationStepValid | crates/sysboost-core/src/transaction.rs:287-427 | A call on a valid operation leaves it valid exactly when the stated condition on receipt and state holds before the call |
| Lifecycle.StepValid | crates/sysboost-core/src/transaction.rs:254-432 | A call on a valid record leaves it valid exactly when it is admissible, counts included |
| Lifecycle.RunValid | crates/sysboost-core/src/transaction.rs:254-432 | Every record along a run is valid exactly when each call of the run is admissible where it is made |
| Lifecycle.IntentIsAllOrNothing | crates/sysboost-core/src/transaction.rs:313-330 | Recording intent moves every operation, exactly when all may move, or changes nothing |
| History.NewRecordValid | crates/sysboost-core/src/transaction.rs:216-251 | A new record is valid exactly when its session is new and leases the targets of its mutations |
| History.RunEvolves | crates/sysboost-core/src/transaction.rs:254-432 | Over every run, legal or not, identities stay, a captured snapshot never changes, receipts and journals never shrink, progress never falls and a restored operation stays restored |
| History.ProvenMeans | crates/sysboost-core/src/transaction.rs:465-471 | On a valid record the restoration check means exactly: nothing is in flight and every apply receipt is matched by a verified restore of snapshot and planned precondition; the failed-restore test follows |
| History.RestorationSound | crates/sysboost-core/src/transaction.rs:398-471 | An operation that held an apply receipt anywhere in a run is, once restoration is proven, back at the original captured for it |
| History.RecoveryReachesProof | crates/sysboost-core/src/transaction.rs:386-412 | From every valid record with nothing in flight a legal run of restores ends with restoration proven |
| History.ReceiptOutOfTurn | crates/sysboost-core/src/transaction.rs:333-347 | A receipt reported before applying is refused with the record already changed and no longer valid |
| History.RestoreWithoutReceipt | crates/sysboost-core/src/transaction.rs:65-83 | The table lets an applying operation begin restoring, and the validator refuses the result |
| History.ApplyingIsReachable | crates/sysboost-core/src/transaction.rs:287-347 | The state of the previous row is reached by legal calls from a new record |
| History.ChainShape | crates/sysboost-core/src/transaction.rs:621-644 | The chain of a valid record is numbered from 1, linked from New to the current state, enters Applying only as fifth entry after Snapshotted and IntentDurable, and ends at Restored |
| Effects.FailOperationEffect | crates/sysboost-core/src/transaction.rs:371-383 | A reported failure moves an applying or applied operation to Failed, answers Ok and appends one failure with its code, ID and stage to the journal; a failed one fails again; in every other state the call is refused and nothing is journaled |
| Effects.CaptureEffect | crates/sysboost-core/src/transaction.rs:287-310 | A snapshot is stored and the operation moves exactly when it is planned, has none, and target, equality, precondition and identity agree; every other case has its error and changes nothing |
| Effects.BeginApplyEffect | crates/sysboost-core/src/transaction.rs:175-184 | Applying begins exactly from IntentRecorded |
| Effects.RecordApplyEffect | crates/sysboost-core/src/transaction.rs:333-347 | A receipt of its own is stored in every state, but only an applying operation becomes applied |
| Effects.RecordVerificationEffect | crates/sysboost-core/src/transaction.rs:350-368 | A result of its own is stored in every state; a match verifies an applied operation, a mismatch fails an applying or applied one |
| Effects.BeginRestoreEffect | crates/sysboost-core/src/transaction.rs:386-395 | Restoring begins exactly from the states that may have touched the target; a restored operation stays and answers Ok |
| Effects.RecordRestoreEffect | crates/sysboost-core/src/transaction.rs:398-412 | A verified receipt of its own is stored in every state, but only a restoring operation becomes restored |
| Effects.FailRestoreEffect | crates/sysboost-core/src/transaction.rs:415-427 | A restoring operation becomes RestoreFailed, one that failed fails again, and both are journaled; every other state is refused without an entry |
| Effects.RecordIntentEffect | crates/sysboost-core/src/transaction.rs:313-330 | All operations become IntentRecorded exactly when all are snapshotted, and otherwise nothing changes |
| Effects.AdvanceEffect | crates/sysboost-core/src/transaction.rs:254-284 | The session moves exactly along the sixteen listed transitions with an acceptable reason, and the journal gains one entry numbered on from the last |
| Effects.UnknownId | crates/sysboost-core/src/transaction.rs:435-463 | A call for an ID that no operation has is refused and changes nothing |
| RecordRules.ValidExactly | crates/sysboost-core/src/transaction.rs:570-767 | A record is accepted exactly when it is within the bounds, its operations differ and own the leases, each receipt is there in just the states that need it and agrees with its operation, and neighbouring transitions meet |
| SessionRecordState.SessionRecord.New | crates/sysboost-core/src/transaction.rs:216-251 | The loop over seen IDs builds the specified record or reports the specified error |
| SessionRecordState.SessionRecord.Transition | crates/sysboost-core/src/transaction.rs:254-284 | New state and journal are those of the specified step; a refused reason or transition changes nothing |
| SessionRecordState.SessionRecord.CaptureSnapshot | crates/sysboost-core/src/transaction.rs:287-310 | New state and result are those of the specified capture |
| SessionRecordState.SessionRecord.RecordIntent | crates/sysboost-core/src/transaction.rs:313-330 | New state and result are those of the specified intent, through two passes |
| SessionRecordState.SessionRecord.RecordApply | crates/sysboost-core/src/transaction.rs:333-347 | New state and result are those of the specified step, receipt stored first |
| SessionRecordState.SessionRecord.RecordVerification | crates/sysboost-core/src/transaction.rs:350-368 | New state and result are those of the specified step, result stored first |
| SessionRecordState.SessionRecord.FailOperation | crates/sysboost-core/src/transaction.rs:371-383 | New state, failure journal and result are those of the step, whose effect Effects.FailOperationEffect states |
| SessionRecordState.SessionRecord.BeginRestoreOperation | crates/sysboost-core/src/transaction.rs:386-395 | New state and result are those of the specified step; a restored operation stays |
| SessionRecordState.SessionRecord.RecordRestore | crates/sysboost-core/src/transaction.rs:398-412 | New state and result are those of the specified step, receipt stored first |
| SessionRecordState.SessionRecord.FailRestore | crates/sysboost-core/src/transaction.rs:415-427 | New state, failure journal and result are those of the specified step |
| SessionRecordState.SessionRecord.RestorationProven | crates/sysboost-core/src/transaction.rs:465-471 | The scan returns whether every operation passes the restoration check |
| SessionRecordState.SessionRecord.ValidateForSerialization | crates/sysboost-core/src/transaction.rs:570-646 | The nested checks accept exactly the valid records |
| SessionRecordState.ValidateOperation | crates/sysboost-core/src/transaction.rs:649-767 | For receipts that name their operation the checks accept exactly the valid operations |
| SessionRecordState.FollowChain | crates/sysboost-core/src/transaction.rs:626-639 | The walk over transitions accepts exactly the numbered, linked, legal chains and ends in their last state |
| Plan.Validate | crates/sysboost-core/src/plan.rs:201-269 | Accepts exactly unique IDs, closed repeat-free dependencies and every dependency strictly earlier; reports a cycle exactly when there is one |
| Plan.CheckReferences | crates/sysboost-core/src/plan.rs:201-237 | Accepts exactly unique IDs with closed, repeat-free dependencies |
| Plan.ReachesCycle | crates/sysboost-core/src/plan.rs:290-309 | Terminates, restores the shared stack, and returns true exactly when some walk comes back to the stack or to itself |
| Plan.OrderedIsAcyclic | crates/sysboost-core/src/plan.rs:239-268 | Dependencies that all stand earlier leave no cycle, so the cycle test never changes what is accepted |
| Graph.ReturnsThroughDependency | crates/sysboost-core/src/plan.rs:299-308 | A node off the stack returns exactly when one of its dependencies returns with the node stacked |
| Graph.ReturnsMeansCycle | crates/sysboost-core/src/plan.rs:239-248 | With empty stacks, some node returns exactly when the graph has a cycle |
| Graph.StuckHasCycle | crates/sysboost-core/src/planner.rs:2976-2982 | Nodes that all wait for each other hold a cycle |
| Keys.KeyTotal | crates/sysboost-core/src/planner.rs:2693-2699 | Candidate keys are totally ordered |
| Keys.KeyOrder | crates/sysboost-core/src/planner.rs:2693-2699 | Keys go by capability, then target with none first, then operation, then position of the feature |
| Keys.TextLessAt | crates/sysboost-core/src/planner.rs:2693-2699 | One text is before another exactly when it ends first or is smaller at the first difference |
| Schedule.Release | crates/sysboost-core/src/planner.rs:2964-2974 | Lowering in-degrees takes exactly one from each node that needs the emitted one, never below zero, and makes ready exactly the nodes that become free |
| Schedule.Emit | crates/sysboost-core/src/planner.rs:2951-2975 | The loop emits, at every step, the least available node by key, until none is available |
| Schedule.CompleteUnlessCycle | crates/sysboost-core/src/planner.rs:2976-2982 | All nodes are emitted, once each and after what they need, exactly when the graph has no cycle |
| Schedule.GreedyIsLeast | crates/sysboost-core/src/planner.rs:2951-2975 | Where any other topological order first differs from the emitted one, its key is larger |
| Ordering.Resolve | crates/sysboost-core/src/planner.rs:2902-2949 | Resolution succeeds exactly when the first candidate of every declared operation on the same target exists, is executable, satisfied or preserved, and is not the dependent itself; each refusal names its case |
| Ordering.EdgesAreDependencies | crates/sysboost-core/src/planner.rs:2908-2948 | The edges of the graph are exactly the declared dependencies met by other executable candidates |
| Ordering.CyclesAreDependencies | crates/sysboost-core/src/planner.rs:2976-2982 | The graph has a cycle exactly when a chain of declared dependencies comes back to its start |
| Ordering.PositionsAreNodes | crates/sysboost-core/src/planner.rs:2908-2948 | Resolved dependencies are distinct executable candidates other than the dependent one |
| Ordering.BuildItems | crates/sysboost-core/src/planner.rs:2984-3018 | Each item gets its draft under the ID of its place, with the IDs of what it needs and the identity of its target, exactly when every draft is accepted |
| PlannerOutput.Finalize | crates/sysboost-core/src/planner.rs:2890-3033 | A plan is built only when every declared dependency is met and no chain of them comes back; every dependency on an executable candidate is in the item as an ID and is emitted earlier, every ID arises so, and the order is the least topological one; each refusal has the stated cause |
| PlannerOutput.PlannableExactly | crates/sysboost-core/src/planner.rs:2890-3033 | A list that is refused has an unmet dependency, a cycle of dependencies or a refused draft |
| PlannerOutput.SortedIsEmission | crates/sysboost-core/src/plan.rs:135-159 | Collecting mutations from the items and sorting them by ID gives the emission order, numbered 1 to n |
| PlannerOutput.PlannerOutputAccepted | crates/sysboost-core/src/planner.rs:2984-3018 | What ordering emits passes the dependency layer of plan validation |
| Proposals.SelectProposals | crates/sysboost-core/src/planner.rs:2593-2630 | Succeeds exactly for valid requests without two differing proposals of highest precedence for one key, and then keeps such a proposal for every key |
| Proposals.ChosenOutranks | crates/sysboost-core/src/planner.rs:225-246 | No competing proposal outranks a chosen one, in the order profile, invocation, user, system; competitors of its source want the same operation; every proposal has a chosen competitor |
| Proposals.ChoiceIgnoresOrder | crates/sysboost-core/src/planner.rs:2593-2630 | Which operations are chosen does not depend on the order of the proposals |
| Proposals.RequiredIgnoresOrder | crates/sysboost-core/src/planner.rs:2593-2630 | For valid proposals without a clash every reordering chooses the very same proposal for a key, required flag included, exactly when the top proposals of the key agree on that flag |
| Proposals.RequiredDependsOnOrder | crates/sysboost-core/src/planner.rs:2614-2616 | Two valid proposals that differ in the required flag only do not clash, and their two orders choose different ones |
| Admission.AdmittedExactly | crates/sysboost-core/src/planner.rs:1353-1972 | A change is admitted exactly when the policy permits it, the interface is available under a valid contract, and the draft changes the known value of an identified target into the wish, by the proposed operation or by the one of the control that acts on the typed target of the case |
| Admission.TighteningIsMonotone | crates/sysboost-core/src/planner.rs:1353-1972 | What a tighter policy admits, a looser one admits unchanged |
| Planning.Resolve | crates/sysboost-core/src/planner.rs:1245-1315 | Gate, candidate map and ordering together: a plan is the ordered items of one candidate for each case, and there is none only for a reason of the gate or of ordering |
| Planning.InsertCandidate | crates/sysboost-core/src/planner.rs:2853-2888 | A candidate under a free key is filed in key order and no other is lost |
| Planning.ResolvedPlanAccepted | crates/sysboost-core/src/planner.rs:1245-1315 | The mutations of a plan resolved under any policy pass the dependency layer of plan validation |
| Planning.TighterPolicyPlansNoMore | crates/sysboost-core/src/planner.rs:1245-1315 | When both policies make a plan of the same cases, every item the tighter one changes the looser one changes in the same way under the same target identity |
| Admission.GateBuildsCandidates | crates/sysboost-core/src/planner.rs:2801-2850 | Candidates of the gate have what ordering relies on: a draft exactly when executable, then a target, and distinct dependencies |
| Admission.DefaultKindExactly | crates/sysboost-core/src/planner.rs:2379-2541 | The default operation is the one of the control that acts on the typed target of the fact and stands for the wish; there is none exactly when no operation is so |
| Admission.SatisfiedExactly | crates/sysboost-core/src/planner.rs:1353-1972 | An operation counts as satisfied exactly when its readable, unprotected interface already has the wish |
| Admission.HeldBack | crates/sysboost-core/src/planner.rs:1353-1972 | What the policy holds back of a changeable interface, and the answer given: report mode, experiments, missing opt-ins, risk above the ceiling |
| Admission.WishMeans | crates/sysboost-core/src/planner.rs:2281-2377 | The gate wishes a value exactly when the proposal or, without one, the profile asks for it |
| Admission.RequiredOrFails | crates/sysboost-core/src/planner.rs:1321-1351 | A required request fails the plan unless it is a change or already satisfied |
| Admission.SelectDescriptor | crates/sysboost-core/src/planner.rs:3051-3061 | Selects a descriptor of the capability in the best state and, among those, of the first backend |
| CpuFrequency.OrderIsSafe | crates/sysboost-linux/src/cpu.rs:1022-1025 | The chosen write order passes only through a legal range; the other order does exactly when neither range lies beyond the other |
| CpuFrequency.FrequencyPolicy.WriteFrequency | crates/sysboost-linux/src/cpu.rs:988-1058 | With writes that may fail at either file the range is legal at every point; success leaves exactly the effective range |
| CpuFrequency.FrequencyPolicy.SnapshotInternal | crates/sysboost-linux/src/cpu.rs:358-376 | A snapshot holds the legal current range, whose fingerprint is the planned precondition and which differs from the effective wish |
| CpuFrequency.FrequencyPolicy.RestoreAfterFailedApply | crates/sysboost-linux/src/cpu.rs:333-356 | Recovery from any range is itself a legal write sequence, and success means the original was written and read back |
| CpuFrequency.FrequencyPolicy.ApplyInternal | crates/sysboost-linux/src/cpu.rs:378-429 | Nothing is written unless the node of the snapshot holds the planned precondition; success leaves the effective range on that node with a bound receipt, an undisturbed call succeeds, and a retryable failure means the original is back |
| CpuFrequency.FrequencyPolicy.RestoreInternal | crates/sysboost-linux/src/cpu.rs:446-480 | Success brings back the captured range on the node of the snapshot; another node or a foreign value is left untouched; an undisturbed call on the owned value succeeds |
| CpuFrequency.FrequencyPolicy.WriteVerified | crates/sysboost-linux/src/cpu.rs:388-429 | Writes the request and reads it back: success means the effective range on the node of the snapshot, and an undisturbed call succeeds |
| Hierarchy.WriteKeepsConsistent | crates/sysboost-linux/src/workload.rs:2784-2861 | Every write keeps group keys, process keys and membership in agreement |
| Hierarchy.MoveKeepsConsistent | crates/sysboost-linux/src/workload.rs:2460-2487 | Moving a process keeps membership and placement in agreement |
| Workload.MoveBack | crates/sysboost-linux/src/workload.rs:2460-2487 | A process moved away and back leaves no trace in the hierarchy |
| Workload.RemoveCreated | crates/sysboost-linux/src/workload.rs:2381-2458 | Removing a group right after creating it leaves no trace, and fails exactly when a group lies below it |
| Workload.WriteBack | crates/sysboost-linux/src/workload.rs:2784-2861 | Writing what was read before a write gives the whole hierarchy back, for all eleven kinds |
| Workload.WriteTakesEffect | crates/sysboost-linux/src/workload.rs:2784-2861 | After a write the target reads as the desired value, or as the destination's identity for a placement, under the same identity |
| Workload.RestoreUndoesApply | crates/sysboost-linux/src/workload.rs:256-362 | After snapshot and a successful apply, restore succeeds exactly unless the new group lies above an existing one, and then every group, process, membership and value is as before |
| Workload.RestoreRefused | crates/sysboost-linux/src/workload.rs:2428-2458 | On a concrete consistent hierarchy and a constructed mutation, under every fingerprint function, snapshot and apply succeed and restore is refused |
| Workload.RestoreOutcome | crates/sysboost-linux/src/workload.rs:328-362 | Whatever happened since apply: another identity is a target error, a value that is not owned a restore conflict, both leave the hierarchy; success only on the owned value of the same target |
| Workload.ApplyOutcome | crates/sysboost-linux/src/workload.rs:281-312 | Another identity or precondition is a target error, a refused request keeps its own code, both leave the hierarchy; success exactly when the same target then reads as the desired value |
| Workload.SnapshotAnswers | crates/sysboost-linux/src/workload.rs:256-279 | A snapshot holds what was read, and is taken exactly of the planned precondition that is not yet the desired value |
| HierarchyFacts.ReadsShares | crates/sysboost-linux/src/workload.rs:2635-2706 | Weights and quota are read from the own field of a usable group, or refused with the error of the unusable one |
| HierarchyFacts.ReadsLimits | crates/sysboost-linux/src/workload.rs:2635-2706 | CPU set and clamps are read from the own field of a group usable through its controller, or refused with the error of the unusable one |
| HierarchyFacts.ReadsLifecycle | crates/sysboost-linux/src/workload.rs:2349-2369 | A lifecycle operation reads whether the child, named parent, dot, name, exists |
| HierarchyFacts.ReadsProcess | crates/sysboost-linux/src/workload.rs:2708-2740 | Process operations read nice value, I/O priority or identity of the group of a process that is there, and are refused otherwise |
| HierarchyFacts.AcceptsExactly | crates/sysboost-linux/src/workload.rs:2742-2782 | A request is accepted exactly when the desired value is that of the operation, clamps stay ordered in a usable group, and placements and lifecycle operations find theirs |
| HierarchyFacts.WritesValues | crates/sysboost-linux/src/workload.rs:2784-2861 | Each operation on a group writes its own fields and nothing else |
| HierarchyFacts.CreatesDefaults | crates/sysboost-linux/src/workload.rs:2381-2426 | A new group hangs below its parent under the next inode, inherits controllers, delegation and CPUs, and starts with the listed defaults; a bad or taken name is refused |
| HierarchyFacts.RemovesExactly | crates/sysboost-linux/src/workload.rs:2428-2458 | A group is removed, and nothing else, exactly when it is there, empty, not at the path of its parent, and no group is below it |
| HierarchyFacts.MovesOnly | crates/sysboost-linux/src/workload.rs:2460-2487 | A move changes the placement of the process and the two memberships, and nothing else |
| CgroupFixtureState.CgroupFixture.CreateGroup | crates/sysboost-linux/src/workload.rs:2381-2426 | The new map of groups is the specified one, with the inode after the largest in use |
| CgroupFixtureState.CgroupFixture.RemoveGroup | crates/sysboost-linux/src/workload.rs:2428-2458 | The group is removed, or nothing changes, as specified |
| CgroupFixtureState.CgroupFixture.Move | crates/sysboost-linux/src/workload.rs:2460-2487 | Both groups and the process change as specified, or nothing does |
| CgroupFixtureState.CgroupFixture.WriteMutation | crates/sysboost-linux/src/workload.rs:2784-2861 | The new hierarchy is the specified one and stays consistent |
| CgroupFixtureState.WorkloadBackend.SnapshotInternal | crates/sysboost-linux/src/workload.rs:256-279 | The snapshot is the specified reading |
| CgroupFixtureState.WorkloadBackend.ApplyInternal | crates/sysboost-linux/src/workload.rs:281-312 | Another target, another value than the precondition or a refused request changes nothing; success means the same target reads as the desired value, with that receipt |
| CgroupFixtureState.WorkloadBackend.RestoreInternal | crates/sysboost-linux/src/workload.rs:328-362 | Another target or a value that is not the owned one changes nothing and is refused under its own code; success means the original was written over the owned value and read back |
| CpuList.ListRoundTrip | crates/sysboost-linux/src/topology.rs:978-1044 | Parsing a printed canonical set gives the set back exactly when it has at most 1,048,576 members |
| CpuList.ParseCpuList | crates/sysboost-linux/src/topology.rs:978-1015 | The loop with its running size bound computes the specified parse |
| CpuList.RenderCpuSet | crates/sysboost-linux/src/topology.rs:1017-1036 | The loop over run ends prints the specified text |
| CpuList.RunsCover | crates/sysboost-linux/src/topology.rs:1017-1036 | The printed runs are ordered, expand to the set, and leave a gap between one and the next |
| CpuList.ListedParses | crates/sysboost-linux/src/topology.rs:978-1015 | A comma-separated list of numbers and ascending ranges is accepted exactly up to 1,048,576 members counted with repeats, and says exactly the CPUs in its ranges |
| CpuList.OnlyListsParse | crates/sysboost-linux/src/topology.rs:978-1015 | Whatever is accepted is such a list; everything else is a capability error |
| Mask.FromCpuSet | crates/sysboost-linux/src/topology.rs:683-707 | A mask exists exactly below the CPU bound, is as long as the last CPU needs, and has exactly the bits of the set |
| TopologyFacts.FromFacts | crates/sysboost-linux/src/topology.rs:142-270 | A topology is made exactly of acceptable facts; its CPUs are exactly those mentioned, one ordered record each with package, core, positive capacity, node and online threads of its facts; mode, tiers and revision follow |
| TopologyFacts.NormalizeCpu | crates/sysboost-linux/src/topology.rs:212-258 | The record of a CPU repeats its entry, with the listed threads that are online or the CPU alone, and is refused exactly when the threads cannot be read or leave the CPU out |
| TopologyFacts.AssignNuma | crates/sysboost-linux/src/topology.rs:200-210 | A CPU is assigned to a node exactly when the last record of the node that names CPUs names it; refused exactly when a CPU is on two nodes |
| TopologyFacts.ClassifyCapacities | crates/sysboost-linux/src/topology.rs:917-956 | The mode is unknown exactly when an online capacity is missing or zero or nothing is known to be online, homogeneous exactly when all agree, else heterogeneous, and only then the online CPUs of the largest capacity are performance and the other online ones efficiency |
| Topology.CoreGroups | crates/sysboost-linux/src/topology.rs:333-373 | The groups are those of the cores with an online CPU, each once, ordered by CPU set |
| Topology.SameCoreSameKey | crates/sysboost-linux/src/topology.rs:333-373 | Two CPUs share a core exactly when package and core are known and equal or, with one unknown on each side, their threads are |
| Topology.GroupsPartition | crates/sysboost-linux/src/topology.rs:333-373 | The core groups partition the online CPUs |
| Topology.GroupAgrees | crates/sysboost-linux/src/topology.rs:350-369 | A group has a NUMA node exactly when all members are on it, and a known tier exactly when all members are of it |
| Isolation.SortRanked | crates/sysboost-linux/src/topology.rs:454-474 | Sorting puts the groups in strict rank order |
| Selection.GroupsHoldCores | crates/sysboost-linux/src/topology.rs:497-536 | No thread of a core is split off: online CPUs of one core are on one side |
| Isolation.FilterSplits | crates/sysboost-linux/src/topology.rs:428-451 | Splitting by a condition and appending the rest is a permutation |
| Selection.Candidates | crates/sysboost-linux/src/topology.rs:420-452 | Preferred groups followed by the groups sharing no CPU with them are a permutation of all groups |
| Selection.SelectGroups | crates/sysboost-linux/src/topology.rs:497-508 | Takes a prefix of the ranked groups: as few as reach the request, never more than allowed, and without the last one the request is not reached |
| Selection.CappedMeansSmaller | crates/sysboost-linux/src/topology.rs:483-495 | The request is reported as reduced exactly when fewer CPUs than requested are selected |
| Selection.SelectForTarget | crates/sysboost-linux/src/topology.rs:387-559 | A plan exists exactly when online is known, there are two core groups, the request is not zero and every online CPU is below 1,048,576, and each refusal has its code; cores are taken whole, preferred node first, then performance before unknown before efficiency when asked for and proven, then by CPU numbers, until the request is reached or half the groups are taken, and not one more; workload and housekeeping are disjoint and join to online, masks and fallbacks match |
| Selection.ValidatesWhileUnchanged | crates/sysboost-linux/src/topology.rs:783-828 | A plan passes the last check exactly while revision, online set and target identity are those it was made for |

## Left out

- CpuFrequency.FrequencyPolicy.WriteFrequency: a write that reports success stores exactly the value written; a kernel that clamps the value silently would be noticed only by the readback of apply, which is modelled.
- CpuFrequency.FrequencyPolicy.ApplyInternal: nothing else writes the two files during the call; the node identity may change between reads.
- CpuFrequency.FrequencyPolicy.SnapshotInternal: the raw bytes of the files are not kept in the snapshot.
- PlannerOutput.PlannerOutputAccepted: states the result for at most 2^32 - 1 candidates, because IDs are 32-bit numbers that wrap.
- Ordering.BuildItems: the evidence, rationale and reason texts of an item are not modelled.
- Admission.AdmittedExactly: a case carries the descriptor and the contract found for it; evidence merging, the catalog lookup, the table of features and the extra target-kind test for custom requests are not modelled.
- Planning.Resolve: the enumeration of features and targets is a list of cases with distinct keys, which the table of features and the removal of repeated targets guarantee; so the branches of insertion for a key that is taken are not modelled.
- Plan.Validate: the decision items, the digests and the test for two changes of one target control are not modelled.
- Proposals.SelectProposals: the tables that name an operation and its capability are parameters.
- TopologyFacts.ClassifyCapacities: finds least and largest capacity in one pass where the source sorts and drops repeats.
- CpuList.ListRoundTrip: text is ASCII; white space beyond ASCII, which the source also trims, is not modelled.
- Selection.SelectForTarget: the constructor of the topology guarantees the precondition, which `TopologyFacts.FromFacts` establishes.
- Workload.RestoreUndoesApply: states the fixture; the production adapter ignores the desired group when it restores a placement (crates/sysboost-linux/src/workload.rs:1610-1612). The raw bytes of an observation and their 4096-byte bound are not modelled.
- CgroupFixtureState.CgroupFixture.WriteMutation: runs start from a consistent hierarchy; the setup helpers that break consistency (adding a group or process, replacing an identity) are not part of the runs.
- EncoderIO.Encoder.Kind: kinds and values are written from a table of field lists where the source has a case each; `WireFormat.KindWritten` proves the bytes case by case.
- Checksum.Compute: xor, multiplication and rotation are integer arithmetic; `ChecksumBits.ByteAbsorbed` proves what they do to the bits.
- Corruption.DamageDetected: damage that leaves the header intact and touches more than four consecutive payload bytes is not claimed to be detected, because two payloads may share a checksum.
- History.RunEvolves: the engine that decides which calls to make is not part of this model.
- File access, locks, symbolic links, fsync, process probing and capability discovery are not modelled.
- The governor, energy preference, boost and platform profile nodes of the CPU backend write one file each and would only add easy cases.
- The transaction engine, the wire protocol and the privilege service are not part of this model.
- Policy digests, plan digests, dry-run rendering and command-line parsing hold no hard property.
