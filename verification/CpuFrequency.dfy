/**
  Compare-and-restore of a CPU frequency range (crates/sysboost-linux/src/cpu.rs, 207-299, 325-485 and
  990-1058).  The two kernel files are cells whose accesses may fail; a write that reports a failure
  may or may not have reached its cell.  Nothing else writes the cells during a call.  The fingerprint
  is any function of the typed value.
 */
module CpuFrequency {
  import opened Outcome
  import opened Bytes
  import opened Mutation
  import opened Session

  datatype Range = Range(min: FrequencyKHz, max: FrequencyKHz)

  predicate Legal(r: Range) { r.min <= r.max }

  function Typed(r: Range): TypedValue { FrequencyValue(Some(r.min), Some(r.max)) }

  function Or(wanted: Option<FrequencyKHz>, current: FrequencyKHz): FrequencyKHz {
    if wanted.Some? then wanted.value else current
  }

  /** `effective_desired`: a bound that is not requested stays as it is. */
  function Effective(desired: TypedValue, current: Range): Range
    requires desired.FrequencyValue?
  {
    Range(Or(desired.minKhz, current.min), Or(desired.maxKhz, current.max))
  }

  /** Both bounds are requested, the wrong way round. */
  predicate Inverted(desired: TypedValue) {
    && desired.FrequencyValue? && desired.minKhz.Some? && desired.maxKhz.Some?
    && desired.minKhz.value > desired.maxKhz.value
  }

  datatype NodeState = NodeState(range: Range, fingerprint: Fingerprint, identity: Bytes16)

  datatype Retryability = Retry | Unknown

  datatype ApplyOutcome =
    | Applied(receipt: ApplyReceipt)
    | Refused(code: ErrorCode)
    | Failed(code: ErrorCode, retry: Retryability)

  // ----- which file has to be written first

  /** `min_first`: the minimum is written first when the new maximum lies below the current minimum. */
  predicate MinFirst(current: Range, desired: Range) {
    desired.max < current.min
  }

  /** The range between the two writes. */
  function Between(current: Range, desired: Range, minFirst: bool): Range {
    if minFirst then Range(desired.min, current.max) else Range(current.min, desired.max)
  }

  /** Between two legal ranges, the order of the code passes through a legal range; the opposite order does so
      exactly when neither range lies wholly beyond the other. */
  lemma {:induction false} OrderIsSafe(current: Range, desired: Range)
    requires Legal(current) && Legal(desired)
    ensures Legal(Between(current, desired, MinFirst(current, desired)))
    ensures Legal(Between(current, desired, !MinFirst(current, desired)))
            <==> !(desired.max < current.min) && !(current.max < desired.min)
  {
  }

  class FrequencyPolicy {
    const fingerprint: TypedValue -> Fingerprint
    var range: Range
    /** Every range the kernel has held since the object was made. */
    ghost var held: seq<Range>
    /** The identity of the node at every read that succeeded. */
    ghost var seen: seq<Bytes16>
    /** How many accesses have failed and requests have been outside the bounds of the kernel. */
    ghost var faults: nat

    constructor (fingerprint: TypedValue -> Fingerprint, range: Range)
      ensures this.fingerprint == fingerprint && this.range == range && held == [range] && seen == [] && faults == 0
    {
      faults := 0;
      this.fingerprint := fingerprint;
      this.range := range;
      held := [range];
      seen := [];
    }

    /** The kernel holds a legal range and always has. */
    ghost predicate AlwaysLegal()
      reads this
    {
      Legal(range) && forall i :: 0 <= i < |held| ==> Legal(held[i])
    }

    function Print(): Fingerprint
      reads this
    {
      fingerprint(Typed(range))
    }

    /** Writes `scaling_min_freq`. */
    method WriteMin(khz: FrequencyKHz) returns (r: Result<Unit>)
      modifies this`range, this`held, this`faults
      ensures range == Range(khz, old(range.max)) || (r.Err? && range == old(range))
      ensures faults == if r.Ok? then old(faults) else old(faults) + 1
      ensures held == old(held) + [range]
    {
      var reached, reported := *, *;
      if reached {
        range := Range(khz, range.max);
      }
      held := held + [range];
      if !(reached && reported) {
        faults := faults + 1;
      }
      r := if reached && reported then Ok(Unit) else Err(ApplyError);
    }

    /** Writes `scaling_max_freq`. */
    method WriteMax(khz: FrequencyKHz) returns (r: Result<Unit>)
      modifies this`range, this`held, this`faults
      ensures range == Range(old(range.min), khz) || (r.Err? && range == old(range))
      ensures faults == if r.Ok? then old(faults) else old(faults) + 1
      ensures held == old(held) + [range]
    {
      var reached, reported := *, *;
      if reached {
        range := Range(range.min, khz);
      }
      held := held + [range];
      if !(reached && reported) {
        faults := faults + 1;
      }
      r := if reached && reported then Ok(Unit) else Err(ApplyError);
    }

    /** Reads both files; the node may have been replaced by one of another identity. */
    method Read() returns (r: Result<NodeState>)
      modifies this`seen, this`faults
      ensures r.Ok? ==> r.value.range == range && r.value.fingerprint == Print()
      ensures seen == if r.Ok? then old(seen) + [r.value.identity] else old(seen)
      ensures faults == if r.Ok? then old(faults) else old(faults) + 1
      ensures r.Err? ==> r.code == TargetError
    {
      var readable: bool := *;
      var identity: Bytes16 := *;
      if readable {
        seen := seen + [identity];
      } else {
        faults := faults + 1;
      }
      r := if readable then Ok(NodeState(range, fingerprint(Typed(range)), identity)) else Err(TargetError);
    }

    /** The kernel's own bounds may refuse a request. */
    method ValidateDesired(desired: TypedValue) returns (r: Result<Unit>)
      modifies this`faults
      ensures faults >= old(faults)
      ensures r.Ok? ==> desired.FrequencyValue? && !Inverted(desired)
      ensures r.Err? ==> r.code == TargetError && (!desired.FrequencyValue? || Inverted(desired) || faults > old(faults))
    {
      if desired.FrequencyValue? {
        if desired.minKhz.Some? && desired.maxKhz.Some? && desired.minKhz.value > desired.maxKhz.value {
          return Err(TargetError);
        }
      }
      var withinBounds := *;
      if !withinBounds {
        faults := faults + 1;
      }
      r := if desired.FrequencyValue? && withinBounds then Ok(Unit) else Err(TargetError);
    }

    /** `write_frequency`. */
    method WriteFrequency(desired: TypedValue) returns (r: Result<Unit>)
      modifies this
      ensures old(AlwaysLegal()) ==> AlwaysLegal()
      ensures r.Ok? ==> desired.FrequencyValue? && range == Effective(desired, old(range)) && Legal(range)
      ensures desired.FrequencyValue? ==>
                && range.min in {old(range).min, Effective(desired, old(range)).min}
                && range.max in {old(range).max, Effective(desired, old(range)).max}
      ensures !desired.FrequencyValue? ==> range == old(range)
      ensures r.Ok? ==> range == Range(if desired.minKhz.Some? then desired.minKhz.value else old(range).min,
                                       if desired.maxKhz.Some? then desired.maxKhz.value else old(range).max)
      ensures old(held) <= held && |held| <= |old(held)| + 2
      ensures old(seen) <= seen && faults >= old(faults)
      ensures desired.FrequencyValue? && Legal(Effective(desired, old(range))) ==> r.Ok? || faults > old(faults)
    {
      if !desired.FrequencyValue? {
        return Err(TargetError);
      }
      var current :- Read();
      if desired.minKhz.Some? && desired.maxKhz.Some? && desired.minKhz.value > desired.maxKhz.value {
        return Err(TargetError);
      }
      var wanted := Effective(desired, current.range);
      if wanted.min > wanted.max {
        return Err(TargetError);
      }
      if old(AlwaysLegal()) {
        OrderIsSafe(current.range, wanted);
      }
      if wanted.max < current.range.min {
        if wanted.min != current.range.min {
          var done :- WriteMin(wanted.min);
        }
        if wanted.max != current.range.max {
          var done :- WriteMax(wanted.max);
        }
      } else {
        if wanted.max != current.range.max {
          var done :- WriteMax(wanted.max);
        }
        if wanted.min != current.range.min {
          var done :- WriteMin(wanted.min);
        }
      }
      r := Ok(Unit);
    }

    /** `snapshot_internal` with the checks of `validate_state`. */
    method SnapshotInternal(m: PlannedMutation, now: u128) returns (r: Result<Snapshot>)
      requires m.kind.CpuFrequency? && Constructed(m)
      modifies this`seen, this`faults
      ensures r.Err? && faults == old(faults) && |seen| > |old(seen)| && IsIdentified(seen[|old(seen)|]) ==>
        Print() != m.precondition || !Legal(range) || Effective(m.desired, range) == range
      ensures r.Ok? ==> seen == old(seen) + [r.value.identity] && r.value.equality == ScalarExact && r.value.capturedAt == now
      ensures r.Ok? ==> && r.value.id == m.id && r.value.target == m.target
                        && r.value.typed == Typed(range) && Legal(range) && IsIdentified(r.value.identity)
                        && r.value.fingerprint == Print() == m.precondition
                        && Effective(m.desired, range) != range
    {
      var state :- Read();
      var identified := exists i :: 0 <= i < |state.identity| && state.identity[i] != 0;
      if !identified || state.fingerprint != fingerprint(Typed(state.range)) {
        return Err(TargetError);
      }
      if state.fingerprint != m.precondition {
        return Err(TargetError);
      }
      if state.range.min > state.range.max {
        return Err(TargetError);
      }
      if Effective(m.desired, state.range) == state.range {
        return Err(InvariantViolation);
      }
      r := Ok(Snapshot(m.id, m.target, [], Typed(state.range), state.fingerprint, ScalarExact, state.identity, now));
    }

    /** The original is back: its typed value was written and its fingerprint was read. */
    predicate HoldsOriginal(s: Snapshot)
      reads this
    {
      && Print() == s.fingerprint
      && s.typed.FrequencyValue? && Effective(s.typed, range) == range
    }

    /** No access failed in the call, and every read found the node of the snapshot. */
    twostate predicate Undisturbed(s: Snapshot)
      reads this
    {
      faults == old(faults) && forall i :: |old(seen)| <= i < |seen| ==> seen[i] == s.identity
    }

    /** Nothing was written unless the first read of the call found the node of the snapshot. */
    twostate predicate GuardedBy(s: Snapshot)
      reads this
    {
      && old(seen) <= seen && faults >= old(faults)
      && (held != old(held) || range != old(range) ==> |seen| > |old(seen)| && seen[|old(seen)|] == s.identity)
    }

    /** The first and the last read of the call found the node of the snapshot. */
    twostate predicate SameNode(s: Snapshot)
      reads this
    {
      && old(seen) <= seen && |seen| >= |old(seen)| + 2
      && seen[|old(seen)|] == s.identity && seen[|seen| - 1] == s.identity
    }

    /** From this range the original can be written, and then has the fingerprint of the snapshot. */
    predicate Restorable(s: Snapshot, from: Range) {
      && s.typed.FrequencyValue? && Legal(Effective(s.typed, from))
      && fingerprint(Typed(Effective(s.typed, from))) == s.fingerprint
    }

    /** `restore_after_failed_apply`. */
    method RestoreAfterFailedApply(s: Snapshot) returns (r: Result<Unit>)
      modifies this
      ensures GuardedBy(s) && (r.Ok? ==> SameNode(s))
      ensures Undisturbed(s) && Restorable(s, old(range)) ==> r.Ok?
      ensures old(AlwaysLegal()) ==> AlwaysLegal()
      ensures old(held) <= held
      ensures r.Ok? ==> HoldsOriginal(s)
    {
      var current :- Read();
      assert seen[|old(seen)|] == current.identity;
      if current.identity != s.identity {
        return Err(TargetError);
      }
      var written :- WriteFrequency(s.typed);
      var restored :- Read();
      assert seen[|seen| - 1] == restored.identity;
      if restored.identity != s.identity || restored.fingerprint != s.fingerprint {
        return Err(RestoreError);
      }
      r := Ok(Unit);
    }

    method Recover(s: Snapshot, code: ErrorCode) returns (r: ApplyOutcome)
      modifies this
      ensures GuardedBy(s) && (r.Failed? && r.retry.Retry? ==> SameNode(s))
      ensures old(AlwaysLegal()) ==> AlwaysLegal()
      ensures old(held) <= held
      ensures r.Failed? && r.code == code && (r.retry.Retry? ==> HoldsOriginal(s))
    {
      var recovery := RestoreAfterFailedApply(s);
      r := Failed(code, if recovery.Ok? then Retry else Unknown);
    }

    /** The middle of `apply_internal`: writes the request and reads it back from the same node. */
    method WriteVerified(desired: TypedValue, wanted: Range, s: Snapshot) returns (r: Result<Fingerprint>)
      requires desired.FrequencyValue? && wanted == Effective(desired, range)
      modifies this
      ensures old(AlwaysLegal()) ==> AlwaysLegal()
      ensures old(held) <= held && old(seen) <= seen && faults >= old(faults)
      ensures r.Ok? ==> range == Effective(desired, old(range)) && Legal(range) && r.value == Print()
      ensures r.Ok? ==> |seen| > |old(seen)| && seen[|seen| - 1] == s.identity
      ensures Undisturbed(s) && Legal(Effective(desired, old(range))) ==> r.Ok?
    {
      var written :- WriteFrequency(desired);
      var after :- Read();
      assert seen[|seen| - 1] == after.identity;
      if after.identity != s.identity || after.fingerprint != fingerprint(Typed(wanted)) {
        return Err(VerificationError);
      }
      r := Ok(after.fingerprint);
    }

    /** `apply_internal`. */
    method ApplyInternal(m: PlannedMutation, s: Snapshot) returns (r: ApplyOutcome)
      requires m.kind.CpuFrequency? && Constructed(m)
      modifies this
      ensures GuardedBy(s)
      ensures r.Applied? || (r.Failed? && r.retry.Retry?) ==> SameNode(s)
      ensures old(Print()) != m.precondition ==> r.Refused?
      ensures Undisturbed(s) && old(Print()) == m.precondition && Legal(Effective(m.desired, old(range))) ==> r.Applied?
      ensures |seen| > |old(seen)| && seen[|old(seen)|] != s.identity ==> r == Refused(TargetError)
      ensures old(AlwaysLegal()) ==> AlwaysLegal()
      ensures old(held) <= held
      ensures r.Applied? ==>
                && range == Effective(m.desired, old(range)) && Legal(range)
                && r.receipt == ApplyReceipt(m.id, old(Print()), Print(), Print())
                && old(Print()) == m.precondition
                && ApplyBound(m, r.receipt)
      ensures r.Refused? ==> range == old(range) && held == old(held)
      ensures r.Failed? && r.retry.Retry? ==> HoldsOriginal(s) && (s.typed == Typed(old(range)) ==> range == old(range))
    {
      var current := Read();
      if current.Err? {
        return Refused(current.code);
      }
      assert seen[|old(seen)|] == current.value.identity;
      if current.value.identity != s.identity || current.value.fingerprint != m.precondition {
        return Refused(TargetError);
      }
      var accepted := ValidateDesired(m.desired);
      if accepted.Err? {
        return Refused(accepted.code);
      }
      var written := WriteVerified(m.desired, Effective(m.desired, current.value.range), s);
      if written.Err? {
        r := Recover(s, written.code);
        return;
      }
      r := Applied(ApplyReceipt(m.id, current.value.fingerprint, written.value, written.value));
    }

    /** `restore_internal`. */
    method RestoreInternal(m: PlannedMutation, s: Snapshot, ownership: Fingerprint) returns (r: Result<RestoreReceipt>)
      modifies this
      ensures GuardedBy(s) && (r.Ok? ==> SameNode(s))
      ensures |seen| > |old(seen)| && seen[|old(seen)|] != s.identity ==> r == Err(TargetError)
      ensures |seen| > |old(seen)| && seen[|old(seen)|] == s.identity && old(Print()) != ownership ==>
                r == Err(RestoreConflict)
      ensures Undisturbed(s) && old(Print()) == ownership && Restorable(s, old(range)) ==> r.Ok?
      ensures old(AlwaysLegal()) ==> AlwaysLegal()
      ensures old(held) <= held
      ensures r.Ok? ==> HoldsOriginal(s) && r.value == RestoreReceipt(m.id, s.fingerprint, true)
      ensures r.Ok? ==> forall original :: s.typed == Typed(original) ==> range == original
      ensures old(Print()) != ownership ==> r.Err? && range == old(range) && held == old(held)
    {
      var current :- Read();
      assert seen[|old(seen)|] == current.identity;
      if current.identity != s.identity {
        return Err(TargetError);
      }
      if current.fingerprint != ownership {
        return Err(RestoreConflict);
      }
      var written :- WriteFrequency(s.typed);
      var restored :- Read();
      assert seen[|seen| - 1] == restored.identity;
      if restored.identity != s.identity || restored.fingerprint != s.fingerprint {
        return Err(RestoreError);
      }
      r := Ok(RestoreReceipt(m.id, restored.fingerprint, true));
    }
  }
}
