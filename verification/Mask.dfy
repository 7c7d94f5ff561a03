/** CPU affinity masks: one bit for each CPU, little-endian (crates/sysboost-linux/src/topology.rs, 672-708). */
module Mask {
  import opened Outcome
  import opened Bytes
  import opened Mutation
  import opened CpuList

  const MAX_MASK_BYTES: nat := CPUSET_CAPACITY_LIMIT / 8

  /** `1 << k`. */
  function Bit(k: nat): bv8
    requires k < 8
  {
    if k == 0 then 1 else if k == 1 then 2 else if k == 2 then 4 else if k == 3 then 8
    else if k == 4 then 16 else if k == 5 then 32 else if k == 6 then 64 else 128
  }

  predicate HasBit(b: bv8, k: nat)
    requires k < 8
  {
    b & Bit(k) != 0
  }

  /** A mask holds a CPU when its bit is set. */
  predicate Holds(mask: seq<bv8>, cpu: nat) {
    cpu / 8 < |mask| && HasBit(mask[cpu / 8], cpu % 8)
  }

  lemma {:induction false} SetBit(b: bv8, k: nat, j: nat)
    requires k < 8 && j < 8
    ensures HasBit(b | Bit(k), j) <==> j == k || HasBit(b, j)
  {
  }

  lemma {:induction false} NoBits(k: nat)
    requires k < 8
    ensures !HasBit(0, k)
  {
  }

  /** `CpuAffinityMask::from_cpu_set`: as many bytes as the last CPU needs, and exactly the bits of the set. */
  method FromCpuSet(cpus: CpuSet) returns (r: Result<seq<bv8>>)
    ensures r.Ok? <==> cpus[|cpus| - 1] < CPUSET_CAPACITY_LIMIT
    ensures r.Ok? ==> |r.value| == cpus[|cpus| - 1] / 8 + 1 && forall c: nat :: Holds(r.value, c) <==> c in cpus
    ensures r.Err? ==> r.code == InvalidInput
  {
    var bytes := cpus[|cpus| - 1] / 8 + 1;
    if bytes > MAX_MASK_BYTES {
      return Err(InvalidInput);
    }
    var output: array<bv8> := new bv8[bytes](_ => 0);
    forall c: nat ensures !Holds(output[..], c) {
      if c / 8 < bytes {
        NoBits(c % 8);
      }
    }
    for i := 0 to |cpus|
      invariant forall c: nat :: Holds(output[..], c) <==> c in cpus[..i]
    {
      var cpu := cpus[i];
      ghost var before := output[..];
      output[cpu / 8] := output[cpu / 8] | Bit(cpu % 8);
      forall c: nat ensures Holds(output[..], c) <==> c in cpus[..i + 1] {
        OneMore(before, output[..], cpu, c);
        assert cpus[..i + 1] == cpus[..i] + [cpu];
      }
    }
    assert cpus[..|cpus|] == cpus;
    r := Ok(output[..]);
  }

  /** Setting the bit of one CPU adds that CPU and no other. */
  lemma {:induction false} OneMore(before: seq<bv8>, after: seq<bv8>, cpu: nat, c: nat)
    requires cpu / 8 < |before|
    requires after == before[cpu / 8 := before[cpu / 8] | Bit(cpu % 8)]
    ensures Holds(after, c) <==> c == cpu || Holds(before, c)
  {
    if c / 8 == cpu / 8 {
      SetBit(before[cpu / 8], cpu % 8, c % 8);
    }
  }
}
