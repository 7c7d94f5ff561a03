/**
  Damage to a state file is detected (crates/sysboost-core/src/transaction.rs, 511-540 and
  1959-1981).  The claims are about the kinds of damage the checksum is for: local changes,
  truncation and extension; two unrelated payloads may of course share a checksum.
 */
module Corruption {
  import opened Outcome
  import opened Bytes
  import opened Session
  import opened CodecWire
  import Checksum

  /** Only positions `start`, `start + 1`, ..., `start + count - 1` differ. */
  predicate DiffersWithin(f: seq<byte>, b: seq<byte>, start: nat, count: nat) {
    |f| == |b| && forall i :: 0 <= i < |f| && !(start <= i < start + count) ==> f[i] == b[i]
  }

  lemma {:induction false} SameLengthField(b: seq<byte>, payload: seq<byte>)
    requires Unframe(b).Ok? && |b| >= HEADER_BYTES && b[10..14] == Frame(payload)[10..14]
    requires |payload| < Pow256(4)
    ensures |b| == |Frame(payload)|
  {
    FrameParts(payload);
    FromToBigEndian(|payload|, 4);
  }

  /**
    The files the frame check accepts among those as long as a given frame: the header is intact, and
    either nothing changed or the payload did and its checksum field holds the digest of the new payload.
   */
  lemma {:induction false} AcceptedFrame(b: seq<byte>, payload: seq<byte>)
    requires |b| == |Frame(payload)| && Unframe(b).Ok?
    ensures b[..14] == Frame(payload)[..14]
    ensures |Unframe(b).value| == |payload|
    ensures b[14..14 + |payload|] == Unframe(b).value
    ensures b[14 + |payload|..] == Checksum.Digest(Unframe(b).value)
  {
    FrameUnframe(b);
    FrameParts(payload);
    FrameParts(Unframe(b).value);
    var f := Frame(payload);
    assert b[..14] == b[..8] + b[8..10] + b[10..14];
    assert f[..14] == f[..8] + f[8..10] + f[10..14];
  }

  /** Any burst of at most four bytes, anywhere in a framed file, is rejected. */
  lemma {:induction false} BurstRejected(payload: seq<byte>, b: seq<byte>, start: nat)
    requires b != Frame(payload)
    requires DiffersWithin(Frame(payload), b, start, 4)
    requires HEADER_BYTES <= start && start + 4 <= HEADER_BYTES + |payload|
    ensures Unframe(b).Err?
  {
    if Unframe(b).Ok? {
      var f, q := Frame(payload), Unframe(b).value;
      FrameParts(payload);
      AcceptedFrame(b, payload);
      assert f[14 + |payload|..] == b[14 + |payload|..];
      forall i | 0 <= i < |payload| && !(start - 14 <= i < start - 10)
        ensures payload[i] == q[i]
      {
        assert payload[i] == f[14 + i] && q[i] == b[14 + i];
      }
      if payload == q {
        FrameUnframe(b);
      } else {
        Checksum.BurstChangesDigest(payload, q, start - 14);
      }
    }
  }

  /** One changed byte anywhere in a framed file is rejected. */
  lemma {:induction false} ByteRejected(payload: seq<byte>, b: seq<byte>, at: nat)
    requires b != Frame(payload)
    requires DiffersWithin(Frame(payload), b, at, 1)
    ensures Unframe(b).Err?
  {
    if Unframe(b).Ok? {
      var f, q := Frame(payload), Unframe(b).value;
      FrameParts(payload);
      AcceptedFrame(b, payload);
      if 14 <= at < 14 + |payload| {
        assert f[14 + |payload|..] == b[14 + |payload|..];
        forall i | 0 <= i < |payload| && i != at - 14
          ensures payload[i] == q[i]
        {
          assert payload[i] == f[14 + i] && q[i] == b[14 + i];
        }
        if payload == q {
          FrameUnframe(b);
        } else {
          Checksum.BurstChangesDigest(payload, q, at - 14);
        }
      } else {
        UntouchedPayload(payload, b);
      }
    }
  }

  /** Damage outside the payload leaves nothing that the frame check could accept but the frame itself. */
  lemma {:induction false} UntouchedPayload(payload: seq<byte>, b: seq<byte>)
    requires |b| == |Frame(payload)| && Unframe(b).Ok?
    requires b[14..14 + |payload|] == payload
    ensures b == Frame(payload)
  {
    AcceptedFrame(b, payload);
    FrameUnframe(b);
  }

  /** A file cut short or continued is rejected. */
  lemma {:induction false} ResizeRejected(payload: seq<byte>, b: seq<byte>)
    requires b != Frame(payload) && |payload| < Pow256(4)
    requires b <= Frame(payload) || Frame(payload) <= b
    ensures Unframe(b).Err?
  {
    if Unframe(b).Ok? {
      var f := Frame(payload);
      assert b[10..14] == f[10..14];
      SameLengthField(b, payload);
    }
  }

  /**
    A damaged copy `b` of the state file `f`: cut short, continued, changed in one byte, within four consecutive
    payload bytes, anywhere as long as the header is hit, or anywhere as long as the payload is spared.
   */
  predicate Damaged(f: seq<byte>, b: seq<byte>) {
    && b != f
    && (|| b <= f || f <= b
        || (exists at :: 0 <= at < |f| && DiffersWithin(f, b, at, 1))
        || (exists start :: HEADER_BYTES <= start <= |f| - CHECKSUM_BYTES - 4 && DiffersWithin(f, b, start, 4))
        || HeaderHit(f, b) || PayloadSpared(f, b))
  }

  predicate HeaderHit(f: seq<byte>, b: seq<byte>) {
    |b| == |f| && |f| >= HEADER_BYTES && b[..HEADER_BYTES] != f[..HEADER_BYTES]
  }

  predicate PayloadSpared(f: seq<byte>, b: seq<byte>) {
    && |b| == |f| && |f| >= HEADER_BYTES + CHECKSUM_BYTES
    && b[HEADER_BYTES..|f| - CHECKSUM_BYTES] == f[HEADER_BYTES..|f| - CHECKSUM_BYTES]
  }

  lemma {:induction false} HeaderOrChecksumRejected(payload: seq<byte>, b: seq<byte>)
    requires b != Frame(payload)
    requires HeaderHit(Frame(payload), b) || PayloadSpared(Frame(payload), b)
    ensures Unframe(b).Err?
  {
    if Unframe(b).Ok? {
      AcceptedFrame(b, payload);
      FrameParts(payload);
      if PayloadSpared(Frame(payload), b) {
        UntouchedPayload(payload, b);
      }
    }
  }

  lemma {:induction false} DamagedFrameRejected(payload: seq<byte>, b: seq<byte>)
    requires |payload| < Pow256(4) && Damaged(Frame(payload), b)
    ensures Unframe(b).Err?
  {
    var f := Frame(payload);
    if b <= f || f <= b {
      ResizeRejected(payload, b);
    } else if HeaderHit(f, b) || PayloadSpared(f, b) {
      HeaderOrChecksumRejected(payload, b);
    } else if at :| 0 <= at < |f| && DiffersWithin(f, b, at, 1) {
      ByteRejected(payload, b, at);
    } else {
      var start :| HEADER_BYTES <= start <= |f| - CHECKSUM_BYTES - 4 && DiffersWithin(f, b, start, 4);
      BurstRejected(payload, b, start);
    }
  }

  /** Every damaged copy of an encoded record is reported as a corrupt journal. */
  lemma {:induction false} DamageDetected(r: Record, b: seq<byte>)
    ensures Encode(r).Ok? && Damaged(Encode(r).value, b) ==> Decode(b) == Err(JournalCorrupt)
  {
    if Encode(r).Ok? && Damaged(Encode(r).value, b) {
      var payload := EncodeFrames(r);
      DamagedFrameRejected(payload, b);
      DecodeNeedsFrame(b);
    }
  }
}
