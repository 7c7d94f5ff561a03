/**
  Writing a session record to a checksummed file image and reading it back
  (crates/sysboost-core/src/transaction.rs, 474-568): the routines over the encoder and decoder
  compute the functions whose round trip module CodecWire proves.
 */
module StateFile {
  import opened Outcome
  import opened Bytes
  import opened Session
  import opened CodecWire
  import opened EncoderIO
  import opened DecoderIO
  import opened RecordIO
  import opened SessionRecordState
  import Checksum
  import Wire

  method WritePayload(value: Record) returns (r: Result<seq<byte>>)
    ensures r == PutPayload(value)
  {
    var e := new Encoder();
    var done := EncodePayload(e, value);
    Written(e.bytes, PutPayload(value), done);
    r := if done.Err? then Err(done.code) else Ok(e.bytes);
  }

  /** What was appended to an empty buffer is the whole buffer. */
  lemma {:induction false} Written(after: seq<byte>, bits: Wire.Bits, done: Result<Unit>)
    requires Appends([], after, bits, done)
    ensures bits == if done.Err? then Err(done.code) else Ok(after)
  {
    assert bits.Ok? ==> [] + bits.value == bits.value;
  }

  /** Magic, version, payload length, payload and checksum, one after the other. */
  method WriteFrame(payload: seq<byte>) returns (output: seq<byte>)
    ensures output == Frame(payload)
  {
    output := MAGIC;
    output := output + BigEndian(VERSION, 2);
    output := output + BigEndian(|payload|, 4);
    output := output + payload;
    var digest := Checksum.Compute(payload);
    output := output + digest;
  }

  /** `SessionRecord::encode`. */
  method EncodeRecord(record: SessionRecord) returns (r: Result<seq<byte>>)
    ensures r == Encode(record.Value())
  {
    var valid := record.ValidateForSerialization();
    if valid.Err? {
      return Err(valid.code);
    }
    var payload :- WritePayload(record.Value());
    var total := |MAGIC| + 2 + 4 + |payload| + 32;
    if total > MAX_SESSION_RECORD_BYTES {
      return Err(DurabilityError);
    }
    var output := WriteFrame(payload);
    r := Ok(output);
  }

  /** The checked payload of a file image. */
  method OpenFrame(bytes: seq<byte>) returns (r: Result<seq<byte>>)
    ensures r == Unframe(bytes)
  {
    if |bytes| > MAX_SESSION_RECORD_BYTES || |bytes| < |MAGIC| + 2 + 4 + 32 {
      return Err(JournalCorrupt);
    }
    if bytes[..|MAGIC|] != MAGIC {
      return Err(JournalCorrupt);
    }
    if FromBigEndian(bytes[8..10]) != VERSION {
      return Err(JournalCorrupt);
    }
    var start := |MAGIC| + 2 + 4;
    var end := start + FromBigEndian(bytes[10..14]);
    if end + 32 != |bytes| {
      return Err(JournalCorrupt);
    }
    var payload := bytes[start..end];
    var digest := Checksum.Compute(payload);
    if digest != bytes[end..] {
      return Err(JournalCorrupt);
    }
    r := Ok(payload);
  }

  /** `SessionRecord::decode`. */
  method DecodeRecord(bytes: seq<byte>) returns (r: Result<SessionRecord>)
    ensures match Decode(bytes)
            case Ok(value) => r.Ok? && fresh(r.value) && r.value.Value() == value
            case Err(code) => r == Err(code)
  {
    var payload :- OpenFrame(bytes);
    var d := new Decoder(payload);
    var value :- DecodePayload(d);
    var finished := d.Finish();
    if !finished {
      return Err(JournalCorrupt);
    }
    var record := new SessionRecord(value);
    var valid := record.ValidateForSerialization();
    if valid.Err? {
      return Err(valid.code);
    }
    r := Ok(record);
  }
}
