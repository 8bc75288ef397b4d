/** Record framing (internal/protocol/protocol.go). */
module Protocol {
  import opened Prelude

  const MAX_RECORD_PLAINTEXT := 65519
  const CHUNK_PAYLOAD_SIZE := MAX_RECORD_PLAINTEXT - 1 - 13
  const TAG_ENVELOPE: Byte := 1
  const TAG_CHUNK: Byte := 2

  type UInt64 = n: int | 0 <= n < 0x1_0000_0000_0000_0000
  type UInt32 = n: int | 0 <= n < 0x1_0000_0000

  datatype MsgType =
    | SessionStart | Blob | SyncDone | Prompt | Interrupt | SessionEnd
    | SessionReady | SyncRequest | StreamEvent | FileChanged | TurnDone | Error

  /** An envelope; `streamId` is the field the two content-announcing payloads carry. */
  datatype Envelope = Envelope(typ: MsgType, streamId: UInt64, data: Bytes)

  datatype Record =
    | EnvelopeRecord(env: Envelope)
    | ChunkRecord(streamId: UInt64, seqNo: UInt32, final: bool, payload: Bytes)

  // ---- Big-endian integers ----

  function Pow256(w: nat): nat {
    if w == 0 then 1 else 256 * Pow256(w - 1)
  }

  function BigEndian(n: nat, w: nat): (b: Bytes)
    ensures |b| == w
  {
    if w == 0 then [] else BigEndian(n / 256, w - 1) + [n % 256]
  }

  function FromBigEndian(b: Bytes): nat {
    if b == [] then 0 else FromBigEndian(b[..|b| - 1]) * 256 + b[|b| - 1]
  }

  lemma {:induction false} FromBigEndianBound(b: Bytes)
    ensures FromBigEndian(b) < Pow256(|b|)
  {
    if b != [] { FromBigEndianBound(b[..|b| - 1]); }
  }

  lemma {:induction false} BigEndianRoundTrip(n: nat, w: nat)
    requires n < Pow256(w)
    ensures FromBigEndian(BigEndian(n, w)) == n
  {
    if w > 0 {
      BigEndianRoundTrip(n / 256, w - 1);
      assert BigEndian(n, w)[..w - 1] == BigEndian(n / 256, w - 1);
    }
  }

  lemma {:induction false} FromBigEndianRoundTrip(b: Bytes)
    ensures BigEndian(FromBigEndian(b), |b|) == b
  {
    if b != [] {
      FromBigEndianRoundTrip(b[..|b| - 1]);
      assert b == b[..|b| - 1] + [b[|b| - 1]];
    }
  }

  lemma Widths()
    ensures Pow256(8) == 0x1_0000_0000_0000_0000
    ensures Pow256(4) == 0x1_0000_0000
  {
    assert Pow256(2) == 65536;
    assert Pow256(4) == 256 * (256 * Pow256(2));
    assert Pow256(6) == 256 * (256 * Pow256(4));
    assert Pow256(8) == 256 * (256 * Pow256(6));
  }

  function ReadUInt64(b: Bytes): UInt64
    requires |b| == 8
  {
    FromBigEndianBound(b);
    Widths();
    FromBigEndian(b)
  }

  function ReadUInt32(b: Bytes): UInt32
    requires |b| == 4
  {
    FromBigEndianBound(b);
    Widths();
    FromBigEndian(b)
  }

  // ---- Envelopes: an injective byte form standing for JSON ----

  function TypeCode(t: MsgType): Byte {
    match t
    case SessionStart => 1 case Blob => 2 case SyncDone => 3 case Prompt => 4
    case Interrupt => 5 case SessionEnd => 6 case SessionReady => 7 case SyncRequest => 8
    case StreamEvent => 9 case FileChanged => 10 case TurnDone => 11 case Error => 12
  }

  const TYPES: seq<MsgType> :=
    [SessionStart, Blob, SyncDone, Prompt, Interrupt, SessionEnd,
     SessionReady, SyncRequest, StreamEvent, FileChanged, TurnDone, Error]

  function Marshal(env: Envelope): Bytes {
    [TypeCode(env.typ)] + BigEndian(env.streamId, 8) + env.data
  }

  function Unmarshal(b: Bytes): Result<Envelope> {
    if |b| < 9 || b[0] == 0 || b[0] > 12 then Err("json: malformed envelope")
    else Ok(Envelope(TYPES[b[0] - 1], ReadUInt64(b[1..9]), b[9..]))
  }

  /** Whether a payload is JSON of its message type's shape, of which only the type is known. */
  const Parses: (MsgType, Bytes) -> bool

  predicate Announces(t: MsgType) {
    t == Blob || t == FileChanged
  }

  /** The content stream an envelope announces, 0 when it carries no content; only announcing payloads are parsed. */
  function StreamIdOf(env: Envelope): Result<UInt64> {
    if !Announces(env.typ) then Ok(0)
    else if Parses(env.typ, env.data) then Ok(env.streamId)
    else Err("json: malformed payload")
  }

  predicate Fits(env: Envelope) {
    |Marshal(env)| + 1 <= MAX_RECORD_PLAINTEXT
  }

  function Tagged(env: Envelope): Bytes {
    [TAG_ENVELOPE] + Marshal(env)
  }

  function EncodeEnvelope(env: Envelope): Result<Bytes> {
    if Fits(env) then Ok(Tagged(env))
    else Err("protocol: envelope exceeds max record size")
  }

  // ---- Chunks and decoding ----

  function EncodeChunk(streamId: UInt64, seqNo: UInt32, final: bool, payload: Bytes): Bytes {
    [TAG_CHUNK] + BigEndian(streamId, 8) + BigEndian(seqNo, 4) + [if final then 1 else 0] + payload
  }

  function DecodeRecord(b: Bytes): Result<Record> {
    if |b| == 0 then Err("protocol: empty record")
    else if b[0] == TAG_ENVELOPE then
      var env :- Unmarshal(b[1..]);
      Ok(EnvelopeRecord(env))
    else if b[0] == TAG_CHUNK then
      if |b| < 14 then Err("protocol: short chunk header")
      else Ok(ChunkRecord(ReadUInt64(b[1..9]), ReadUInt32(b[9..13]), b[13] == 1, b[14..]))
    else Err("protocol: unknown record tag")
  }

  /** Decoding undoes chunk encoding for every id, sequence number, flag and payload. */
  lemma DecodeEncodeChunk(streamId: UInt64, seqNo: UInt32, final: bool, payload: Bytes)
    ensures DecodeRecord(EncodeChunk(streamId, seqNo, final, payload)) ==
      Ok(ChunkRecord(streamId, seqNo, final, payload))
    ensures |EncodeChunk(streamId, seqNo, final, payload)| == 14 + |payload|
  {
    var b := EncodeChunk(streamId, seqNo, final, payload);
    Widths();
    BigEndianRoundTrip(streamId, 8);
    BigEndianRoundTrip(seqNo, 4);
    assert b[1..9] == BigEndian(streamId, 8);
    assert b[9..13] == BigEndian(seqNo, 4);
    assert b[14..] == payload;
  }

  /** An envelope record decodes to the envelope sent; encoding is refused exactly above the bound. */
  lemma DecodeEncodeEnvelope(env: Envelope)
    ensures EncodeEnvelope(env).Ok? <==> |env.data| + 10 <= 65519
    ensures EncodeEnvelope(env).Ok? ==> DecodeRecord(EncodeEnvelope(env).value) == Ok(EnvelopeRecord(env))
  {
    var m := Marshal(env);
    if Fits(env) {
      var b := Tagged(env);
      Widths();
      BigEndianRoundTrip(env.streamId, 8);
      assert m[1..9] == BigEndian(env.streamId, 8);
      assert m[9..] == env.data;
      assert b[1..] == m;
    }
  }

  /** Re-encoding a decoded chunk gives the same bytes exactly when its flag byte was 0 or 1. */
  lemma EncodeDecodeChunk(b: Bytes)
    requires DecodeRecord(b).Ok? && DecodeRecord(b).value.ChunkRecord?
    ensures var c := DecodeRecord(b).value;
      EncodeChunk(c.streamId, c.seqNo, c.final, c.payload) == b <==> b[13] <= 1
  {
    var c := DecodeRecord(b).value;
    var e := EncodeChunk(c.streamId, c.seqNo, c.final, c.payload);
    FromBigEndianRoundTrip(b[1..9]);
    FromBigEndianRoundTrip(b[9..13]);
    assert e[13] == if c.final then 1 else 0;
    assert b == [b[0]] + b[1..9] + b[9..13] + [b[13]] + b[14..];
  }

  /** Four bytes read high byte first. */
  function Word(a: nat, b: nat, c: nat, d: nat): nat {
    0x100_0000 * a + 0x1_0000 * b + 0x100 * c + d
  }

  lemma FourBytes(b: Bytes)
    requires |b| == 4
    ensures FromBigEndian(b) == Word(b[0], b[1], b[2], b[3])
  {
    assert b[..3][..2] == b[..2] && b[..2][..1] == b[..1] && b[..1][..0] == [];
    assert FromBigEndian(b[..1]) == FromBigEndian([]) * 256 + b[0];
    assert FromBigEndian(b[..2]) == FromBigEndian(b[..1]) * 256 + b[1];
    assert FromBigEndian(b[..3]) == FromBigEndian(b[..2]) * 256 + b[2];
  }

  lemma {:induction false} FromBigEndianSplit(a: Bytes, b: Bytes)
    ensures FromBigEndian(a + b) == FromBigEndian(a) * Pow256(|b|) + FromBigEndian(b)
  {
    if b == [] {
      assert a + b == a;
    } else {
      var n := |b| - 1;
      assert (a + b)[..|a| + n] == a + b[..n];
      FromBigEndianSplit(a, b[..n]);
      assert FromBigEndian(a) * Pow256(n) * 256 == FromBigEndian(a) * Pow256(n + 1);
    }
  }

  /** Byte by byte, a chunk record: the tag 2, the id and the sequence number high byte first, the flag, the payload. */
  lemma ChunkLayout(streamId: UInt64, seqNo: UInt32, final: bool, payload: Bytes)
    ensures var b := EncodeChunk(streamId, seqNo, final, payload);
      && |b| == 14 + |payload| && b[0] == 2 && b[13] == (if final then 1 else 0) && b[14..] == payload
      && streamId == Word(b[1], b[2], b[3], b[4]) * 0x1_0000_0000 + Word(b[5], b[6], b[7], b[8])
      && seqNo == Word(b[9], b[10], b[11], b[12])
  {
    var b := EncodeChunk(streamId, seqNo, final, payload);
    Widths();
    BigEndianRoundTrip(streamId, 8);
    BigEndianRoundTrip(seqNo, 4);
    var id, no := BigEndian(streamId, 8), BigEndian(seqNo, 4);
    assert id == id[..4] + id[4..];
    FromBigEndianSplit(id[..4], id[4..]);
    FourBytes(id[..4]);
    FourBytes(id[4..]);
    FourBytes(no);
    assert b[1..9] == id && b[9..13] == no;
  }

  /**
   What decodes, and to what: the tag 1 before a well-formed envelope, or the tag 2 before a whole chunk header, of
   which the flag means final if it is 1.
   */
  lemma DecodesExactly(b: Bytes)
    ensures DecodeRecord(b).Ok? <==>
      |b| > 0 && ((b[0] == 1 && Unmarshal(b[1..]).Ok?) || (b[0] == 2 && |b| >= 14))
    ensures DecodeRecord(b).Ok? && b[0] == 1 ==> DecodeRecord(b).value == EnvelopeRecord(Unmarshal(b[1..]).value)
    ensures DecodeRecord(b).Ok? && b[0] == 2 ==>
      var r := DecodeRecord(b).value;
      && r.ChunkRecord? && (r.final <==> b[13] == 1) && r.payload == b[14..]
      && r.streamId == Word(b[1], b[2], b[3], b[4]) * 0x1_0000_0000 + Word(b[5], b[6], b[7], b[8])
      && r.seqNo == Word(b[9], b[10], b[11], b[12])
  {
    if |b| >= 14 {
      Widths();
      assert b[1..9] == b[1..5] + b[5..9];
      FromBigEndianSplit(b[1..5], b[5..9]);
      FourBytes(b[1..5]);
      FourBytes(b[5..9]);
      FourBytes(b[9..13]);
    }
  }

  /** No byte string is both an envelope record and a chunk record. */
  lemma NeverConfused(env: Envelope, streamId: UInt64, seqNo: UInt32, final: bool, payload: Bytes)
    requires Fits(env)
    ensures EncodeEnvelope(env).value != EncodeChunk(streamId, seqNo, final, payload)
  {
    assert EncodeEnvelope(env).value[0] != EncodeChunk(streamId, seqNo, final, payload)[0];
  }
}
