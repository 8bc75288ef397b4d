/** Chunked sending and reassembling reading over one connection (internal/adapters/transport/ws/codec.go). */
module Codec {
  import opened Prelude
  import opened Protocol
  import opened Noise

  /** An inbound stream being assembled. */
  datatype Asm = Asm(env: Envelope, buf: Bytes)

  /** A fully assembled inbound message. */
  datatype Framed = Framed(env: Envelope, content: Bytes, hasContent: bool)

  // ---- Sending ----

  /** The stream position of `SendContent`: the next sequence number and the content not yet sent. */
  datatype Cursor = Cursor(seqNo: UInt32, rest: Bytes)

  function Take(rest: Bytes): nat {
    if |rest| > CHUNK_PAYLOAD_SIZE then CHUNK_PAYLOAD_SIZE else |rest|
  }

  /** A counter held in a uint32. */
  function Wrap(n: nat): UInt32 {
    n % 0x1_0000_0000
  }

  lemma WrapNext(s: nat, i: nat)
    ensures Wrap(Wrap(s + 1) + i) == Wrap(s + (i + 1))
  {
  }

  /** One iteration of the sending loop: the record written. The counter wraps as a uint32. */
  function ChunkAt(streamId: UInt64, c: Cursor): Record {
    ChunkRecord(streamId, c.seqNo, Take(c.rest) == |c.rest|, c.rest[..Take(c.rest)])
  }

  function Advance(c: Cursor): Cursor {
    Cursor(Wrap(c.seqNo + 1), c.rest[Take(c.rest)..])
  }

  function Chunks(streamId: UInt64, c: Cursor): seq<Record>
    decreases |c.rest|
  {
    var r := ChunkAt(streamId, c);
    if r.final then [r] else [r] + Chunks(streamId, Advance(c))
  }

  function ChunkBytes(r: Record): Bytes
    requires r.ChunkRecord?
  {
    EncodeChunk(r.streamId, r.seqNo, r.final, r.payload)
  }

  function Payloads(rs: seq<Record>): Bytes
    requires forall r :: r in rs ==> r.ChunkRecord?
  {
    if rs == [] then [] else rs[0].payload + Payloads(rs[1..])
  }

  /** How many chunks any content takes: one for empty content, otherwise the rounded-up quotient. */
  lemma {:induction false} ChunkCount(streamId: UInt64, c: Cursor)
    ensures |Chunks(streamId, c)| ==
      if |c.rest| == 0 then 1 else (|c.rest| + 65504) / 65505
    decreases |c.rest|
  {
    if !ChunkAt(streamId, c).final {
      ChunkCount(streamId, Advance(c));
    }
  }

  /** What the i-th of n chunks must be: its wrapped sequence number, full unless last, and final just then. */
  predicate ChunkIs(r: Record, streamId: UInt64, seqNo: nat, i: nat, n: nat) {
    && r.ChunkRecord? && r.streamId == streamId && r.seqNo == (seqNo + i) % 0x1_0000_0000
    && (r.final <==> i == n - 1) && (i < n - 1 ==> |r.payload| == 65505)
  }

  /** Every chunk carries the stream id and its wrapped sequence number; exactly the last is final, all others full. */
  lemma {:induction false} ChunkingShape(streamId: UInt64, c: Cursor)
    ensures var rs := Chunks(streamId, c);
      |rs| > 0 && forall i :: 0 <= i < |rs| ==> ChunkIs(rs[i], streamId, c.seqNo, i, |rs|)
    decreases |c.rest|
  {
    var r := ChunkAt(streamId, c);
    if !r.final {
      ChunkingShape(streamId, Advance(c));
      var rs, tail := Chunks(streamId, c), Chunks(streamId, Advance(c));
      assert rs == [r] + tail;
      forall i | 0 <= i < |rs| ensures ChunkIs(rs[i], streamId, c.seqNo, i, |rs|) {
        if i > 0 {
          assert ChunkIs(tail[i - 1], streamId, Wrap(c.seqNo + 1), i - 1, |tail|);
          WrapNext(c.seqNo, i - 1);
        }
      }
    }
  }

  /** The payloads concatenate to the content, and every record fits, plain and sealed (65535 bytes). */
  lemma {:induction false} ChunkingRoundTrip(streamId: UInt64, c: Cursor)
    ensures forall r :: r in Chunks(streamId, c) ==>
      r.ChunkRecord? && |ChunkBytes(r)| <= 65519 && |ChunkBytes(r)| + 16 <= 65535
    ensures Payloads(Chunks(streamId, c)) == c.rest
    decreases |c.rest|
  {
    var r := ChunkAt(streamId, c);
    DecodeEncodeChunk(r.streamId, r.seqNo, r.final, r.payload);
    if r.final {
      assert Payloads([r]) == r.payload + Payloads([]);
    } else {
      var d := Advance(c);
      ChunkingRoundTrip(streamId, d);
      assert ([r] + Chunks(streamId, d))[1..] == Chunks(streamId, d);
      assert c.rest == r.payload + d.rest;
    }
  }

  /**
   The frames a list of records becomes when written from nonce `n`, and whether all were written. `wire(k)`
   says whether the socket takes the frame sealed with nonce k.
   */
  function Frames(wire: nat -> bool, n: nat, recs: seq<Bytes>): (seq<Sealed>, bool)
    decreases |recs|
  {
    if recs == [] then ([], true)
    else if n == RESERVED_NONCE || !wire(n) then ([], false)
    else
      var (fs, ok) := Frames(wire, n + 1, recs[1..]);
      ([Sealed(n, recs[0])] + fs, ok)
  }

  lemma FramesOne(wire: nat -> bool, n: nat, rec: Bytes)
    ensures Frames(wire, n, [rec]) == if n == RESERVED_NONCE || !wire(n) then ([], false) else ([Sealed(n, rec)], true)
  {
    var none: seq<Sealed> := [];
    assert Frames(wire, n + 1, [rec][1..]) == (none, true);
    assert [Sealed(n, rec)] + none == [Sealed(n, rec)];
  }

  lemma FramesFirst(wire: nat -> bool, n: nat, first: Bytes, rest: seq<Bytes>)
    ensures Frames(wire, n, [first] + rest) ==
      if n == RESERVED_NONCE || !wire(n) then ([], false)
      else ([Sealed(n, first)] + Frames(wire, n + 1, rest).0, Frames(wire, n + 1, rest).1)
  {
    assert ([first] + rest)[1..] == rest;
  }

  function ChunksAsBytes(rs: seq<Record>): (b: seq<Bytes>)
    requires forall r :: r in rs ==> r.ChunkRecord?
    ensures |b| == |rs|
  {
    if rs == [] then [] else [ChunkBytes(rs[0])] + ChunksAsBytes(rs[1..])
  }

  function ContentRecords(streamId: UInt64, c: Cursor): seq<Bytes> {
    ChunkingRoundTrip(streamId, c);
    ChunksAsBytes(Chunks(streamId, c))
  }

  lemma ContentRecordsUnfold(streamId: UInt64, c: Cursor)
    ensures var r := ChunkAt(streamId, c);
      ContentRecords(streamId, c) == [ChunkBytes(r)] + if r.final then [] else ContentRecords(streamId, Advance(c))
  {
    ChunkingRoundTrip(streamId, c);
    if !ChunkAt(streamId, c).final {
      assert Chunks(streamId, c)[1..] == Chunks(streamId, Advance(c));
    }
  }

  /** A file change on the wire: its announcement, then its content unless the stream id is 0. */
  function FileChangeRecords(streamId: UInt64, data: Bytes, content: Bytes): seq<Bytes> {
    [Tagged(Envelope(FileChanged, streamId, data))] +
    if streamId == 0 then [] else ContentRecords(streamId, Cursor(0, content))
  }

  lemma FileChangeFrames(wire: nat -> bool, n: nat, streamId: UInt64, data: Bytes, content: Bytes)
    ensures var (first, rest) := (Frames(wire, n, [Tagged(Envelope(FileChanged, streamId, data))]),
                                  Frames(wire, n + 1, ContentRecords(streamId, Cursor(0, content))));
      Frames(wire, n, FileChangeRecords(streamId, data, content)) ==
        if first.1 && streamId != 0 then (first.0 + rest.0, rest.1) else first
  {
    var env := Tagged(Envelope(FileChanged, streamId, data));
    FramesOne(wire, n, env);
    FramesFirst(wire, n, env, if streamId == 0 then [] else ContentRecords(streamId, Cursor(0, content)));
  }

  /** The stream id takes the same room whatever it is. */
  lemma FitsAnyId(typ: MsgType, streamId: UInt64, data: Bytes)
    ensures Fits(Envelope(typ, streamId, data)) <==> Fits(Envelope(typ, 0, data))
  {
  }

  // ---- Receiving ----

  datatype Receiver = Receiver(nonce: nat, pending: map<UInt64, Asm>)

  datatype Event = Quiet | Deliver(msg: Framed) | Fault(error: string)

  /** What one decoded record does to the assembly table. */
  function OnRecord(pending: map<UInt64, Asm>, rec: Record): (map<UInt64, Asm>, Event) {
    match rec
    case EnvelopeRecord(env) =>
      (match StreamIdOf(env)
       case Err(e) => (pending, Fault(e))
       case Ok(sid) =>
         if sid == 0 then (pending, Deliver(Framed(env, [], false))) else (pending[sid := Asm(env, [])], Quiet))
    case ChunkRecord(sid, _, final, payload) =>
      if sid !in pending then (pending, Fault("ws: chunk for unknown stream"))
      else
        var a := Asm(pending[sid].env, pending[sid].buf + payload);
        if final then (pending - {sid}, Deliver(Framed(a.env, a.buf, true)))
        else (pending[sid := a], Quiet)
  }

  /** What one frame read from the wire does to the receiver: open, decode, demultiplex. */
  function OnFrame(rx: Receiver, f: Sealed): (Receiver, Event) {
    if f.nonce != rx.nonce || rx.nonce == RESERVED_NONCE then (rx, Fault("ws: decrypt"))
    else
      match DecodeRecord(f.plain)
      case Err(e) => (Receiver(rx.nonce + 1, rx.pending), Fault(e))
      case Ok(rec) =>
        var (p, ev) := OnRecord(rx.pending, rec);
        (Receiver(rx.nonce + 1, p), ev)
  }

  /** The outcome of reading frames until something is delivered or goes wrong. */
  function ReadFrom(rx: Receiver, inbox: seq<Sealed>): (r: (Result<Framed>, Receiver, seq<Sealed>))
    ensures |r.2| <= |inbox| && (inbox != [] ==> |r.2| < |inbox|) && (inbox == [] ==> r.0.Err?)
    decreases |inbox|
  {
    if inbox == [] then (Err("ws: closed"), rx, [])
    else
      var (rx', ev) := OnFrame(rx, inbox[0]);
      match ev
      case Quiet => ReadFrom(rx', inbox[1..])
      case Deliver(m) => (Ok(m), rx', inbox[1..])
      case Fault(e) => (Err(e), rx', inbox[1..])
  }

  class Conn {
    const ch: Channel
    const wire: nat -> bool  // whether the socket takes the frame sealed with a nonce
    var outSeq: UInt64
    var pending: map<UInt64, Asm>
    var inbox: seq<Sealed>   // frames the peer has written and this side has not read
    var outbox: seq<Sealed>  // frames this side has written

    constructor (ch: Channel, wire: nat -> bool, inbox: seq<Sealed>)
      ensures this.ch == ch && this.wire == wire && outSeq == 0
      ensures pending == map[] && this.inbox == inbox && outbox == []
    {
      this.ch, this.wire := ch, wire;
      outSeq, pending, outbox := 0, map[], [];
      this.inbox := inbox;
    }

    ghost function View(): Receiver
      reads this, ch
    {
      Receiver(ch.recvNonce, pending)
    }

    /** Allocates an outbound stream id; the atomic counter wraps as a uint64. */
    method NewStreamID() returns (id: UInt64)
      modifies this`outSeq
      ensures outSeq == id == (old(outSeq) + 1) % 0x1_0000_0000_0000_0000
      ensures old(outSeq) < 0xFFFF_FFFF_FFFF_FFFF ==> id == old(outSeq) + 1 > 0
    {
      outSeq := (outSeq + 1) % 0x1_0000_0000_0000_0000;
      id := outSeq;
    }

    /** Seals and writes under the write lock; a frame the socket refuses has used up its nonce. */
    method WriteRecord(rec: Bytes) returns (ok: bool)
      modifies this`outbox, ch`sendNonce
      ensures (outbox, ok) ==
        (old(outbox) + Frames(wire, old(ch.sendNonce), [rec]).0, Frames(wire, old(ch.sendNonce), [rec]).1)
      ensures ch.sendNonce == old(ch.sendNonce) + if old(ch.sendNonce) == RESERVED_NONCE then 0 else 1
    {
      FramesOne(wire, ch.sendNonce, rec);
      var sealed := ch.Seal(rec);
      if sealed.Err? || !wire(sealed.value.nonce) {
        assert outbox == old(outbox) + [];
        return false;
      }
      outbox := outbox + [sealed.value];
      ok := true;
    }

    method SendEnvelope(env: Envelope) returns (ok: bool)
      modifies this`outbox, ch`sendNonce
      ensures !Fits(env) ==> !ok && outbox == old(outbox) && ch.sendNonce == old(ch.sendNonce)
      ensures ok ==> ch.sendNonce == old(ch.sendNonce) + 1
      ensures Fits(env) ==>
        (outbox, ok) == (old(outbox) + Frames(wire, old(ch.sendNonce), [Tagged(env)]).0,
                         Frames(wire, old(ch.sendNonce), [Tagged(env)]).1)
    {
      var rec := EncodeEnvelope(env);
      if rec.Err? {
        return false;
      }
      ok := WriteRecord(rec.value);
    }

    /** Sends the content as chunk records; the loop mirrors `Chunks`, whose meaning is `ChunkingRoundTrip`. */
    method SendContent(streamId: UInt64, content: Bytes) returns (ok: bool)
      modifies this`outbox, ch`sendNonce
      ensures var all := Frames(wire, old(ch.sendNonce), ContentRecords(streamId, Cursor(0, content)));
        outbox == old(outbox) + all.0 && ok == all.1
    {
      var seqNo: UInt32 := 0;
      var rest := content;
      ghost var all := Frames(wire, ch.sendNonce, ContentRecords(streamId, Cursor(0, content)));
      while true
        invariant var todo := Frames(wire, ch.sendNonce, ContentRecords(streamId, Cursor(seqNo, rest)));
          outbox + todo.0 == old(outbox) + all.0 && todo.1 == all.1
        decreases |rest|
      {
        ghost var n, before := ch.sendNonce, outbox;
        var end := |rest|;
        if end > CHUNK_PAYLOAD_SIZE {
          end := CHUNK_PAYLOAD_SIZE;
        }
        var final := end == |rest|;
        var rec := EncodeChunk(streamId, seqNo, final, rest[..end]);
        ghost var more := if final then [] else ContentRecords(streamId, Advance(Cursor(seqNo, rest)));
        ContentRecordsUnfold(streamId, Cursor(seqNo, rest));
        FramesOne(wire, n, rec);
        FramesFirst(wire, n, rec, more);
        Regroup(before, [Sealed(n, rec)], Frames(wire, n + 1, more).0);
        ok := WriteRecord(rec);
        if !ok {
          return;
        }
        rest := rest[end..];
        seqNo := Wrap(seqNo + 1);
        if final {
          return;
        }
      }
    }

    /**
     The notifier's file change: allocate an id unless deleting, announce, then stream the content. An
     announcement too large for a record is refused once its id is spent.
     */
    method FileChange(isDelete: bool, data: Bytes, content: Bytes) returns (ok: bool)
      modifies this`outbox, this`outSeq, ch`sendNonce
      ensures outSeq == if isDelete then old(outSeq) else (old(outSeq) + 1) % 0x1_0000_0000_0000_0000
      ensures Fits(Envelope(FileChanged, 0, data)) ==>
        var all := Frames(wire, old(ch.sendNonce), FileChangeRecords(if isDelete then 0 else outSeq, data, content));
        outbox == old(outbox) + all.0 && ok == all.1
      ensures !Fits(Envelope(FileChanged, 0, data)) ==>
        !ok && outbox == old(outbox) && ch.sendNonce == old(ch.sendNonce)
    {
      var streamId: UInt64 := 0;
      if !isDelete {
        streamId := NewStreamID();
      }
      ghost var n, before := ch.sendNonce, outbox;
      var env := Envelope(FileChanged, streamId, data);
      FitsAnyId(FileChanged, streamId, data);
      FileChangeFrames(wire, n, streamId, data, content);
      ok := SendEnvelope(env);
      if ok && streamId != 0 {
        Regroup<Sealed>(before, Frames(wire, n, [Tagged(env)]).0,
          Frames(wire, n + 1, ContentRecords(streamId, Cursor(0, content))).0);
        ok := SendContent(streamId, content);
      }
    }

    /** Reads records until a message is assembled, exactly as `ReadFrom` says. */
    method ReadMessage() returns (r: Result<Framed>)
      modifies this`pending, this`inbox, ch`recvNonce
      ensures (r, View(), inbox) == ReadFrom(old(View()), old(inbox))
    {
      while true
        invariant ReadFrom(View(), inbox) == ReadFrom(old(View()), old(inbox))
        decreases |inbox|
      {
        if inbox == [] {
          return Err("ws: closed");
        }
        var data := inbox[0];
        inbox := inbox[1..];
        var plain := ch.Open(data);
        if plain.Err? {
          return Err(plain.error);
        }
        var rec := DecodeRecord(plain.value);
        if rec.Err? {
          return Err(rec.error);
        }
        if rec.value.EnvelopeRecord? {
          var sid := StreamIdOf(rec.value.env);
          if sid.Err? {
            return Err(sid.error);
          }
          if sid.value == 0 {
            return Ok(Framed(rec.value.env, [], false));
          }
          pending := pending[sid.value := Asm(rec.value.env, [])];
          continue;
        }
        var sid := rec.value.streamId;
        if sid !in pending {
          return Err("ws: chunk for unknown stream");
        }
        var a := Asm(pending[sid].env, pending[sid].buf + rec.value.payload);
        if rec.value.final {
          pending := pending - {sid};
          return Ok(Framed(a.env, a.buf, true));
        }
        pending := pending[sid := a];
      }
    }
  }
}
