/**
 What ReadMessage makes of the frames of one message, type by type, and of a frame that is not in order
 (internal/adapters/transport/ws/codec.go).
 */
module Reading {
  import opened Prelude
  import opened Protocol
  import opened Noise
  import opened Codec

  /** Records sealed one after the other from nonce n. */
  function SealedFrom(n: nat, recs: seq<Bytes>): seq<Sealed> {
    seq(|recs|, i requires 0 <= i < |recs| => Sealed(n + i, recs[i]))
  }

  lemma SealedFirst(n: nat, first: Bytes, recs: seq<Bytes>, rest: seq<Sealed>)
    ensures SealedFrom(n, [first] + recs) + rest == [Sealed(n, first)] + (SealedFrom(n + 1, recs) + rest)
  {
    assert SealedFrom(n, [first] + recs) == [Sealed(n, first)] + SealedFrom(n + 1, recs);
  }

  lemma ReadFirst(rx: Receiver, f: Sealed, rest: seq<Sealed>)
    ensures ReadFrom(rx, [f] + rest) ==
      var (rx', ev) := OnFrame(rx, f);
      match ev
      case Quiet => ReadFrom(rx', rest)
      case Deliver(m) => (Ok(m), rx', rest)
      case Fault(e) => (Err(e), rx', rest)
  {
    assert ([f] + rest)[1..] == rest;
  }

  /** A message of any type but the two that announce content is one frame, delivered at once and without content. */
  lemma PlainRead(rx: Receiver, env: Envelope, rest: seq<Sealed>)
    requires env.typ != Blob && env.typ != FileChanged && |env.data| <= 65509 && rx.nonce < 0xFFFF_FFFF_FFFF_FFFF
    ensures ReadFrom(rx, [Sealed(rx.nonce, Tagged(env))] + rest) ==
      (Ok(Framed(env, [], false)), Receiver(rx.nonce + 1, rx.pending), rest)
  {
    DecodeEncodeEnvelope(env);
    ReadFirst(rx, Sealed(rx.nonce, Tagged(env)), rest);
  }

  /** So is a file change that announces none, a delete. */
  lemma NoContentRead(rx: Receiver, typ: MsgType, data: Bytes, rest: seq<Sealed>)
    requires (typ == Blob || typ == FileChanged) && Parses(typ, data) && |data| <= 65509
    requires rx.nonce < 0xFFFF_FFFF_FFFF_FFFF
    ensures ReadFrom(rx, [Sealed(rx.nonce, Tagged(Envelope(typ, 0, data)))] + rest) ==
      (Ok(Framed(Envelope(typ, 0, data), [], false)), Receiver(rx.nonce + 1, rx.pending), rest)
  {
    DecodeEncodeEnvelope(Envelope(typ, 0, data));
    ReadFirst(rx, Sealed(rx.nonce, Tagged(Envelope(typ, 0, data))), rest);
  }

  /** The next chunk of an announced stream is added to it, or completes it. */
  lemma ChunkRead(rx: Receiver, sid: UInt64, c: Cursor)
    requires sid in rx.pending && rx.nonce < 0xFFFF_FFFF_FFFF_FFFF
    ensures var (r, env, buf) := (ChunkAt(sid, c), rx.pending[sid].env, rx.pending[sid].buf + ChunkAt(sid, c).payload);
      OnFrame(rx, Sealed(rx.nonce, ChunkBytes(r))) ==
        if r.final then (Receiver(rx.nonce + 1, rx.pending - {sid}), Deliver(Framed(env, buf, true)))
        else (Receiver(rx.nonce + 1, rx.pending[sid := Asm(env, buf)]), Quiet)
  {
    var r := ChunkAt(sid, c);
    DecodeEncodeChunk(r.streamId, r.seqNo, r.final, r.payload);
  }

  /** The receiver after a chunk that does not complete its stream. */
  function Grown(rx: Receiver, sid: UInt64, c: Cursor): Receiver
    requires sid in rx.pending
  {
    Receiver(rx.nonce + 1, rx.pending[sid := Asm(rx.pending[sid].env, rx.pending[sid].buf + ChunkAt(sid, c).payload)])
  }

  lemma ReadChunk(rx: Receiver, sid: UInt64, c: Cursor, more: seq<Bytes>, rest: seq<Sealed>)
    requires sid in rx.pending && rx.nonce < 0xFFFF_FFFF_FFFF_FFFF
    ensures var (r, a) := (ChunkAt(sid, c), rx.pending[sid]);
      ReadFrom(rx, SealedFrom(rx.nonce, [ChunkBytes(r)] + more) + rest) ==
        if r.final then
          (Ok(Framed(a.env, a.buf + r.payload, true)), Receiver(rx.nonce + 1, rx.pending - {sid}),
           SealedFrom(rx.nonce + 1, more) + rest)
        else ReadFrom(Grown(rx, sid, c), SealedFrom(rx.nonce + 1, more) + rest)
  {
    var r := ChunkAt(sid, c);
    SealedFirst(rx.nonce, ChunkBytes(r), more, rest);
    ReadFirst(rx, Sealed(rx.nonce, ChunkBytes(r)), SealedFrom(rx.nonce + 1, more) + rest);
    ChunkRead(rx, sid, c);
  }

  lemma Forgotten(pending: map<UInt64, Asm>, sid: UInt64, a: Asm)
    ensures pending[sid := a] - {sid} == pending - {sid}
  {
  }

  /** The chunks from a position on are read as the stream's message, with the rest of the content. */
  ghost predicate Completes(rx: Receiver, sid: UInt64, c: Cursor, rest: seq<Sealed>)
    requires sid in rx.pending
  {
    var (recs, a) := (ContentRecords(sid, c), rx.pending[sid]);
    ReadFrom(rx, SealedFrom(rx.nonce, recs) + rest) ==
      (Ok(Framed(a.env, a.buf + c.rest, true)), Receiver(rx.nonce + |recs|, rx.pending - {sid}), rest)
  }

  lemma LastChunk(rx: Receiver, sid: UInt64, c: Cursor, rest: seq<Sealed>)
    requires sid in rx.pending && rx.nonce < 0xFFFF_FFFF_FFFF_FFFF && ChunkAt(sid, c).final
    ensures Completes(rx, sid, c, rest)
  {
    ContentRecordsUnfold(sid, c);
    assert [ChunkBytes(ChunkAt(sid, c))] + [] == [ChunkBytes(ChunkAt(sid, c))];
    ReadChunk(rx, sid, c, [], rest);
    assert SealedFrom(rx.nonce + 1, []) + rest == rest;
    assert ChunkAt(sid, c).payload == c.rest;
  }

  lemma OneMoreChunk(rx: Receiver, sid: UInt64, c: Cursor, rest: seq<Sealed>)
    requires sid in rx.pending && rx.nonce < 0xFFFF_FFFF_FFFF_FFFF && !ChunkAt(sid, c).final
    requires Completes(Grown(rx, sid, c), sid, Advance(c), rest)
    ensures Completes(rx, sid, c, rest)
  {
    var r, more, buf := ChunkAt(sid, c), ContentRecords(sid, Advance(c)), rx.pending[sid].buf;
    ContentRecordsUnfold(sid, c);
    ReadChunk(rx, sid, c, more, rest);
    assert c.rest == r.payload + Advance(c).rest;
    assert buf + r.payload + Advance(c).rest == buf + c.rest;
    Forgotten(rx.pending, sid, Asm(rx.pending[sid].env, buf + r.payload));
  }

  lemma {:induction false} ChunksRead(rx: Receiver, sid: UInt64, c: Cursor, rest: seq<Sealed>)
    requires sid in rx.pending && rx.nonce + |ContentRecords(sid, c)| <= 0xFFFF_FFFF_FFFF_FFFF
    ensures Completes(rx, sid, c, rest)
    decreases |c.rest|
  {
    ContentRecordsUnfold(sid, c);
    if ChunkAt(sid, c).final {
      LastChunk(rx, sid, c, rest);
    } else {
      ChunksRead(Grown(rx, sid, c), sid, Advance(c), rest);
      OneMoreChunk(rx, sid, c, rest);
    }
  }

  function Opened(rx: Receiver, env: Envelope): Receiver {
    Receiver(rx.nonce + 1, rx.pending[env.streamId := Asm(env, [])])
  }

  /** The announcement of a content stream opens it and delivers nothing. */
  lemma AnnouncementRead(rx: Receiver, typ: MsgType, sid: UInt64, data: Bytes)
    requires (typ == Blob || typ == FileChanged) && sid > 0 && Parses(typ, data) && |data| <= 65509
    requires rx.nonce < 0xFFFF_FFFF_FFFF_FFFF
    ensures var env := Envelope(typ, sid, data);
      OnFrame(rx, Sealed(rx.nonce, Tagged(env))) == (Opened(rx, env), Quiet)
  {
    DecodeEncodeEnvelope(Envelope(typ, sid, data));
  }

  lemma ReadOpening(rx: Receiver, env: Envelope, chunks: seq<Bytes>, rest: seq<Sealed>)
    requires OnFrame(rx, Sealed(rx.nonce, Tagged(env))) == (Opened(rx, env), Quiet)
    ensures ReadFrom(rx, SealedFrom(rx.nonce, [Tagged(env)] + chunks) + rest) ==
      ReadFrom(Opened(rx, env), SealedFrom(rx.nonce + 1, chunks) + rest)
  {
    SealedFirst(rx.nonce, Tagged(env), chunks, rest);
    ReadFirst(rx, Sealed(rx.nonce, Tagged(env)), SealedFrom(rx.nonce + 1, chunks) + rest);
  }

  /**
   An upload, or a file change with content: its announcement and its chunks are read as one message with that
   content, byte for byte, and nothing of it is left behind.
   */
  lemma ContentRead(rx: Receiver, typ: MsgType, sid: UInt64, data: Bytes, content: Bytes, rest: seq<Sealed>)
    requires (typ == Blob || typ == FileChanged) && sid > 0 && Parses(typ, data) && |data| <= 65509
    requires rx.nonce + 1 + |ContentRecords(sid, Cursor(0, content))| <= 0xFFFF_FFFF_FFFF_FFFF
    ensures var recs := [Tagged(Envelope(typ, sid, data))] + ContentRecords(sid, Cursor(0, content));
      ReadFrom(rx, SealedFrom(rx.nonce, recs) + rest) ==
        (Ok(Framed(Envelope(typ, sid, data), content, true)),
         Receiver(rx.nonce + |recs|, rx.pending - {sid}), rest)
  {
    var env, chunks := Envelope(typ, sid, data), ContentRecords(sid, Cursor(0, content));
    var rx' := Opened(rx, env);
    AnnouncementRead(rx, typ, sid, data);
    ReadOpening(rx, env, chunks, rest);
    ChunksRead(rx', sid, Cursor(0, content), rest);
    assert [] + content == content;
    Forgotten(rx.pending, sid, Asm(env, []));
  }

  /** What is wrong with a frame: its nonce, its bytes, the payload of an announcement, or a chunk nobody announced. */
  predicate Bad(rx: Receiver, f: Sealed) {
    || f.nonce != rx.nonce || rx.nonce == 0xFFFF_FFFF_FFFF_FFFF
    || match DecodeRecord(f.plain)
       case Err(_) => true
       case Ok(EnvelopeRecord(env)) => (env.typ == Blob || env.typ == FileChanged) && !Parses(env.typ, env.data)
       case Ok(ChunkRecord(sid, _, _, _)) => sid !in rx.pending
  }

  /** A bad frame, and no other, ends the read with an error; streams stay announced, an opening nonce is used up. */
  lemma BadFrameFails(rx: Receiver, f: Sealed, rest: seq<Sealed>)
    ensures Bad(rx, f) <==> OnFrame(rx, f).1.Fault?
    ensures Bad(rx, f) ==>
      var (r, rx', left) := ReadFrom(rx, [f] + rest);
      && r.Err? && left == rest && rx'.pending == rx.pending
      && rx'.nonce == rx.nonce + if f.nonce == rx.nonce != 0xFFFF_FFFF_FFFF_FFFF then 1 else 0
  {
    ReadFirst(rx, f, rest);
  }
}
