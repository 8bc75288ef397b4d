/**
 Any number of goroutines sending over one connection. Each writes its next record under the write
 lock, so records of different senders interleave arbitrarily; one reader consumes the frames.
 Sources: internal/adapters/transport/ws/codec.go, notifier.go, client.go.
 */
module Interleaving {
  import opened Prelude
  import opened Protocol
  import opened Noise
  import opened Codec

  /** A message as its sender means it: the stream id is chosen when it is sent. */
  datatype Message = Message(typ: MsgType, data: Bytes, content: Bytes, hasContent: bool)

  /** Content goes with uploads and file changes only, whose payloads parse, and the envelope must fit one record. */
  predicate Sendable(m: Message) {
    && (m.hasContent ==> m.typ == Blob || m.typ == FileChanged)
    && (m.typ == Blob || m.typ == FileChanged ==> Parses(m.typ, m.data))
    && (!m.hasContent ==> m.content == [])
    && |m.data| + 10 <= 65519
  }

  function EnvelopeOf(m: Message, sid: UInt64): Envelope {
    Envelope(m.typ, sid, m.data)
  }

  /** A delivered message without its stream id. */
  function Logical(f: Framed): Message {
    Message(f.env.typ, f.env.data, f.content, f.hasContent)
  }

  /** Where a sender is inside its current message: before it, between allocating and announcing, or streaming. */
  datatype Task = Idle | Announcing(sid: UInt64) | Streaming(sid: UInt64, cursor: Cursor)

  /** One goroutine: messages fully written, messages still to write (the head may be in progress). */
  datatype Sender = Sender(sent: seq<Message>, todo: seq<Message>, task: Task)

  /** A frame on the wire; `from` is who wrote it, which the receiver never looks at. */
  datatype Written = Written(from: nat, frame: Sealed)

  datatype Delivery = Delivery(from: nat, msg: Framed)

  /** The reading side: its state, what it has delivered, and whether it has failed. */
  datatype Inbound = Inbound(rx: Receiver, log: seq<Delivery>, failed: bool)

  function Consume(st: Inbound, w: Written): Inbound {
    var (rx', ev) := OnFrame(st.rx, w.frame);
    match ev
    case Quiet => st.(rx := rx')
    case Deliver(m) => Inbound(rx', st.log + [Delivery(w.from, m)], st.failed)
    case Fault(_) => Inbound(rx', st.log, true)
  }

  function Replay(ws: seq<Written>): Inbound {
    if ws == [] then Inbound(Receiver(0, map[]), [], false)
    else Consume(Replay(ws[..|ws| - 1]), ws[|ws| - 1])
  }

  /** The messages of the log that came from sender `i`, in order. */
  function Delivered(log: seq<Delivery>, i: nat): seq<Message> {
    if log == [] then []
    else
      var d := log[|log| - 1];
      Delivered(log[..|log| - 1], i) + if d.from == i then [Logical(d.msg)] else []
  }

  lemma DeliveredSnoc(log: seq<Delivery>, d: Delivery, i: nat)
    ensures Delivered(log + [d], i) == Delivered(log, i) + if d.from == i then [Logical(d.msg)] else []
  {
    assert (log + [d])[..|log|] == log;
  }

  /**
   `history[k]` is every sender's state right after the k-th frame was written (and, for the last
   k, now). It is bookkeeping for the statements below; no step reads more than its last element.
   */
  datatype State = State(
    history: seq<seq<Sender>>, outSeq: nat, sendNonce: nat, written: seq<Written>, read: nat, inb: Inbound)

  predicate Shape(s: State) {
    |s.history| == |s.written| + 1 && s.read <= |s.written|
  }

  function Now(s: State): seq<Sender>
    requires Shape(s)
  {
    s.history[|s.written|]
  }

  datatype Label =
    | Submit(i: nat, m: Message) | Allocate(i: nat) | WriteEnvelope(i: nat) | WriteChunk(i: nat) | ReadFrame

  /** When a step can happen. Stream ids and nonces are used below their 64-bit limits. */
  predicate Enabled(s: State, l: Label)
    requires Shape(s)
  {
    match l
    case ReadFrame => s.read < |s.written| && !s.inb.failed
    case Submit(i, m) => i < |Now(s)| && Sendable(m)
    case Allocate(i) =>
      i < |Now(s)| && Now(s)[i].task == Idle && Now(s)[i].todo != [] && Now(s)[i].todo[0].hasContent
      && s.outSeq < 0xFFFF_FFFF_FFFF_FFFF
    case WriteEnvelope(i) =>
      && i < |Now(s)| && Now(s)[i].todo != [] && Fits(EnvelopeOf(Now(s)[i].todo[0], 0))
      && s.sendNonce < RESERVED_NONCE
      && (Now(s)[i].task.Announcing? || (Now(s)[i].task.Idle? && !Now(s)[i].todo[0].hasContent))
    case WriteChunk(i) =>
      i < |Now(s)| && Now(s)[i].task.Streaming? && Now(s)[i].todo != [] && s.sendNonce < RESERVED_NONCE
  }

  function Finish(sd: Sender): Sender
    requires sd.todo != []
  {
    Sender(sd.sent + [sd.todo[0]], sd.todo[1..], Idle)
  }

  /** The bytes of the envelope record a sender writes, and its state afterwards. */
  function EnvelopeBytes(sd: Sender): Bytes
    requires sd.todo != []
  {
    Tagged(EnvelopeOf(sd.todo[0], if sd.task.Announcing? then sd.task.sid else 0))
  }

  function AfterEnvelope(sd: Sender): Sender
    requires sd.todo != []
  {
    if sd.task.Announcing? then sd.(task := Streaming(sd.task.sid, Cursor(0, sd.todo[0].content))) else Finish(sd)
  }

  function AfterChunk(sd: Sender): Sender
    requires sd.todo != [] && sd.task.Streaming?
  {
    if ChunkAt(sd.task.sid, sd.task.cursor).final then Finish(sd)
    else sd.(task := Streaming(sd.task.sid, Codec.Advance(sd.task.cursor)))
  }

  function Write(s: State, i: nat, plain: Bytes, sd: Sender): State
    requires Shape(s) && i < |Now(s)|
  {
    s.(history := s.history + [Now(s)[i := sd]],
       written := s.written + [Written(i, Sealed(s.sendNonce, plain))],
       sendNonce := s.sendNonce + 1)
  }

  function Replace(s: State, i: nat, sd: Sender): seq<seq<Sender>>
    requires Shape(s) && i < |Now(s)|
  {
    s.history[|s.written| := Now(s)[i := sd]]
  }

  function Step(s: State, l: Label): State
    requires Shape(s) && Enabled(s, l)
  {
    match l
    case Submit(i, m) => s.(history := Replace(s, i, Now(s)[i].(todo := Now(s)[i].todo + [m])))
    case Allocate(i) =>
      s.(outSeq := s.outSeq + 1, history := Replace(s, i, Now(s)[i].(task := Announcing(s.outSeq + 1))))
    case WriteEnvelope(i) => Write(s, i, EnvelopeBytes(Now(s)[i]), AfterEnvelope(Now(s)[i]))
    case WriteChunk(i) =>
      Write(s, i, ChunkBytes(ChunkAt(Now(s)[i].task.sid, Now(s)[i].task.cursor)), AfterChunk(Now(s)[i]))
    case ReadFrame => s.(read := s.read + 1, inb := Consume(s.inb, s.written[s.read]))
  }

  predicate Initial(s: State) {
    && |s.history| == 1 && s.history == [seq(|s.history[0]|, _ => Sender([], [], Idle))]
    && s.outSeq == s.sendNonce == s.read == 0 && s.written == []
    && s.inb == Inbound(Receiver(0, map[]), [], false)
  }

  ghost predicate IsRun(run: seq<State>, labels: seq<Label>) {
    && |run| == |labels| + 1 && Initial(run[0])
    && forall k :: 0 <= k < |labels| ==>
         Shape(run[k]) && Enabled(run[k], labels[k]) && run[k + 1] == Step(run[k], labels[k])
  }

  // ---- The invariant ----

  ghost predicate GoodSender(sd: Sender) {
    && (forall m :: m in sd.todo ==> Sendable(m))
    && (!sd.task.Idle? ==> sd.task.sid > 0 && sd.todo != [] && sd.todo[0].hasContent)
  }

  /** Sender `sd`'s open stream is in the table, holding exactly the part of the content already written. */
  ghost predicate Reassembling(sd: Sender, pending: map<UInt64, Asm>) {
    sd.task.Streaming? && sd.todo != [] ==>
      && sd.task.sid in pending
      && pending[sd.task.sid].env == EnvelopeOf(sd.todo[0], sd.task.sid)
      && pending[sd.task.sid].buf + sd.task.cursor.rest == sd.todo[0].content
  }

  ghost predicate Streams(sd: Sender, sid: UInt64) {
    sd.task.Streaming? && sd.task.sid == sid
  }

  ghost predicate DistinctIds(v: seq<Sender>) {
    forall i, j :: 0 <= i < j < |v| && !v[i].task.Idle? && !v[j].task.Idle? ==> v[i].task.sid != v[j].task.sid
  }

  /** A reader that has consumed everything written so far, seen beside the senders. */
  ghost predicate Matches(v: seq<Sender>, st: Inbound) {
    && !st.failed && DistinctIds(v)
    && (forall i :: 0 <= i < |v| ==> GoodSender(v[i]) && Reassembling(v[i], st.rx.pending))
    && (forall sid :: sid in st.rx.pending ==> exists i :: 0 <= i < |v| && Streams(v[i], sid))
    && (forall i :: 0 <= i < |v| ==> Delivered(st.log, i) == v[i].sent)
    && (forall d :: d in st.log ==> d.from < |v|)
  }

  ghost predicate MatchesAt(s: State, k: nat)
    requires Shape(s) && k <= |s.written|
  {
    Matches(s.history[k], Replay(s.written[..k])) && Replay(s.written[..k]).rx.nonce == k
  }

  ghost predicate WritersInv(s: State) {
    && Shape(s) && s.sendNonce == |s.written| <= RESERVED_NONCE
    && (forall k :: 0 <= k < |s.written| ==> s.written[k].frame.nonce == k && s.written[k].from < |Now(s)|)
    && (forall k :: 0 <= k <= |s.written| ==> MatchesAt(s, k))
    && (forall k :: 0 <= k <= |s.written| ==> |s.history[k]| == |Now(s)|)
    && (forall k, i :: 0 <= k <= |s.written| && 0 <= i < |Now(s)| ==> s.history[k][i].sent <= Now(s)[i].sent)
    && (forall i :: 0 <= i < |Now(s)| && !Now(s)[i].task.Idle? ==> Now(s)[i].task.sid <= s.outSeq)
  }

  ghost predicate Inv(s: State) {
    WritersInv(s) && s.inb == Replay(s.written[..s.read])
  }

  lemma InitialInv(s: State)
    requires Initial(s)
    ensures Inv(s)
  {
    assert s.written[..0] == [];
  }

  // ---- One frame at the caught-up reader ----

  /** Opening the next chunk frame in order does what its record says. */
  lemma OpensChunk(st: Inbound, r: Record)
    requires st.rx.nonce < RESERVED_NONCE && r.ChunkRecord?
    ensures OnFrame(st.rx, Sealed(st.rx.nonce, ChunkBytes(r))) ==
      (Receiver(st.rx.nonce + 1, OnRecord(st.rx.pending, r).0), OnRecord(st.rx.pending, r).1)
  {
    DecodeEncodeChunk(r.streamId, r.seqNo, r.final, r.payload);
  }

  /** Opening the next envelope frame in order does what its envelope says. */
  lemma OpensEnvelope(st: Inbound, sd: Sender, env: Envelope)
    requires st.rx.nonce < RESERVED_NONCE && GoodSender(sd) && sd.todo != []
    requires env == EnvelopeOf(sd.todo[0], if sd.task.Announcing? then sd.task.sid else 0)
    ensures OnFrame(st.rx, Sealed(st.rx.nonce, EnvelopeBytes(sd))) ==
      (Receiver(st.rx.nonce + 1, OnRecord(st.rx.pending, EnvelopeRecord(env)).0),
       OnRecord(st.rx.pending, EnvelopeRecord(env)).1)
  {
    assert sd.todo[0] in sd.todo;
    DecodeEncodeEnvelope(env);
  }

  /** Finishing a message delivers it from its sender and leaves the other senders' deliveries alone. */
  lemma DeliverOne(v: seq<Sender>, st: Inbound, i: nat, f: Framed)
    requires Matches(v, st) && i < |v| && v[i].todo != [] && Logical(f) == v[i].todo[0]
    ensures var v' := v[i := Finish(v[i])];
      forall j :: 0 <= j < |v| ==> Delivered(st.log + [Delivery(i, f)], j) == v'[j].sent && GoodSender(v'[j])
  {
    forall j | 0 <= j < |v|
      ensures Delivered(st.log + [Delivery(i, f)], j) == v[i := Finish(v[i])][j].sent
    {
      DeliveredSnoc(st.log, Delivery(i, f), j);
    }
  }

  lemma PlainEnvelope(v: seq<Sender>, st: Inbound, i: nat)
    requires Matches(v, st) && i < |v| && v[i].task.Idle? && v[i].todo != [] && !v[i].todo[0].hasContent
    requires st.rx.nonce < RESERVED_NONCE
    ensures Matches(v[i := AfterEnvelope(v[i])], Consume(st, Written(i, Sealed(st.rx.nonce, EnvelopeBytes(v[i])))))
  {
    var env := EnvelopeOf(v[i].todo[0], 0);
    assert GoodSender(v[i]) && v[i].todo[0] in v[i].todo;
    OpensEnvelope(st, v[i], env);
    DeliverOne(v, st, i, Framed(env, [], false));
    var v' := v[i := AfterEnvelope(v[i])];
    forall sid | sid in st.rx.pending ensures exists j :: 0 <= j < |v'| && Streams(v'[j], sid) {
      var j :| 0 <= j < |v| && Streams(v[j], sid);
      assert Streams(v'[j], sid);
    }
  }

  /** Putting `sd` with table slot `a` in place of an active sender keeps everyone matched. */
  lemma SlotUpdate(v: seq<Sender>, st: Inbound, i: nat, sd: Sender, a: Asm, rx: Receiver)
    requires Matches(v, st) && i < |v| && !v[i].task.Idle?
    requires sd.sent == v[i].sent && sd.todo == v[i].todo && sd.task.Streaming? && sd.task.sid == v[i].task.sid
    requires sd.todo != [] ==>
      a.env == EnvelopeOf(sd.todo[0], sd.task.sid) && a.buf + sd.task.cursor.rest == sd.todo[0].content
    requires rx.pending == st.rx.pending[sd.task.sid := a]
    ensures Matches(v[i := sd], Inbound(rx, st.log, st.failed))
  {
    var v' := v[i := sd];
    forall j | 0 <= j < |v'| ensures GoodSender(v'[j]) && Reassembling(v'[j], rx.pending) {
      assert GoodSender(v[j]) && Reassembling(v[j], st.rx.pending);
    }
    forall s | s in rx.pending ensures exists j :: 0 <= j < |v'| && Streams(v'[j], s) {
      if s == sd.task.sid {
        assert Streams(v'[i], s);
      } else {
        var j :| 0 <= j < |v| && Streams(v[j], s);
        assert Streams(v'[j], s);
      }
    }
  }

  lemma AnnouncingEnvelope(v: seq<Sender>, st: Inbound, i: nat)
    requires Matches(v, st) && i < |v| && v[i].task.Announcing?
    requires st.rx.nonce < RESERVED_NONCE
    ensures Matches(v[i := AfterEnvelope(v[i])], Consume(st, Written(i, Sealed(st.rx.nonce, EnvelopeBytes(v[i])))))
  {
    var sid := v[i].task.sid;
    var env := EnvelopeOf(v[i].todo[0], sid);
    assert GoodSender(v[i]);
    assert v[i].todo[0] in v[i].todo;
    OpensEnvelope(st, v[i], env);
    SlotUpdate(v, st, i, AfterEnvelope(v[i]), Asm(env, []),
      OnFrame(st.rx, Sealed(st.rx.nonce, EnvelopeBytes(v[i]))).0);
  }

  lemma MiddleChunk(v: seq<Sender>, st: Inbound, i: nat)
    requires Matches(v, st) && i < |v| && v[i].task.Streaming? && v[i].todo != []
    requires st.rx.nonce < RESERVED_NONCE && !ChunkAt(v[i].task.sid, v[i].task.cursor).final
    ensures Matches(v[i := AfterChunk(v[i])],
      Consume(st, Written(i, Sealed(st.rx.nonce, ChunkBytes(ChunkAt(v[i].task.sid, v[i].task.cursor))))))
  {
    var sid := v[i].task.sid;
    var r := ChunkAt(sid, v[i].task.cursor);
    OpensChunk(st, r);
    assert Reassembling(v[i], st.rx.pending);
    var sd := AfterChunk(v[i]);
    var before := st.rx.pending[sid];
    assert v[i].task.cursor.rest == r.payload + sd.task.cursor.rest;
    assert (before.buf + r.payload) + sd.task.cursor.rest == before.buf + (r.payload + sd.task.cursor.rest);
    SlotUpdate(v, st, i, sd, Asm(before.env, before.buf + r.payload),
      OnFrame(st.rx, Sealed(st.rx.nonce, ChunkBytes(r))).0);
  }

  lemma FinalChunk(v: seq<Sender>, st: Inbound, i: nat)
    requires Matches(v, st) && i < |v| && v[i].task.Streaming? && v[i].todo != []
    requires st.rx.nonce < RESERVED_NONCE && ChunkAt(v[i].task.sid, v[i].task.cursor).final
    ensures Matches(v[i := AfterChunk(v[i])],
      Consume(st, Written(i, Sealed(st.rx.nonce, ChunkBytes(ChunkAt(v[i].task.sid, v[i].task.cursor))))))
  {
    var sid := v[i].task.sid;
    var r := ChunkAt(sid, v[i].task.cursor);
    assert GoodSender(v[i]) && Reassembling(v[i], st.rx.pending);
    OpensChunk(st, r);
    assert r.payload == v[i].task.cursor.rest;
    DeliverOne(v, st, i, Framed(EnvelopeOf(v[i].todo[0], sid), v[i].todo[0].content, true));
    var v' := v[i := AfterChunk(v[i])];
    var p' := st.rx.pending - {sid};
    forall j | 0 <= j < |v'| ensures Reassembling(v'[j], p') {
      assert GoodSender(v[j]) && Reassembling(v[j], st.rx.pending);
      assert j != i && v[j].task.Streaming? ==> v[j].task.sid != sid;
    }
    forall s | s in p' ensures exists j :: 0 <= j < |v'| && Streams(v'[j], s) {
      var j :| 0 <= j < |v| && Streams(v[j], s);
      assert Streams(v'[j], s);
    }
  }

  // ---- Every step keeps the invariant ----

  lemma WriteMatchesAt(s: State, i: nat, plain: Bytes, sd: Sender, k: nat)
    requires Inv(s) && i < |Now(s)| && s.sendNonce < RESERVED_NONCE
    requires Matches(Now(s)[i := sd], Consume(Replay(s.written), Written(i, Sealed(s.sendNonce, plain))))
    requires k <= |s.written| + 1
    ensures MatchesAt(Write(s, i, plain, sd), k)
  {
    var t := Write(s, i, plain, sd);
    var n := |s.written|;
    if k <= n {
      assert MatchesAt(s, k);
      assert t.written[..k] == s.written[..k];
    } else {
      assert MatchesAt(s, n) && s.written[..n] == s.written;
      assert t.written[..k] == t.written && t.written[..n] == s.written;
      assert Replay(t.written) == Consume(Replay(s.written), t.written[n]);
    }
  }

  lemma WriteInv(s: State, i: nat, plain: Bytes, sd: Sender)
    requires Inv(s) && i < |Now(s)| && s.sendNonce < RESERVED_NONCE
    requires Matches(Now(s)[i := sd], Consume(Replay(s.written), Written(i, Sealed(s.sendNonce, plain))))
    requires Now(s)[i].sent <= sd.sent && (!sd.task.Idle? ==> sd.task.sid <= s.outSeq)
    ensures Inv(Write(s, i, plain, sd))
  {
    var t := Write(s, i, plain, sd);
    forall k | 0 <= k <= |t.written| ensures MatchesAt(t, k) {
      WriteMatchesAt(s, i, plain, sd, k);
    }
    assert t.written[..t.read] == s.written[..s.read];
    forall k, j | 0 <= k <= |t.written| && 0 <= j < |Now(t)| ensures t.history[k][j].sent <= Now(t)[j].sent {
      if k <= |s.written| { assert s.history[k][j].sent <= Now(s)[j].sent; }
    }
  }

  lemma SlotInv(s: State, i: nat, sd: Sender, outSeq: nat)
    requires Inv(s) && i < |Now(s)| && s.outSeq <= outSeq
    requires sd.sent == Now(s)[i].sent && (!sd.task.Idle? ==> sd.task.sid <= outSeq)
    requires Matches(Now(s)[i := sd], Replay(s.written))
    ensures Inv(s.(history := Replace(s, i, sd), outSeq := outSeq))
  {
    var t := s.(history := Replace(s, i, sd), outSeq := outSeq);
    assert s.written[..|s.written|] == s.written;
    forall k | 0 <= k <= |t.written| ensures MatchesAt(t, k) {
      assert MatchesAt(s, k);
    }
    forall k, j | 0 <= k <= |t.written| && 0 <= j < |Now(t)| ensures t.history[k][j].sent <= Now(t)[j].sent {
      assert s.history[k][j].sent <= Now(s)[j].sent;
    }
  }

  lemma MatchesSame(s: State, t: State, k: nat)
    requires Shape(s) && Shape(t) && k <= |s.written| && MatchesAt(s, k)
    requires t.history == s.history && t.written == s.written
    ensures MatchesAt(t, k)
  {
  }

  lemma WritersSame(s: State, t: State)
    requires WritersInv(s) && t == s.(read := t.read, inb := t.inb) && t.read <= |t.written|
    ensures WritersInv(t)
  {
    forall k | 0 <= k <= |t.written| ensures MatchesAt(t, k) {
      MatchesSame(s, t, k);
    }
  }

  lemma ReadInv(s: State)
    requires Inv(s) && s.read < |s.written| && !s.inb.failed
    ensures Inv(Step(s, ReadFrame))
  {
    WritersSame(s, s.(read := s.read + 1, inb := Consume(s.inb, s.written[s.read])));
    ReplayNext(s.written, s.read);
  }

  lemma ReplayNext(ws: seq<Written>, n: nat)
    requires n < |ws|
    ensures Replay(ws[..n + 1]) == Consume(Replay(ws[..n]), ws[n])
  {
    assert ws[..n + 1][..n] == ws[..n];
  }

  lemma SubmitInv(s: State, i: nat, m: Message)
    requires Inv(s) && Enabled(s, Submit(i, m))
    ensures Inv(Step(s, Submit(i, m)))
  {
    var v, st := Now(s), Replay(s.written);
    assert s.written[..|s.written|] == s.written && MatchesAt(s, |s.written|);
    var sd := v[i].(todo := v[i].todo + [m]);
    assert GoodSender(v[i]);
    SameStreams(v, st, i, sd);
    SlotInv(s, i, sd, s.outSeq);
  }

  lemma AllocateInv(s: State, i: nat)
    requires Inv(s) && Enabled(s, Allocate(i))
    ensures Inv(Step(s, Allocate(i)))
  {
    var v, st := Now(s), Replay(s.written);
    assert s.written[..|s.written|] == s.written && MatchesAt(s, |s.written|);
    var sd := v[i].(task := Announcing(s.outSeq + 1));
    assert GoodSender(v[i]);
    SameStreams(v, st, i, sd);
    SlotInv(s, i, sd, s.outSeq + 1);
  }

  lemma EnvelopeInv(s: State, i: nat)
    requires Inv(s) && Enabled(s, WriteEnvelope(i))
    ensures Inv(Step(s, WriteEnvelope(i)))
  {
    var v, st := Now(s), Replay(s.written);
    assert s.written[..|s.written|] == s.written && MatchesAt(s, |s.written|);
    if v[i].task.Idle? { PlainEnvelope(v, st, i); } else { AnnouncingEnvelope(v, st, i); }
    WriteInv(s, i, EnvelopeBytes(v[i]), AfterEnvelope(v[i]));
  }

  lemma ChunkInv(s: State, i: nat)
    requires Inv(s) && Enabled(s, WriteChunk(i))
    ensures Inv(Step(s, WriteChunk(i)))
  {
    var v, st := Now(s), Replay(s.written);
    assert s.written[..|s.written|] == s.written && MatchesAt(s, |s.written|);
    var r := ChunkAt(v[i].task.sid, v[i].task.cursor);
    if r.final { FinalChunk(v, st, i); } else { MiddleChunk(v, st, i); }
    WriteInv(s, i, ChunkBytes(r), AfterChunk(v[i]));
  }

  lemma StepInv(s: State, l: Label)
    requires Inv(s) && Enabled(s, l)
    ensures Inv(Step(s, l))
  {
    match l
    case ReadFrame => ReadInv(s);
    case Submit(i, m) => SubmitInv(s, i, m);
    case Allocate(i) => AllocateInv(s, i);
    case WriteEnvelope(i) => EnvelopeInv(s, i);
    case WriteChunk(i) => ChunkInv(s, i);
  }

  lemma StillStreams(v: seq<Sender>, st: Inbound, i: nat, sd: Sender, v': seq<Sender>)
    requires Matches(v, st) && i < |v| && v' == v[i := sd]
    requires sd.task == v[i].task || (!sd.task.Streaming? && !v[i].task.Streaming?)
    ensures forall s :: s in st.rx.pending ==> exists j :: 0 <= j < |v'| && Streams(v'[j], s)
  {
    forall s | s in st.rx.pending ensures exists j :: 0 <= j < |v'| && Streams(v'[j], s) {
      var j :| 0 <= j < |v| && Streams(v[j], s);
      assert Streams(v'[j], s);
    }
  }

  lemma StillReassembling(v: seq<Sender>, st: Inbound, i: nat, sd: Sender)
    requires Matches(v, st) && i < |v| && v[i].todo <= sd.todo && GoodSender(v[i])
    requires sd.task == v[i].task || (!sd.task.Streaming? && !v[i].task.Streaming?)
    ensures Reassembling(sd, st.rx.pending)
  {
    assert Reassembling(v[i], st.rx.pending);
    if sd.task.Streaming? { assert v[i].todo[0] == sd.todo[0]; }
  }

  /** Changing a sender without touching its open stream leaves the reader matched. */
  lemma SameStreams(v: seq<Sender>, st: Inbound, i: nat, sd: Sender)
    requires Matches(v, st) && i < |v| && sd.sent == v[i].sent && GoodSender(sd)
    requires sd.task == v[i].task || (!sd.task.Streaming? && !v[i].task.Streaming?)
    requires v[i].todo <= sd.todo
    requires !sd.task.Idle? ==> forall j :: 0 <= j < |v| && j != i && !v[j].task.Idle? ==> v[j].task.sid != sd.task.sid
    ensures Matches(v[i := sd], st)
  {
    assert GoodSender(v[i]);
    var v' := v[i := sd];
    StillStreams(v, st, i, sd, v');
    StillReassembling(v, st, i, sd);
    forall j | 0 <= j < |v'| ensures GoodSender(v'[j]) && Reassembling(v'[j], st.rx.pending) {
      if j != i { assert GoodSender(v[j]) && Reassembling(v[j], st.rx.pending); }
    }
  }

  lemma {:induction false} RunInv(run: seq<State>, labels: seq<Label>, k: nat)
    requires IsRun(run, labels) && k < |run|
    ensures Inv(run[k])
  {
    if k == 0 {
      InitialInv(run[0]);
    } else {
      RunInv(run, labels, k - 1);
      StepInv(run[k - 1], labels[k - 1]);
    }
  }

  // ---- Main results ----

  /** The messages a run has handed to sender `i`, in order. */
  function Submitted(labels: seq<Label>, i: nat): seq<Message> {
    if labels == [] then []
    else
      var l := labels[|labels| - 1];
      Submitted(labels[..|labels| - 1], i) + if l.Submit? && l.i == i then [l.m] else []
  }

  function Total(s: State, i: nat): seq<Message>
    requires Shape(s) && i < |Now(s)|
  {
    Now(s)[i].sent + Now(s)[i].todo
  }

  /** Only submitting changes what a sender has sent plus what it still has to send. */
  lemma StepTotal(s: State, l: Label, i: nat)
    requires Shape(s) && Enabled(s, l) && i < |Now(s)|
    ensures Shape(Step(s, l)) && |Now(Step(s, l))| == |Now(s)|
    ensures Total(Step(s, l), i) == Total(s, i) + if l.Submit? && l.i == i then [l.m] else []
  {
    var a := Now(s)[i];
    if (l.WriteEnvelope? || l.WriteChunk?) && l.i == i {
      assert a.todo == [a.todo[0]] + a.todo[1..];
    }
  }

  lemma {:induction false} SubmittedIsTotal(run: seq<State>, labels: seq<Label>, k: nat, i: nat)
    requires IsRun(run, labels) && k < |run| && i < |run[0].history[0]|
    ensures Shape(run[k]) && |Now(run[k])| == |run[0].history[0]|
    ensures Submitted(labels[..k], i) == Total(run[k], i)
  {
    RunWidth(run, labels, k);
    if k > 0 {
      SubmittedIsTotal(run, labels, k - 1, i);
      assert labels[..k][..k - 1] == labels[..k - 1];
      assert run[(k - 1) + 1] == Step(run[k - 1], labels[k - 1]);
      StepTotal(run[k - 1], labels[k - 1], i);
    }
  }

  /** Records are opened in the order sealed: nonces count the wire, and no read ever fails. */
  lemma NonceOrder(run: seq<State>, labels: seq<Label>, k: nat)
    requires IsRun(run, labels) && k < |run|
    ensures var s := run[k];
      && (forall j :: 0 <= j < |s.written| ==> s.written[j].frame.nonce == j)
      && s.sendNonce == |s.written| && s.inb.rx.nonce == s.read <= |s.written|
      && !s.inb.failed
      && (s.read < |s.written| ==>
            s.written[s.read].frame.nonce == s.inb.rx.nonce && !Consume(s.inb, s.written[s.read]).failed)
  {
    RunInv(run, labels, k);
    var s := run[k];
    assert MatchesAt(s, s.read);
    if s.read < |s.written| {
      assert s.written[..s.read + 1][..s.read] == s.written[..s.read];
      assert MatchesAt(s, s.read + 1);
    }
  }

  /**
   Interleaved reassembly: whatever the interleaving, what has been delivered from each sender is a
   prefix, in order and byte for byte, of what that sender was asked to send; nothing else is
   delivered; and the assembly table holds exactly the streams announced and unfinished as of the
   record last read, each with the content written so far.
   */
  lemma Reassembly(run: seq<State>, labels: seq<Label>, k: nat)
    requires IsRun(run, labels) && k < |run|
    ensures var s := run[k];
      && Shape(s)
      && (forall i :: 0 <= i < |Now(s)| ==> Delivered(s.inb.log, i) <= Submitted(labels[..k], i))
      && (forall d :: d in s.inb.log ==> d.from < |Now(s)|)
      && Matches(s.history[s.read], s.inb)
      && (s.read == |s.written| && (forall i :: 0 <= i < |Now(s)| ==> Now(s)[i] == Sender(Now(s)[i].sent, [], Idle)) ==>
            s.inb.rx.pending == map[]
            && forall i :: 0 <= i < |Now(s)| ==> Delivered(s.inb.log, i) == Submitted(labels[..k], i))
  {
    RunInv(run, labels, k);
    var s := run[k];
    assert MatchesAt(s, s.read);
    forall i | 0 <= i < |Now(s)|
      ensures Delivered(s.inb.log, i) == s.history[s.read][i].sent <= Now(s)[i].sent
      ensures Submitted(labels[..k], i) == Total(s, i)
    {
      RunWidth(run, labels, k);
      SubmittedIsTotal(run, labels, k, i);
    }
    if s.read == |s.written| && s.inb.rx.pending != map[] {
      var sid :| sid in s.inb.rx.pending;
      var i :| 0 <= i < |Now(s)| && Streams(Now(s)[i], sid);
    }
  }

  lemma {:induction false} RunWidth(run: seq<State>, labels: seq<Label>, k: nat)
    requires IsRun(run, labels) && k < |run|
    ensures Shape(run[k]) && |Now(run[k])| == |run[0].history[0]|
  {
    RunInv(run, labels, k);
    if k > 0 {
      RunWidth(run, labels, k - 1);
    }
  }

  // ---- The connection refines one FIFO queue per sender ----

  /** The abstract view: per sender, what was submitted and how much of it the reader has delivered. */
  datatype Queues = Queues(submitted: seq<seq<Message>>, delivered: seq<seq<Message>>)

  function Abstract(s: State): Queues
    requires Shape(s)
  {
    Queues(seq(|Now(s)|, (i: nat) requires i < |Now(s)| => Total(s, i)),
           seq(|Now(s)|, (i: nat) => Delivered(s.inb.log, i)))
  }

  /** Nothing visible happens, or one message is enqueued, or one sender's oldest undelivered message is delivered. */
  ghost predicate QueueStep(a: Queues, b: Queues) {
    || a == b
    || (exists i, m :: 0 <= i < |a.submitted| && b == a.(submitted := a.submitted[i := a.submitted[i] + [m]]))
    || (exists i ::
          && 0 <= i < |a.delivered| == |a.submitted| && |a.delivered[i]| < |a.submitted[i]|
          && a.delivered[i] <= a.submitted[i]
          && b == a.(delivered := a.delivered[i := a.submitted[i][..|a.delivered[i]| + 1]]))
  }

  /** Reading one frame delivers at most one message, the next one of the sender that wrote the frame. */
  lemma ReadDelivers(s: State, j: nat)
    requires Inv(s) && Enabled(s, ReadFrame) && j < |Now(s)|
    ensures var (w, log) := (s.written[s.read], Consume(s.inb, s.written[s.read]).log);
      && w.from < |Now(s)|
      && Delivered(s.inb.log, j) <= Delivered(log, j) <= Total(s, j)
      && |Delivered(log, j)| <= |Delivered(s.inb.log, j)| + (if j == w.from && log != s.inb.log then 1 else 0)
      && (j == w.from && log != s.inb.log ==> |Delivered(log, j)| == |Delivered(s.inb.log, j)| + 1)
  {
    ReadInv(s);
    var w := s.written[s.read];
    var t := Step(s, ReadFrame);
    assert MatchesAt(t, t.read) && MatchesAt(s, s.read);
    assert t.history[t.read][j].sent <= Now(t)[j].sent;
    var ev := OnFrame(s.inb.rx, w.frame).1;
    if ev.Deliver? {
      DeliveredSnoc(s.inb.log, Delivery(w.from, ev.msg), j);
    }
  }

  lemma DeliveryStep(a: Queues, b: Queues, i: nat)
    requires |a.delivered| == |a.submitted| == |b.delivered| && a.submitted == b.submitted && i < |a.delivered|
    requires forall j :: 0 <= j < |a.delivered| && j != i ==> a.delivered[j] == b.delivered[j]
    requires a.delivered[i] <= b.delivered[i] <= a.submitted[i] && |b.delivered[i]| == |a.delivered[i]| + 1
    ensures QueueStep(a, b)
  {
    assert b.delivered[i] == a.submitted[i][..|a.delivered[i]| + 1];
    assert b.delivered == a.delivered[i := a.submitted[i][..|a.delivered[i]| + 1]];
    assert a.delivered[i] <= a.submitted[i];
    assert b == a.(delivered := a.delivered[i := a.submitted[i][..|a.delivered[i]| + 1]]);
  }

  lemma ReadRefines(s: State)
    requires Inv(s) && Enabled(s, ReadFrame)
    ensures QueueStep(Abstract(s), Abstract(Step(s, ReadFrame)))
  {
    var a, b := Abstract(s), Abstract(Step(s, ReadFrame));
    var i := s.written[s.read].from;
    assert a.submitted == b.submitted;
    forall j | 0 <= j < |Now(s)| ensures j != i ==> a.delivered[j] == b.delivered[j] {
      ReadDelivers(s, j);
    }
    if Consume(s.inb, s.written[s.read]).log == s.inb.log {
      assert a.delivered == b.delivered;
    } else {
      ReadDelivers(s, i);
      DeliveryStep(a, b, i);
    }
  }

  /** The whole sealed, chunked, interleaved connection behaves as one FIFO queue per sender. */
  lemma RefinesQueues(s: State, l: Label)
    requires Inv(s) && Enabled(s, l)
    ensures Inv(Step(s, l)) && QueueStep(Abstract(s), Abstract(Step(s, l)))
  {
    StepInv(s, l);
    if l.ReadFrame? {
      ReadRefines(s);
    } else {
      var a, b := Abstract(s), Abstract(Step(s, l));
      forall j | 0 <= j < |Now(s)|
        ensures b.submitted[j] == if l.Submit? && l.i == j then a.submitted[j] + [l.m] else a.submitted[j]
      {
        StepTotal(s, l, j);
      }
      if l.Submit? {
        assert b.submitted == a.submitted[l.i := a.submitted[l.i] + [l.m]];
      } else {
        assert a.submitted == b.submitted;
      }
    }
  }
}
