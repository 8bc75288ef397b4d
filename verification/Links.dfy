/** How the layers fit: the interleaving machine does what the connection's methods do. */
module Links {
  import opened Prelude
  import opened Protocol
  import opened Noise
  import opened Codec
  import opened Interleaving

  // ---- The machine's reader is ReadMessage, again and again ----

  /** The messages ReadMessage returns when called until it fails. */
  function ReadAll(rx: Receiver, inbox: seq<Sealed>): seq<Framed>
    decreases |inbox|
  {
    var (r, rx', rest) := ReadFrom(rx, inbox);
    match r
    case Err(_) => []
    case Ok(m) => [m] + ReadAll(rx', rest)
  }

  function FramesOf(ws: seq<Written>): seq<Sealed> {
    seq(|ws|, i requires 0 <= i < |ws| => ws[i].frame)
  }

  function MessagesOf(log: seq<Delivery>): seq<Framed> {
    seq(|log|, i requires 0 <= i < |log| => log[i].msg)
  }

  /** Reading frames from the first on, as the reader does; `Replay` is the same from the last. */
  function ReplayFrom(st: Inbound, ws: seq<Written>): Inbound
    decreases |ws|
  {
    if ws == [] then st else ReplayFrom(Consume(st, ws[0]), ws[1..])
  }

  lemma {:induction false} ReplayFromSnoc(st: Inbound, ws: seq<Written>, w: Written)
    ensures ReplayFrom(st, ws + [w]) == Consume(ReplayFrom(st, ws), w)
    decreases |ws|
  {
    if ws == [] {
      assert [] + [w] == [w] && [w][1..] == [];
    } else {
      assert (ws + [w])[1..] == ws[1..] + [w];
      ReplayFromSnoc(Consume(st, ws[0]), ws[1..], w);
    }
  }

  const START := Inbound(Receiver(0, map[]), [], false)

  lemma {:induction false} ReplayForward(ws: seq<Written>)
    ensures Replay(ws) == ReplayFrom(START, ws)
  {
    if ws != [] {
      var n := |ws| - 1;
      ReplayForward(ws[..n]);
      assert ws == ws[..n] + [ws[n]];
      ReplayFromSnoc(START, ws[..n], ws[n]);
    }
  }

  lemma {:induction false} FailureStays(st: Inbound, ws: seq<Written>)
    requires st.failed
    ensures ReplayFrom(st, ws).failed
    decreases |ws|
  {
    if ws != [] { FailureStays(Consume(st, ws[0]), ws[1..]); }
  }

  lemma FramesTail(ws: seq<Written>)
    requires ws != []
    ensures FramesOf(ws)[0] == ws[0].frame && FramesOf(ws)[1..] == FramesOf(ws[1..])
  {
  }

  lemma MessagesSnoc(log: seq<Delivery>, d: Delivery)
    ensures MessagesOf(log + [d]) == MessagesOf(log) + [d.msg]
  {
  }

  /** What one frame adds to the messages. */
  function Added(rx: Receiver, f: Sealed): seq<Framed> {
    var ev := OnFrame(rx, f).1;
    if ev.Deliver? then [ev.msg] else []
  }

  lemma ConsumeAdds(st: Inbound, w: Written)
    ensures Consume(st, w).rx == OnFrame(st.rx, w.frame).0
    ensures MessagesOf(Consume(st, w).log) == MessagesOf(st.log) + Added(st.rx, w.frame)
    ensures Consume(st, w).failed <==> st.failed || OnFrame(st.rx, w.frame).1.Fault?
  {
    var ev := OnFrame(st.rx, w.frame).1;
    if ev.Deliver? {
      MessagesSnoc(st.log, Delivery(w.from, ev.msg));
    } else {
      assert MessagesOf(st.log) + [] == MessagesOf(st.log);
    }
  }

  lemma {:induction false} ReadsSame(st: Inbound, ws: seq<Written>)
    requires !ReplayFrom(st, ws).failed
    ensures MessagesOf(ReplayFrom(st, ws).log) == MessagesOf(st.log) + ReadAll(st.rx, FramesOf(ws))
    decreases |ws|
  {
    if ws == [] {
      assert MessagesOf(st.log) + [] == MessagesOf(st.log);
    } else {
      var st' := Consume(st, ws[0]);
      if st'.failed { FailureStays(st', ws[1..]); }
      ConsumeAdds(st, ws[0]);
      FramesTail(ws);
      ReadsSame(st', ws[1..]);
      ReadAllStep(st.rx, FramesOf(ws));
      Regroup(MessagesOf(st.log), Added(st.rx, ws[0].frame), ReadAll(st'.rx, FramesOf(ws[1..])));
    }
  }

  lemma ReadAllStep(rx: Receiver, inbox: seq<Sealed>)
    requires inbox != [] && !OnFrame(rx, inbox[0]).1.Fault?
    ensures ReadAll(rx, inbox) == Added(rx, inbox[0]) + ReadAll(OnFrame(rx, inbox[0]).0, inbox[1..])
  {
    var (rx', ev) := OnFrame(rx, inbox[0]);
    if ev == Quiet { assert [] + ReadAll(rx', inbox[1..]) == ReadAll(rx', inbox[1..]); }
  }

  /** In every run, what the reader has delivered is what ReadMessage returns, call after call, for the frames read. */
  lemma ReaderIsReadMessage(run: seq<State>, labels: seq<Label>, k: nat)
    requires IsRun(run, labels) && k < |run|
    ensures var s := run[k];
      s.read <= |s.written| && MessagesOf(s.inb.log) == ReadAll(Receiver(0, map[]), FramesOf(s.written[..s.read]))
  {
    RunInv(run, labels, k);
    var s := run[k];
    assert MatchesAt(s, s.read);
    ReplayForward(s.written[..s.read]);
    ReadsSame(START, s.written[..s.read]);
    assert MessagesOf(START.log) == [];
  }

  // ---- A sender left to run writes what the methods write ----

  /** The records of a message: its envelope, then its content under the stream id. */
  function MessageRecords(m: Message, sid: UInt64): seq<Bytes> {
    [Tagged(EnvelopeOf(m, sid))] + if m.hasContent then ContentRecords(sid, Cursor(0, m.content)) else []
  }

  /** For a file change these are the notifier's records. */
  lemma FileChangeIsMessage(m: Message, sid: UInt64)
    requires m.typ == FileChanged && (m.hasContent <==> sid != 0)
    ensures MessageRecords(m, sid) == FileChangeRecords(sid, m.data, m.content)
  {
  }

  function From(i: nat, fs: seq<Sealed>): seq<Written> {
    seq(|fs|, k requires 0 <= k < |fs| => Written(i, fs[k]))
  }

  predicate Always(k: nat) {
    true
  }

  /** The steps `ls` can be taken from `s` and lead to `t`. */
  ghost predicate Leads(s: State, ls: seq<Label>, t: State)
    decreases |ls|
  {
    if ls == [] then s == t
    else Shape(s) && Enabled(s, ls[0]) && Leads(Step(s, ls[0]), ls[1..], t)
  }

  lemma LeadsFirst(s: State, l: Label, ls: seq<Label>, t: State)
    requires Shape(s) && Enabled(s, l) && Leads(Step(s, l), ls, t)
    ensures Leads(s, [l] + ls, t)
  {
    assert ([l] + ls)[1..] == ls;
  }

  lemma WroteShape(s: State, i: nat, plain: Bytes, sd: Sender)
    requires Shape(s) && i < |Now(s)|
    ensures Shape(Write(s, i, plain, sd)) && Now(Write(s, i, plain, sd)) == Now(s)[i := sd]
  {
  }

  lemma FromFirst(i: nat, before: seq<Written>, f: Sealed, fs: seq<Sealed>)
    ensures before + From(i, [f] + fs) == before + [Written(i, f)] + From(i, fs)
  {
    assert From(i, [f] + fs) == [Written(i, f)] + From(i, fs);
  }

  /** A sender in the middle of a stream writes the rest of it. */
  lemma StreamRest(s: State, i: nat) returns (ls: seq<Label>, t: State)
    requires Shape(s) && s.sendNonce <= RESERVED_NONCE && i < |Now(s)|
    requires Now(s)[i].task.Streaming? && Now(s)[i].todo != []
    requires var x := Now(s)[i].task; Frames(Always, s.sendNonce, ContentRecords(x.sid, x.cursor)).1
    ensures Leads(s, ls, t) && Shape(t) && |Now(t)| == |Now(s)|
    ensures var x := Now(s)[i].task;
      t.written == s.written + From(i, Frames(Always, s.sendNonce, ContentRecords(x.sid, x.cursor)).0)
    ensures Now(t)[i] == Finish(Now(s)[i])
    decreases |Now(s)[i].task.cursor.rest|
  {
    var x := Now(s)[i].task;
    var r := ChunkAt(x.sid, x.cursor);
    var u := Step(s, WriteChunk(i));
    ContentRecordsUnfold(x.sid, x.cursor);
    var rest := if r.final then [] else ContentRecords(x.sid, Advance(x.cursor));
    FramesFirst(Always, s.sendNonce, ChunkBytes(r), rest);
    FromFirst(i, s.written, Sealed(s.sendNonce, ChunkBytes(r)), Frames(Always, s.sendNonce + 1, rest).0);
    WroteShape(s, i, ChunkBytes(r), AfterChunk(Now(s)[i]));
    if r.final {
      ls, t := [], u;
      assert From(i, []) == [];
    } else {
      ls, t := StreamRest(u, i);
    }
    LeadsFirst(s, WriteChunk(i), ls, t);
    ls := [WriteChunk(i)] + ls;
  }

  /** An idle sender left to run gives its next message a stream id, if it has content, and writes all its records. */
  lemma SenderWrites(s: State, i: nat) returns (ls: seq<Label>, t: State)
    requires Shape(s) && s.sendNonce <= RESERVED_NONCE && i < |Now(s)| && Now(s)[i].task == Idle
    requires Now(s)[i].todo != [] && Sendable(Now(s)[i].todo[0])
    requires s.outSeq < 0xFFFF_FFFF_FFFF_FFFF
    requires Frames(Always, s.sendNonce, MessageRecords(Now(s)[i].todo[0], NextId(s, i))).1
    ensures Leads(s, ls, t) && Shape(t) && |Now(t)| == |Now(s)|
    ensures t.written ==
      s.written + From(i, Frames(Always, s.sendNonce, MessageRecords(Now(s)[i].todo[0], NextId(s, i))).0)
    ensures Now(t)[i] == Finish(Now(s)[i])
  {
    var m := Now(s)[i].todo[0];
    if m.hasContent {
      var a := Step(s, Allocate(i));
      assert Now(a) == Now(s)[i := Now(s)[i].(task := Announcing(s.outSeq + 1))];
      ls, t := AnnounceAndStream(a, i);
      LeadsFirst(s, Allocate(i), ls, t);
      ls := [Allocate(i)] + ls;
    } else {
      ls, t := WritePlain(s, i);
    }
  }

  function NextId(s: State, i: nat): UInt64
    requires Shape(s) && i < |Now(s)| && Now(s)[i].todo != [] && s.outSeq < 0xFFFF_FFFF_FFFF_FFFF
  {
    if Now(s)[i].todo[0].hasContent then s.outSeq + 1 else 0
  }

  lemma WritePlain(s: State, i: nat) returns (ls: seq<Label>, t: State)
    requires Shape(s) && s.sendNonce <= RESERVED_NONCE && i < |Now(s)| && Now(s)[i].task == Idle && Now(s)[i].todo != []
    requires Sendable(Now(s)[i].todo[0]) && !Now(s)[i].todo[0].hasContent
    requires Frames(Always, s.sendNonce, MessageRecords(Now(s)[i].todo[0], 0)).1
    ensures Leads(s, ls, t) && Shape(t) && |Now(t)| == |Now(s)|
    ensures t.written == s.written + From(i, Frames(Always, s.sendNonce, MessageRecords(Now(s)[i].todo[0], 0)).0)
    ensures Now(t)[i] == Finish(Now(s)[i])
  {
    var m := Now(s)[i].todo[0];
    var plain := Tagged(EnvelopeOf(m, 0));
    assert MessageRecords(m, 0) == [plain];
    FramesOne(Always, s.sendNonce, plain);
    assert From(i, [Sealed(s.sendNonce, plain)]) == [Written(i, Sealed(s.sendNonce, plain))];
    WroteShape(s, i, plain, Finish(Now(s)[i]));
    t := Step(s, WriteEnvelope(i));
    LeadsFirst(s, WriteEnvelope(i), [], t);
    ls := [WriteEnvelope(i)] + [];
  }

  lemma AnnounceAndStream(s: State, i: nat) returns (ls: seq<Label>, t: State)
    requires Shape(s) && s.sendNonce <= RESERVED_NONCE && i < |Now(s)|
    requires Now(s)[i].task.Announcing? && Now(s)[i].todo != []
    requires Sendable(Now(s)[i].todo[0]) && Now(s)[i].todo[0].hasContent
    requires Frames(Always, s.sendNonce, MessageRecords(Now(s)[i].todo[0], Now(s)[i].task.sid)).1
    ensures Leads(s, ls, t) && Shape(t) && |Now(t)| == |Now(s)|
    ensures t.written ==
      s.written + From(i, Frames(Always, s.sendNonce, MessageRecords(Now(s)[i].todo[0], Now(s)[i].task.sid)).0)
    ensures Now(t)[i] == Finish(Now(s)[i])
  {
    var m, sid := Now(s)[i].todo[0], Now(s)[i].task.sid;
    var plain, rest := Tagged(EnvelopeOf(m, sid)), ContentRecords(sid, Cursor(0, m.content));
    FramesFirst(Always, s.sendNonce, plain, rest);
    FromFirst(i, s.written, Sealed(s.sendNonce, plain), Frames(Always, s.sendNonce + 1, rest).0);
    WroteShape(s, i, plain, AfterEnvelope(Now(s)[i]));
    ls, t := StreamRest(Step(s, WriteEnvelope(i)), i);
    LeadsFirst(s, WriteEnvelope(i), ls, t);
    ls := [WriteEnvelope(i)] + ls;
  }
}
