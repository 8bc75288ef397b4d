/**
 Which turns can finish over the connection: what the turn machine can still do, the connection can carry, as long
 as it has nonces and stream ids left and the changes due have an encoding that fits a record.
 */
module ProductPaths {
  import opened Prelude
  import opened Domain
  import opened Protocol
  import opened Noise
  import opened LocalFs
  import opened Product
  import Convergence
  import TurnPaths
  import Trees
  import I = Interleaving
  import T = Turns

  // ---- What finishing a turn still costs ----

  /** At most so many records: an announcement, and a chunk for every byte and one more. */
  function Weight(x: T.Down): nat {
    if x.Change? then 2 + |x.push.content| else 2
  }

  function ChangesWeight(cs: seq<FileChange>, ws: Trees.Tree): nat {
    if cs == [] then 0 else 2 + |Content(cs[0], ws)| + ChangesWeight(cs[1..], ws)
  }

  /** The changes of the open turn that are still to be sent, if the agent makes no more of them. */
  ghost function Due(s: T.State): seq<FileChange> {
    match s.log.phase
    case Busy => Convergence.NextDiff(s)
    case Ended => Convergence.NextDiff(s)
    case Closing =>
      if s.pump.Finishing? then Convergence.NextDiff(s) else if s.pump.Sending? then s.pump.rest else []
    case _ => []
  }

  predicate EndDue(s: T.State) {
    match s.log.phase
    case Flying => true
    case Preparing(_) => true
    case Busy => true
    case Ended => true
    case Closing => true
    case _ => false
  }

  predicate ResultDue(s: T.State) {
    s.log.phase.Flying? || s.log.phase.Preparing? || s.log.phase.Busy?
  }

  /** Events not yet forwarded, and the turn's end. */
  function Notices(s: T.State): nat {
    |s.events| + (if ResultDue(s) then 1 else 0) + (if EndDue(s) then 1 else 0)
  }

  /** At most so many records for all that, and the changes due. */
  ghost function Bill(s: T.State): nat {
    2 * Notices(s) + ChangesWeight(Due(s), s.ws)
  }

  /** A step that finishes what is under way pays what it sends out of the bill. */
  ghost predicate Pays(s: T.State, l: T.Label)
    requires T.Enabled(s, l)
  {
    && Bill(T.Step(s, l)) + (if Emits(l) then Weight(Emission(s, l)) else 0) <= Bill(s)
    && T.Step(s, l).ws == s.ws
    && (forall c :: c in Due(T.Step(s, l)) ==> c in Due(s))
    && (l.PumpSend? ==> s.pump.rest[0] in Due(s))
  }

  lemma SendPays(s: T.State, g: nat)
    requires T.Gate(s) && T.Baseline(s) && T.Enabled(s, T.Send(g))
    ensures Pays(s, T.Send(g))
  {
    TurnPaths.NoChanges(s.ws);
    assert s.log.phase == T.Preparing(g);
  }

  lemma HandlerPays(s: T.State, l: T.Label)
    requires T.Gate(s) && T.Baseline(s) && T.Enabled(s, l) && T.HandlerLabel(l) && TurnPaths.Plain(l)
    ensures Pays(s, l)
  {
    if l.Send? {
      SendPays(s, l.g);
    } else if !l.Return? {
      assert s.log.phase == T.Preparing(l.g);
    }
  }

  lemma EventPays(s: T.State)
    requires T.Gate(s) && T.Enabled(s, T.PumpEvent)
    ensures Pays(s, T.PumpEvent)
  {
    if s.events[0] == T.Result {
      assert s.log.phase == T.Ended;
    }
  }

  lemma PushPays(s: T.State)
    requires T.Gate(s) && T.Enabled(s, T.PumpSend)
    ensures Pays(s, T.PumpSend)
  {
  }

  lemma SnapshotDue(s: T.State)
    requires s.log.phase == T.Closing && s.pump == T.Finishing
    ensures var t := T.Snapshotted(s); Due(t) == Due(s) && Notices(t) == Notices(s) && t.ws == s.ws
  {
  }

  lemma DiffPays(s: T.State)
    requires T.Gate(s) && T.Enabled(s, T.PumpSnapshot)
    ensures Pays(s, T.PumpSnapshot)
  {
    assert s.log.phase == T.Closing;
    SnapshotDue(s);
    assert T.Step(s, T.PumpSnapshot) == T.Snapshotted(s);
    DueKept(s, T.PumpSnapshot);
  }

  /** A step that sends nothing, with the changes due still due, and no more notices. */
  lemma DueKept(s: T.State, l: T.Label)
    requires T.Enabled(s, l) && !Emits(l) && T.Step(s, l).ws == s.ws
    requires Due(T.Step(s, l)) == Due(s) && Notices(T.Step(s, l)) <= Notices(s)
    ensures Pays(s, l)
  {
  }

  lemma AdvancePays(s: T.State, l: T.Label)
    requires T.Gate(s) && T.Enabled(s, l) && (l.PumpAdvance? || l.PumpSignal?)
    ensures Pays(s, l)
  {
    DueKept(s, l);
  }

  lemma DonePays(s: T.State)
    requires T.Gate(s) && T.Enabled(s, T.PumpDone)
    ensures Pays(s, T.PumpDone)
  {
  }

  lemma ReadPays(s: T.State)
    requires T.Gate(s) && s.down != []
    ensures Pays(s, T.ClientRead)
  {
    var t := T.ReadDown(s);
    assert t.ws == s.ws && t.events == s.events && t.pump == s.pump && t.preTurn == s.preTurn;
    if s.down[0].TurnDone? {
      assert s.log.phase == T.Announced;
    }
  }

  lemma ClientPays(s: T.State, l: T.Label)
    requires T.Gate(s) && T.Enabled(s, l) && (l.ClientToken? || l.ServerSpawn?)
    ensures Pays(s, l)
  {
    DueKept(s, l);
  }

  lemma ResultDueKept(s: T.State, t: T.State)
    requires s.log.phase == T.Busy && t.log.phase == T.Ended && t.preTurn == s.preTurn && t.ws == s.ws
    requires |t.events| == |s.events| + 1
    ensures Due(t) == Due(s) && Notices(t) == Notices(s)
  {
  }

  lemma ResultPays(s: T.State)
    requires T.Gate(s) && T.Enabled(s, T.AgentResult)
    ensures Pays(s, T.AgentResult)
  {
    assert s.log.phase == T.Busy;
    ResultDueKept(s, T.Step(s, T.AgentResult));
    DueKept(s, T.AgentResult);
  }

  lemma PumpPays(s: T.State, l: T.Label)
    requires T.Gate(s) && T.Enabled(s, l) && T.PumpLabel(l)
    ensures Pays(s, l)
  {
    match l {
      case PumpEvent => EventPays(s);
      case PumpSnapshot => DiffPays(s);
      case PumpSend => PushPays(s);
      case PumpDone => DonePays(s);
      case _ => AdvancePays(s, l);
    }
  }

  lemma PlainPays(s: T.State, l: T.Label)
    requires T.Gate(s) && T.Baseline(s) && T.Enabled(s, l) && TurnPaths.Plain(l)
    ensures Pays(s, l)
  {
    if T.HandlerLabel(l) {
      HandlerPays(s, l);
    } else if T.PumpLabel(l) {
      PumpPays(s, l);
    } else if l.ClientRead? {
      ReadPays(s);
    } else if l.AgentResult? {
      ResultPays(s);
    } else {
      ClientPays(s, l);
    }
  }

  // ---- What the connection has room for ----

  function Queued(ms: seq<I.Message>): nat {
    if ms == [] then 0 else 2 + |ms[0].content| + Queued(ms[1..])
  }

  /** At most so many records for what a sender has still to write. */
  function Unwritten(sd: I.Sender): nat {
    if sd.task.Streaming? && sd.todo != [] then |sd.task.cursor.rest| + 1 + Queued(sd.todo[1..])
    else Queued(sd.todo)
  }

  /** At most so many stream ids. */
  function Unnamed(sd: I.Sender): nat {
    if sd.task.Idle? || sd.todo == [] then |sd.todo| else |sd.todo| - 1
  }

  /** Nonces and stream ids for what the pump has still to write, and so many records more. */
  predicate Room(conn: I.State, pump: nat, more: nat) {
    && I.Shape(conn) && pump < |I.Now(conn)|
    && conn.sendNonce + Unwritten(I.Now(conn)[pump]) + more <= RESERVED_NONCE
    && conn.outSeq + Unnamed(I.Now(conn)[pump]) + more <= 0xFFFF_FFFF_FFFF_FFFF
  }

  /** What the pump's sender does next. */
  function NextIo(sd: I.Sender, pump: nat): I.Label
    requires sd.todo != []
  {
    if sd.task.Streaming? then I.WriteChunk(pump)
    else if sd.task.Idle? && sd.todo[0].hasContent then I.Allocate(pump)
    else I.WriteEnvelope(pump)
  }

  /** How far a sender is from having written everything. */
  function WriteRank(sd: I.Sender): nat {
    2 * Unwritten(sd) + if sd.task.Idle? then 1 else 0
  }

  lemma QueuedSnoc(ms: seq<I.Message>, m: I.Message)
    ensures Queued(ms + [m]) == Queued(ms) + 2 + |m.content|
  {
    if ms == [] {
      assert ms + [m] == [m];
    } else {
      QueuedSnoc(ms[1..], m);
      assert (ms + [m])[1..] == ms[1..] + [m];
    }
  }

  lemma UnwrittenSnoc(sd: I.Sender, m: I.Message)
    requires sd.task.Streaming? ==> sd.todo != []
    ensures Unwritten(sd.(todo := sd.todo + [m])) == Unwritten(sd) + 2 + |m.content|
  {
    QueuedSnoc(sd.todo, m);
    if sd.todo != [] {
      QueuedSnoc(sd.todo[1..], m);
      assert (sd.todo + [m])[1..] == sd.todo[1..] + [m];
    }
  }

  lemma FinishFits(sd: I.Sender)
    requires sd.todo != []
    ensures Unwritten(I.Finish(sd)) == Queued(sd.todo[1..]) && Unnamed(I.Finish(sd)) == |sd.todo| - 1
  {
  }

  lemma ChunkFits(sd: I.Sender)
    requires sd.todo != [] && sd.task.Streaming?
    ensures var sd' := I.AfterChunk(sd);
      Unwritten(sd') < Unwritten(sd) && Unnamed(sd') <= Unnamed(sd) && WriteRank(sd') < WriteRank(sd)
  {
    FinishFits(sd);
  }

  lemma EnvelopeFits(sd: I.Sender)
    requires sd.todo != [] && !sd.task.Streaming? && (sd.task.Idle? ==> sd.todo[0].content == [])
    ensures var sd' := I.AfterEnvelope(sd);
      Unwritten(sd') < Unwritten(sd) && Unnamed(sd') <= Unnamed(sd) && WriteRank(sd') < WriteRank(sd)
  {
    FinishFits(sd);
  }

  lemma HeadSendable(conn: I.State, pump: nat)
    requires I.Inv(conn) && pump < |I.Now(conn)| && I.Now(conn)[pump].todo != []
    ensures I.Sendable(I.Now(conn)[pump].todo[0]) && I.GoodSender(I.Now(conn)[pump])
  {
    assert I.MatchesAt(conn, |conn.written|);
    assert I.GoodSender(I.Now(conn)[pump]) && I.Now(conn)[pump].todo[0] in I.Now(conn)[pump].todo;
  }

  lemma EnvelopeSmall(m: I.Message)
    requires I.Sendable(m)
    ensures Fits(I.EnvelopeOf(m, 0))
  {
  }

  /** Every record and every id brings a sender closer to having written everything, and takes up its room. */
  lemma IoFits(conn: I.State, pump: nat, more: nat)
    requires I.Inv(conn) && Room(conn, pump, more) && I.Now(conn)[pump].todo != []
    ensures var io := NextIo(I.Now(conn)[pump], pump);
      && I.Enabled(conn, io)
      && Room(I.Step(conn, io), pump, more)
      && WriteRank(I.Now(I.Step(conn, io))[pump]) < WriteRank(I.Now(conn)[pump])
  {
    var sd := I.Now(conn)[pump];
    HeadSendable(conn, pump);
    EnvelopeSmall(sd.todo[0]);
    var io := NextIo(sd, pump);
    if io.WriteChunk? {
      ChunkFits(sd);
    } else if io.WriteEnvelope? {
      EnvelopeFits(sd);
    }
  }

  // ---- Continuing a run ----

  ghost predicate Continues(run: seq<State>, labels: seq<Label>, run': seq<State>, labels': seq<Label>) {
    Linked(run', labels') && run <= run' && labels <= labels'
  }

  lemma Extend(run: seq<State>, labels: seq<Label>, l: Label) returns (run': seq<State>, labels': seq<Label>)
    requires Linked(run, labels) && Enabled(run[|labels|], l)
    ensures Continues(run, labels, run', labels') && labels' == labels + [l]
    ensures run'[|labels'|] == Step(run[|labels|], l)
  {
    run', labels' := run + [Step(run[|labels|], l)], labels + [l];
    forall k | 0 <= k < |labels'| ensures StepsAt(run', labels', k) {
      if k < |labels| { assert StepsAt(run, labels, k); }
    }
  }

  /** A state reached with so many records to spare. */
  ghost predicate Roomy(s: State, more: nat) {
    Inv(s) && Room(s.conn, s.pump, more)
  }

  // ---- Reading one message of the pump's ----

  /** Once everything written has been read and taken, the link is what the pump has still to write. */
  lemma LinkUnwritten(s: State)
    requires Inv(s) && s.taken == |s.conn.inb.log| && s.conn.read == |s.conn.written|
    ensures Link(s) == DecodeAll(I.Now(s.conn)[s.pump].todo)
  {
    var conn := s.conn;
    assert I.MatchesAt(conn, conn.read);
    assert conn.inb.log[..s.taken] == conn.inb.log;
    assert Got(s) == I.Now(conn)[s.pump].sent;
    assert I.Total(conn, s.pump)[|Got(s)|..] == I.Now(conn)[s.pump].todo;
  }

  lemma ReaderLives(conn: I.State)
    requires I.Inv(conn)
    ensures !conn.inb.failed && conn.read <= |conn.written|
  {
    assert I.MatchesAt(conn, conn.read);
  }

  /** What to do until the next message of the pump's can be taken. */
  function NextFetch(s: State): Label
    requires Inv(s) && Link(s) != []
  {
    if s.taken < |s.conn.inb.log| then Take
    else if s.conn.read < |s.conn.written| then Wire(I.ReadFrame)
    else
      LinkUnwritten(s);
      Wire(NextIo(I.Now(s.conn)[s.pump], s.pump))
  }

  /** That nothing else is in the way of the pump's next message. */
  ghost predicate Nearer(t: State, s: State) {
    && I.Shape(s.conn) && I.Shape(t.conn) && s.pump < |I.Now(s.conn)| && t.pump < |I.Now(t.conn)|
    && var (a, b) := (WriteRank(I.Now(t.conn)[t.pump]), WriteRank(I.Now(s.conn)[s.pump]));
    && (a < b || (a == b && (
          || |t.conn.written| - t.conn.read < |s.conn.written| - s.conn.read
          || (t.conn == s.conn && |t.conn.inb.log| - t.taken < |s.conn.inb.log| - s.taken))))
  }

  lemma FetchStep(s: State, more: nat)
    requires Roomy(s, more) && Link(s) != []
    ensures var l := NextFetch(s); Enabled(s, l) && Roomy(Step(s, l), more)
    ensures var l := NextFetch(s);
      if TurnStep(s, l).Some? then TurnStep(s, l) == Some(T.ClientRead)
      else Abs(Step(s, l)) == Abs(s) && Nearer(Step(s, l), s)
  {
    ReaderLives(s.conn);
    var l := NextFetch(s);
    if l.Wire? && !l.io.ReadFrame? {
      LinkUnwritten(s);
      IoFits(s.conn, s.pump, more);
    }
    StepProjects(s, l);
  }

  /** The client gets the pump's next message: the pump writes, the client's reader reads, what others sent is taken. */
  lemma {:induction false} Fetch(run: seq<State>, labels: seq<Label>, more: nat)
      returns (run': seq<State>, labels': seq<Label>)
    requires Linked(run, labels) && Roomy(run[|labels|], more) && Link(run[|labels|]) != []
    ensures Continues(run, labels, run', labels') && Roomy(run'[|labels'|], more)
    ensures T.Enabled(Abs(run[|labels|]), T.ClientRead)
    ensures Abs(run'[|labels'|]) == T.Step(Abs(run[|labels|]), T.ClientRead)
    decreases WriteRank(I.Now(run[|labels|].conn)[run[|labels|].pump]),
      |run[|labels|].conn.written| - run[|labels|].conn.read,
      |run[|labels|].conn.inb.log| - run[|labels|].taken
  {
    var s := run[|labels|];
    var l := NextFetch(s);
    FetchStep(s, more);
    StepProjects(s, l);
    run', labels' := Extend(run, labels, l);
    if TurnStep(s, l).None? {
      run', labels' := Fetch(run', labels', more);
    }
  }

  // ---- What the turn machine can do, the connection can carry ----

  /** A message says it, and fits a record. */
  ghost predicate Encodable(x: T.Down) {
    exists m :: Encodes(m, x) && I.Sendable(m)
  }

  /** The changes due can be sent. */
  ghost predicate DueEncodable(s: T.State) {
    forall c :: c in Due(s) ==> Encodable(T.Change(Push(c, Content(c, s.ws))))
  }

  /** Room for all that is due, and an encoding. */
  ghost predicate Affordable(s: State) {
    Roomy(s, Bill(s.rest)) && DueEncodable(s.rest)
  }

  lemma LinkFree(s: T.State, d: seq<T.Down>)
    ensures Bill(s.(down := d)) == Bill(s) && Due(s.(down := d)) == Due(s)
    ensures DueEncodable(s.(down := d)) <==> DueEncodable(s)
  {
  }

  lemma DueFalls(s: T.State, l: T.Label)
    requires T.Enabled(s, l) && Pays(s, l) && DueEncodable(s)
    ensures DueEncodable(T.Step(s, l))
  {
    var t := T.Step(s, l);
    forall c | c in Due(t) ensures Encodable(T.Change(Push(c, Content(c, t.ws)))) {
      assert c in Due(s) && t.ws == s.ws;
    }
  }

  /** What is left of the bill is paid for. */
  lemma PaidFor(s: State, l: T.Label, t: State)
    requires Affordable(s) && T.Enabled(Abs(s), l) && Pays(Abs(s), l)
    requires Inv(t) && Abs(t) == T.Step(Abs(s), l) && Room(t.conn, t.pump, Bill(t.rest))
    ensures Affordable(t)
  {
    LinkFree(s.rest, Link(s));
    LinkFree(t.rest, Link(t));
    DueFalls(Abs(s), l);
  }

  lemma BillFalls(s: State, l: T.Label, t: State)
    requires Inv(s) && Inv(t) && T.Enabled(Abs(s), l) && Pays(Abs(s), l) && Abs(t) == T.Step(Abs(s), l)
    ensures Bill(t.rest) + (if Emits(l) then Weight(Emission(Abs(s), l)) else 0) <= Bill(s.rest)
  {
    LinkFree(s.rest, Link(s));
    LinkFree(t.rest, Link(t));
  }

  lemma LiftRead(run: seq<State>, labels: seq<Label>) returns (run': seq<State>, labels': seq<Label>)
    requires Linked(run, labels) && Affordable(run[|labels|])
    requires T.Enabled(Abs(run[|labels|]), T.ClientRead) && Pays(Abs(run[|labels|]), T.ClientRead)
    ensures Continues(run, labels, run', labels') && Affordable(run'[|labels'|])
    ensures Abs(run'[|labels'|]) == T.Step(Abs(run[|labels|]), T.ClientRead)
  {
    var s := run[|labels|];
    run', labels' := Fetch(run, labels, Bill(s.rest));
    BillFalls(s, T.ClientRead, run'[|labels'|]);
    PaidFor(s, T.ClientRead, run'[|labels'|]);
  }

  lemma LiftLocal(s: State, l: T.Label) returns (t: State)
    requires Affordable(s) && T.Enabled(Abs(s), l) && Pays(Abs(s), l) && !Emits(l) && !l.ClientRead?
    ensures Enabled(s, Local(l)) && t == Step(s, Local(l)) && Affordable(t) && Abs(t) == T.Step(Abs(s), l)
  {
    LocalStep(Abs(s), l, []);
    assert Abs(s).(down := []) == s.rest;
    t := Step(s, Local(l));
    StepProjects(s, Local(l));
    BillFalls(s, l, t);
    PaidFor(s, l, t);
  }

  lemma Encoding(x: T.Down) returns (m: I.Message)
    requires x.Change? ==> Encodable(x)
    ensures Encodes(m, x) && I.Sendable(m) && 2 + |m.content| == Weight(x)
  {
    if x.Change? {
      m :| Encodes(m, x) && I.Sendable(m);
    } else {
      m := I.Message(if x.TurnDone? then MsgType.TurnDone else MsgType.StreamEvent, [], [], false);
    }
  }

  lemma EmissionDue(s: T.State, l: T.Label)
    requires DueEncodable(s) && Emits(l)
    requires l.PumpSend? ==> s.pump.Sending? && s.pump.rest != [] && s.pump.rest[0] in Due(s)
    ensures Emission(s, l).Change? ==> Encodable(Emission(s, l))
  {
  }

  lemma SubmitRoom(s: State, m: I.Message, more: nat)
    requires Inv(s) && Room(s.conn, s.pump, 2 + |m.content| + more) && I.Sendable(m)
    ensures I.Enabled(s.conn, I.Submit(s.pump, m)) && Room(I.Step(s.conn, I.Submit(s.pump, m)), s.pump, more)
  {
    var sd := I.Now(s.conn)[s.pump];
    assert I.MatchesAt(s.conn, |s.conn.written|);
    assert I.GoodSender(sd);
    UnwrittenSnoc(sd, m);
  }

  lemma LiftEmit(s: State, l: T.Label) returns (m: I.Message, t: State)
    requires Affordable(s) && T.Enabled(Abs(s), l) && Pays(Abs(s), l) && Emits(l)
    ensures Enabled(s, Emit(l, m)) && t == Step(s, Emit(l, m)) && Affordable(t) && Abs(t) == T.Step(Abs(s), l)
  {
    EmitStep(Abs(s), l, []);
    assert Abs(s).(down := []) == s.rest;
    LinkFree(s.rest, Link(s));
    EmissionDue(s.rest, l);
    m := Encoding(Emission(s.rest, l));
    SubmitRoom(s, m, Bill(s.rest) - Weight(Emission(s.rest, l)));
    t := Step(s, Emit(l, m));
    StepProjects(s, Emit(l, m));
    BillFalls(s, l, t);
    PaidFor(s, l, t);
  }

  /** An affordable state with the turn machine's state `u` behind it. */
  ghost predicate Carries(s: State, u: T.State) {
    Affordable(s) && Abs(s) == u
  }

  /** One step of the turn machine's that pays its way, done over the connection. */
  lemma LiftStep(run: seq<State>, labels: seq<Label>, u: T.State, l: T.Label)
      returns (run': seq<State>, labels': seq<Label>)
    requires Linked(run, labels) && Carries(run[|labels|], u) && T.Enabled(u, l) && Pays(u, l)
    ensures Continues(run, labels, run', labels') && Carries(run'[|labels'|], T.Step(u, l))
  {
    if l.ClientRead? {
      run', labels' := LiftRead(run, labels);
    } else if Emits(l) {
      var m, t := LiftEmit(run[|labels|], l);
      run', labels' := Extend(run, labels, Emit(l, m));
    } else {
      var t := LiftLocal(run[|labels|], l);
      run', labels' := Extend(run, labels, Local(l));
    }
  }

  ghost predicate PaidStep(states: seq<T.State>, turns: seq<T.Label>, n: nat)
    requires n < |turns| < |states|
  {
    T.Enabled(states[n], turns[n]) && Pays(states[n], turns[n]) && states[n + 1] == T.Step(states[n], turns[n])
  }

  lemma NextPays(states: seq<T.State>, turns: seq<T.Label>, n: nat)
    requires T.IsRun(states, turns) && n < |turns| && TurnPaths.Plain(turns[n])
    ensures PaidStep(states, turns, n)
  {
    assert T.StepsAt(states, turns, n);
    Convergence.RunInv(states, turns, n);
    PlainPays(states[n], turns[n]);
  }

  /** A continuation of the turn machine's that pays its way, done over the connection. */
  lemma {:induction false} Lift(run: seq<State>, labels: seq<Label>, states: seq<T.State>, turns: seq<T.Label>, n: nat)
      returns (run': seq<State>, labels': seq<Label>)
    requires Linked(run, labels) && |states| == |turns| + 1 && n <= |turns| && Carries(run[|labels|], states[n])
    requires forall k :: n <= k < |turns| ==> PaidStep(states, turns, k)
    ensures Continues(run, labels, run', labels') && Carries(run'[|labels'|], states[|turns|])
    decreases |turns| - n
  {
    run', labels' := run, labels;
    if n < |turns| {
      assert PaidStep(states, turns, n);
      run', labels' := LiftStep(run, labels, states[n], turns[n]);
      run', labels' := Lift(run', labels', states, turns, n + 1);
    }
  }

  ghost predicate BackThere(run: seq<State>, labels: seq<Label>, run': seq<State>, labels': seq<Label>) {
    Continues(run, labels, run', labels') && run'[|labels'|].rest.repl == T.AtPrompt
  }

  lemma FinishesThere(run: seq<State>, labels: seq<Label>) returns (run': seq<State>, labels': seq<Label>)
    requires IsRun(run, labels) && Affordable(run[|labels|]) && TurnPaths.Finishable(run[|labels|].rest)
    ensures BackThere(run, labels, run', labels')
  {
    var states, turns, at := Product.Project(run, labels, |labels|);
    assert StateAt(run, states, at, |labels|);
    Convergence.RunInv(states, turns, |turns|);
    var states', turns' := TurnPaths.Finishes(states, turns);
    assert states'[|turns|] == states[|turns|] && states'[0] == states[0];
    forall k | |turns| <= k < |turns'| ensures PaidStep(states', turns', k) {
      NextPays(states', turns', k);
    }
    run', labels' := Lift(run, labels, states', turns', |turns|);
  }

  lemma StuckThere(run: seq<State>, labels: seq<Label>, run': seq<State>, labels': seq<Label>)
    requires IsRun(run, labels) && BackThere(run, labels, run', labels')
    ensures TurnPaths.Finishable(run[|labels|].rest)
  {
    var n := |labels|;
    assert run'[0] == run[0] && run'[n] == run[n];
    var states, turns, at := Product.Project(run', labels', |labels'|);
    assert StateAt(run', states, at, n) && StateAt(run', states, at, |labels'|);
    Product.Onward(run', labels', |labels'|, states, turns, at, n, |labels'|);
    Convergence.RunInv(states, turns, |turns|);
    if !TurnPaths.Finishable(states[at[n]]) {
      TurnPaths.StuckFrom(states, turns, at[n], |turns|);
    }
  }

  /**
   Over the connection, as without it: where there are nonces and stream ids for what is due, and the changes
   due fit, a run can be continued until the client is back at its prompt if and only if no turn is open, or
   the open turn's end has been sent, or else nothing has gone wrong with the pump or the turn.
   */
  lemma TurnCanFinishThere(run: seq<State>, labels: seq<Label>)
    requires IsRun(run, labels) && Affordable(run[|labels|])
    ensures TurnPaths.Finishable(run[|labels|].rest) <==>
      exists run': seq<State>, labels': seq<Label> :: BackThere(run, labels, run', labels')
  {
    if TurnPaths.Finishable(run[|labels|].rest) {
      var run', labels' := FinishesThere(run, labels);
    }
    forall run': seq<State>, labels': seq<Label> | BackThere(run, labels, run', labels')
      ensures TurnPaths.Finishable(run[|labels|].rest)
    {
      StuckThere(run, labels, run', labels');
    }
  }
}
