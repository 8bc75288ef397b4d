/**
 The turns over the connection: the pump's sends go out record by record, interleaved with everybody else's,
 and the client takes whole messages as its reader delivers them. Every run projects to a run of the turn
 machine, so what holds of its FIFO link holds of the sealed, chunked, interleaved one.
 Sources: internal/adapters/transport/ws/notifier.go, client.go, internal/core/clientapp/clientapp.go.
 */
module Product {
  import opened Prelude
  import opened Domain
  import opened Protocol
  import opened Codec
  import opened Convergence
  import opened LocalFs
  import Links
  import I = Interleaving
  import Walk
  import T = Turns

  // ---- Messages ----

  /** The file change an announcement's payload says, if it parses. */
  const ParseChange: Bytes -> Option<FileChange>

  /** Messages the read loop neither applies nor signals. */
  predicate Neutral(m: I.Message) {
    m.typ != FileChanged && m.typ != MsgType.TurnDone
  }

  /** How the notifier writes a message; the payload's encoding is any that parses back. */
  predicate Encodes(m: I.Message, x: T.Down) {
    match x
    case Stream => Neutral(m)
    case Change(p) =>
      && m == I.Message(FileChanged, m.data, p.content, p.change.op != Delete)
      && ParseChange(m.data) == Some(p.change)
    case TurnDone => m.typ == MsgType.TurnDone
  }

  /** What the client's read loop takes a message for; a change that does not parse never comes from the pump. */
  function Decoded(m: I.Message): T.Down {
    if m.typ == FileChanged && ParseChange(m.data).Some? then T.Change(Push(ParseChange(m.data).value, m.content))
    else if m.typ == MsgType.TurnDone then T.TurnDone
    else T.Stream
  }

  /** The client takes a message for what the notifier was given, content included. */
  lemma DecodeEncode(m: I.Message, x: T.Down)
    requires Encodes(m, x)
    ensures Decoded(m) == x
  {
  }

  /** A message for a change is written as the notifier writes it: announced, then streamed unless it is a delete. */
  lemma NotifierWrites(m: I.Message, p: Push, sid: UInt64)
    requires Encodes(m, T.Change(p)) && (sid == 0 <==> p.change.op == Delete)
    ensures Links.MessageRecords(m, sid) == FileChangeRecords(sid, m.data, p.content)
  {
    Links.FileChangeIsMessage(m, sid);
  }

  function DecodeAll(ms: seq<I.Message>): seq<T.Down> {
    seq(|ms|, k requires 0 <= k < |ms| => Decoded(ms[k]))
  }

  // ---- The machine ----

  /**
   `rest` is the turn machine with its link left out; `pump` is the pump's sender on the connection; `taken`
   counts the delivered messages, of all senders, that the client has taken.
   */
  datatype State = State(rest: T.State, conn: I.State, pump: nat, taken: nat)

  datatype Label =
    | Local(step: T.Label)                 // a step that leaves the link alone
    | Emit(step: T.Label, m: I.Message)    // the pump sends
    | Take                                 // the client takes the next message, whoever sent it
    | Wire(io: I.Label)                    // a record is written or read, or another sender sends

  predicate Emits(l: T.Label) {
    l.PumpEvent? || l.PumpSend? || l.PumpDone?
  }

  /** What the pump sends. */
  function Emission(s: T.State, l: T.Label): T.Down
    requires Emits(l) && (l.PumpSend? ==> s.pump.Sending? && s.pump.rest != [])
  {
    match l
    case PumpSend => T.Change(Push(s.pump.rest[0], Content(s.pump.rest[0], s.ws)))
    case PumpDone => T.TurnDone
    case _ => T.Stream
  }

  /** A message that does not fit a record is not sent: then the pump's send is one that fails. */
  ghost predicate Enabled(s: State, l: Label) {
    && I.Shape(s.conn)
    && match l
       case Local(step) => T.Enabled(s.rest, step) && !Emits(step) && !step.ClientRead?
       case Emit(step, m) =>
         && T.Enabled(s.rest, step) && Emits(step) && Encodes(m, Emission(s.rest, step))
         && I.Enabled(s.conn, I.Submit(s.pump, m))
       case Take => s.taken < |s.conn.inb.log|
       case Wire(io) => I.Enabled(s.conn, io) && (io.Submit? ==> io.i != s.pump && Neutral(io.m))
  }

  function TakeOne(s: T.State, x: T.Down): T.State {
    T.ReadDown(s.(down := [x]))
  }

  ghost function Step(s: State, l: Label): State
    requires Enabled(s, l)
  {
    match l
    case Local(step) => s.(rest := T.Step(s.rest, step))
    case Emit(step, m) => s.(rest := T.Step(s.rest, step).(down := []), conn := I.Step(s.conn, I.Submit(s.pump, m)))
    case Take =>
      s.(rest := TakeOne(s.rest, Decoded(I.Logical(s.conn.inb.log[s.taken].msg))), taken := s.taken + 1)
    case Wire(io) => s.(conn := I.Step(s.conn, io))
  }

  /** A connection as any run may have left it. */
  ghost predicate Reached(conn: I.State) {
    exists run: seq<I.State>, labels: seq<I.Label> :: I.IsRun(run, labels) && run[|labels|] == conn
  }

  ghost predicate OthersNeutral(conn: I.State, pump: nat)
    requires I.Shape(conn)
  {
    forall j, k :: 0 <= j < |I.Now(conn)| && j != pump && 0 <= k < |I.Total(conn, j)| ==> Neutral(I.Total(conn, j)[k])
  }

  /** Turns begin on a connection whatever has gone over it, as long as the pump has not sent anything yet. */
  ghost predicate Initial(s: State) {
    && T.Initial(s.rest) && Reached(s.conn) && I.Shape(s.conn)
    && s.pump < |I.Now(s.conn)| && I.Total(s.conn, s.pump) == [] && OthersNeutral(s.conn, s.pump)
    && s.taken <= |s.conn.inb.log|
  }

  ghost predicate StepsAt(run: seq<State>, labels: seq<Label>, k: nat)
    requires k < |labels| < |run|
  {
    Enabled(run[k], labels[k]) && run[k + 1] == Step(run[k], labels[k])
  }

  ghost predicate Linked(run: seq<State>, labels: seq<Label>) {
    |run| == |labels| + 1 && forall k :: 0 <= k < |labels| ==> StepsAt(run, labels, k)
  }

  ghost predicate IsRun(run: seq<State>, labels: seq<Label>) {
    Linked(run, labels) && Initial(run[0])
  }

  // ---- What the connection holds of the link ----

  /** The pump's messages the client has taken. */
  function Got(s: State): seq<I.Message>
    requires s.taken <= |s.conn.inb.log|
  {
    I.Delivered(s.conn.inb.log[..s.taken], s.pump)
  }

  ghost predicate Inv(s: State) {
    && I.Inv(s.conn) && s.pump < |I.Now(s.conn)| && OthersNeutral(s.conn, s.pump)
    && s.taken <= |s.conn.inb.log| && s.rest.down == []
    && Got(s) <= I.Total(s.conn, s.pump)
  }

  /** What the pump has sent and the client not taken, wherever it is: unwritten, on the wire, half assembled. */
  function Link(s: State): seq<T.Down>
    requires I.Shape(s.conn) && s.pump < |I.Now(s.conn)| && s.taken <= |s.conn.inb.log|
    requires Got(s) <= I.Total(s.conn, s.pump)
  {
    DecodeAll(I.Total(s.conn, s.pump)[|Got(s)|..])
  }

  /** The turn machine's state: the link is what the connection holds of it. */
  function Abs(s: State): T.State
    requires I.Shape(s.conn) && s.pump < |I.Now(s.conn)| && s.taken <= |s.conn.inb.log|
    requires Got(s) <= I.Total(s.conn, s.pump)
  {
    s.rest.(down := Link(s))
  }

  /** The turn machine's step behind a step, if there is one. */
  function TurnStep(s: State, l: Label): Option<T.Label> {
    match l
    case Local(step) => Some(step)
    case Emit(step, _) => Some(step)
    case Take =>
      if s.taken < |s.conn.inb.log| && s.conn.inb.log[s.taken].from == s.pump then Some(T.ClientRead) else None
    case Wire(_) => None
  }

  // ---- Deliveries ----

  lemma {:induction false} DeliveredPrefix(log: seq<I.Delivery>, n: nat, j: nat)
    requires n <= |log|
    ensures I.Delivered(log[..n], j) <= I.Delivered(log, j)
    decreases |log|
  {
    if n < |log| {
      DeliveredPrefix(log[..|log| - 1], n, j);
      assert log[..|log| - 1][..n] == log[..n];
    } else {
      assert log[..n] == log;
    }
  }

  lemma {:induction false} DeliveredHas(log: seq<I.Delivery>, n: nat)
    requires n < |log|
    ensures I.Logical(log[n].msg) in I.Delivered(log, log[n].from)
    decreases |log|
  {
    if n < |log| - 1 { DeliveredHas(log[..|log| - 1], n); }
  }

  lemma DeliveredTotal(conn: I.State, j: nat)
    requires I.Inv(conn) && j < |I.Now(conn)|
    ensures I.Delivered(conn.inb.log, j) <= I.Total(conn, j)
  {
    assert I.MatchesAt(conn, conn.read);
    assert conn.history[conn.read][j].sent <= I.Now(conn)[j].sent;
  }

  lemma OtherNeutral(conn: I.State, pump: nat, n: nat)
    requires I.Inv(conn) && OthersNeutral(conn, pump) && n < |conn.inb.log| && conn.inb.log[n].from != pump
    ensures Neutral(I.Logical(conn.inb.log[n].msg))
  {
    var d := conn.inb.log[n];
    assert I.MatchesAt(conn, conn.read);
    assert d in conn.inb.log;
    DeliveredHas(conn.inb.log, n);
    DeliveredTotal(conn, d.from);
    assert I.Logical(d.msg) in I.Total(conn, d.from);
  }

  /** The next message is the pump's oldest one not taken, or means nothing to the turns. */
  lemma NextTaken(s: State)
    requires Inv(s) && s.taken < |s.conn.inb.log|
    ensures var (d, n) := (s.conn.inb.log[s.taken], |Got(s)|);
      && Got(s.(taken := s.taken + 1)) == Got(s) + (if d.from == s.pump then [I.Logical(d.msg)] else [])
      && Got(s.(taken := s.taken + 1)) <= I.Total(s.conn, s.pump)
      && (d.from == s.pump ==> n < |I.Total(s.conn, s.pump)| && I.Logical(d.msg) == I.Total(s.conn, s.pump)[n])
      && (d.from != s.pump ==> Neutral(I.Logical(d.msg)))
  {
    var log, n, d := s.conn.inb.log, s.taken, s.conn.inb.log[s.taken];
    assert log[..n + 1] == log[..n] + [d];
    I.DeliveredSnoc(log[..n], d, s.pump);
    DeliveredPrefix(log, n + 1, s.pump);
    DeliveredTotal(s.conn, s.pump);
    if d.from != s.pump { OtherNeutral(s.conn, s.pump, n); }
  }

  // ---- Every step is a step of the turn machine, or none ----

  lemma LocalHandler(s: T.State, l: T.Label, d: seq<T.Down>)
    requires T.Enabled(s, l) && T.HandlerLabel(l)
    ensures T.Enabled(s.(down := d), l) && T.Step(s.(down := d), l) == T.Step(s, l).(down := d)
    ensures T.Step(s, l).down == s.down
  {
  }

  lemma LocalPump(s: T.State, l: T.Label, d: seq<T.Down>)
    requires T.Enabled(s, l) && T.PumpLabel(l) && !Emits(l)
    ensures T.Enabled(s.(down := d), l) && T.Step(s.(down := d), l) == T.Step(s, l).(down := d)
    ensures T.Step(s, l).down == s.down
  {
  }

  lemma LocalFail(s: T.State, l: T.Label, d: seq<T.Down>)
    requires T.Enabled(s, l) && T.FailLabel(l)
    ensures T.Enabled(s.(down := d), l) && T.Step(s.(down := d), l) == T.Step(s, l).(down := d)
    ensures T.Step(s, l).down == s.down
  {
  }

  lemma LocalOther(s: T.State, l: T.Label, d: seq<T.Down>)
    requires T.Enabled(s, l) && !T.HandlerLabel(l) && !T.PumpLabel(l) && !T.FailLabel(l) && !l.ClientRead?
    ensures T.Enabled(s.(down := d), l) && T.Step(s.(down := d), l) == T.Step(s, l).(down := d)
    ensures T.Step(s, l).down == s.down
  {
  }

  /** Steps that leave the link alone do the same whatever is on it. */
  lemma LocalStep(s: T.State, l: T.Label, d: seq<T.Down>)
    requires T.Enabled(s, l) && !Emits(l) && !l.ClientRead?
    ensures T.Enabled(s.(down := d), l) && T.Step(s.(down := d), l) == T.Step(s, l).(down := d)
    ensures T.Step(s, l).down == s.down
  {
    if T.HandlerLabel(l) {
      LocalHandler(s, l, d);
    } else if T.PumpLabel(l) {
      LocalPump(s, l, d);
    } else if T.FailLabel(l) {
      LocalFail(s, l, d);
    } else {
      LocalOther(s, l, d);
    }
  }

  lemma EmitStep(s: T.State, l: T.Label, d: seq<T.Down>)
    requires T.Enabled(s, l) && Emits(l)
    ensures T.Enabled(s.(down := d), l)
    ensures T.Step(s.(down := d), l) == T.Step(s, l).(down := d + [Emission(s, l)])
  {
  }

  lemma DecodeSnoc(ms: seq<I.Message>, m: I.Message)
    ensures DecodeAll(ms + [m]) == DecodeAll(ms) + [Decoded(m)]
  {
  }

  lemma SuffixSnoc(ms: seq<I.Message>, m: I.Message, n: nat)
    requires n <= |ms|
    ensures (ms + [m])[n..] == ms[n..] + [m]
  {
  }

  /** The connection's share of a step: nobody but the pump adds to its queue, and nothing delivered is taken back. */
  lemma ConnStep(s: State, io: I.Label)
    requires Inv(s) && I.Enabled(s.conn, io) && (io.Submit? && io.i != s.pump ==> Neutral(io.m))
    ensures var t := s.(conn := I.Step(s.conn, io));
      && Inv(t) && Got(t) == Got(s)
      && I.Total(t.conn, s.pump) == I.Total(s.conn, s.pump) + if io.Submit? && io.i == s.pump then [io.m] else []
  {
    var conn' := I.Step(s.conn, io);
    I.StepInv(s.conn, io);
    I.StepTotal(s.conn, io, s.pump);
    LogExtends(s.conn, io);
    assert conn'.inb.log[..s.taken] == s.conn.inb.log[..s.taken];
    NeutralKept(s.conn, io, s.pump);
  }

  lemma LogExtends(conn: I.State, io: I.Label)
    requires I.Shape(conn) && I.Enabled(conn, io)
    ensures conn.inb.log <= I.Step(conn, io).inb.log
  {
  }

  lemma NeutralKept(conn: I.State, io: I.Label, pump: nat)
    requires I.Shape(conn) && I.Enabled(conn, io) && OthersNeutral(conn, pump)
    requires io.Submit? && io.i != pump ==> Neutral(io.m)
    ensures I.Shape(I.Step(conn, io)) && OthersNeutral(I.Step(conn, io), pump)
  {
    forall j: nat | j < |I.Now(conn)| ensures I.Shape(I.Step(conn, io)) && |I.Now(I.Step(conn, io))| == |I.Now(conn)|
      ensures I.Total(I.Step(conn, io), j) == I.Total(conn, j) + if io.Submit? && io.i == j then [io.m] else []
    {
      I.StepTotal(conn, io, j);
    }
  }

  lemma EmitInv(s: State, l: T.Label, m: I.Message)
    requires Inv(s) && Enabled(s, Emit(l, m))
    ensures var t := Step(s, Emit(l, m));
      Inv(t) && T.Enabled(Abs(s), l) && Abs(t) == T.Step(Abs(s), l)
  {
    ConnStep(s, I.Submit(s.pump, m));
    EmitStep(s.rest, l, Link(s));
    DecodeEncode(m, Emission(s.rest, l));
    var all := I.Total(s.conn, s.pump);
    SuffixSnoc(all, m, |Got(s)|);
    DecodeSnoc(all[|Got(s)|..], m);
  }

  lemma LocalInv(s: State, l: T.Label)
    requires Inv(s) && Enabled(s, Local(l))
    ensures var t := Step(s, Local(l));
      Inv(t) && T.Enabled(Abs(s), l) && Abs(t) == T.Step(Abs(s), l)
  {
    LocalStep(s.rest, l, Link(s));
  }

  lemma WireInv(s: State, io: I.Label)
    requires Inv(s) && Enabled(s, Wire(io))
    ensures var t := Step(s, Wire(io)); Inv(t) && Abs(t) == Abs(s)
  {
    ConnStep(s, io);
    assert I.Total(s.conn, s.pump) + [] == I.Total(s.conn, s.pump);
  }

  /** Reading the head of a link, seen with and without the rest of it. */
  lemma ReadHead(s: T.State, x: T.Down, d: seq<T.Down>)
    ensures T.Enabled(s.(down := [x] + d), T.ClientRead)
    ensures T.Step(s.(down := [x] + d), T.ClientRead) == TakeOne(s, x).(down := d)
  {
    assert ([x] + d)[1..] == d;
  }

  lemma ReadNeutral(s: T.State, x: T.Down)
    ensures TakeOne(s, x).down == []
    ensures x == T.Stream && s.down == [] ==> TakeOne(s, x) == s
  {
  }

  lemma TakeInv(s: State)
    requires Inv(s) && s.taken < |s.conn.inb.log|
    ensures Inv(Step(s, Take))
  {
    NextTaken(s);
    ReadNeutral(s.rest, Decoded(I.Logical(s.conn.inb.log[s.taken].msg)));
  }

  lemma LinkHead(s: State)
    requires Inv(s) && s.taken < |s.conn.inb.log| && s.conn.inb.log[s.taken].from == s.pump
    ensures var s' := s.(taken := s.taken + 1);
      Got(s') <= I.Total(s.conn, s.pump) && Link(s) == [Decoded(I.Logical(s.conn.inb.log[s.taken].msg))] + Link(s')
  {
    NextTaken(s);
    var all, n := I.Total(s.conn, s.pump), |Got(s)|;
    assert all[n..] == [all[n]] + all[n + 1..];
  }

  lemma TakePumps(s: State)
    requires Inv(s) && s.taken < |s.conn.inb.log| && s.conn.inb.log[s.taken].from == s.pump
    ensures var t := Step(s, Take);
      Inv(t) && T.Enabled(Abs(s), T.ClientRead) && Abs(t) == T.Step(Abs(s), T.ClientRead)
  {
    TakeInv(s);
    LinkHead(s);
    ReadHead(s.rest, Decoded(I.Logical(s.conn.inb.log[s.taken].msg)), Link(s.(taken := s.taken + 1)));
  }

  lemma TakeOthers(s: State)
    requires Inv(s) && s.taken < |s.conn.inb.log| && s.conn.inb.log[s.taken].from != s.pump
    ensures var t := Step(s, Take); Inv(t) && Abs(t) == Abs(s)
  {
    TakeInv(s);
    NextTaken(s);
    ReadNeutral(s.rest, T.Stream);
  }

  /** Every step of the product is one step of the turn machine over what the connection holds of its link, or none. */
  lemma StepProjects(s: State, l: Label)
    requires Inv(s) && Enabled(s, l)
    ensures Inv(Step(s, l))
    ensures match TurnStep(s, l)
      case Some(step) => T.Enabled(Abs(s), step) && Abs(Step(s, l)) == T.Step(Abs(s), step)
      case None => Abs(Step(s, l)) == Abs(s)
  {
    match l
    case Local(step) => LocalInv(s, step);
    case Emit(step, m) => EmitInv(s, step, m);
    case Take => if s.conn.inb.log[s.taken].from == s.pump { TakePumps(s); } else { TakeOthers(s); }
    case Wire(io) => WireInv(s, io);
  }

  lemma InitialInv(s: State)
    requires Initial(s)
    ensures Inv(s) && Abs(s) == s.rest
  {
    var run: seq<I.State>, labels: seq<I.Label> :| I.IsRun(run, labels) && run[|labels|] == s.conn;
    I.RunInv(run, labels, |labels|);
    DeliveredPrefix(s.conn.inb.log, s.taken, s.pump);
    DeliveredTotal(s.conn, s.pump);
  }

  // ---- Every run projects ----

  /** Step k of the product is step `at[k]` of the turn machine, or none. */
  ghost predicate Follows(run: seq<State>, labels: seq<Label>, turns: seq<T.Label>, at: seq<nat>, k: nat)
    requires k < |labels| < |run| && k + 1 < |at|
  {
    match TurnStep(run[k], labels[k])
    case None => at[k + 1] == at[k]
    case Some(step) => at[k + 1] == at[k] + 1 && at[k] < |turns| && turns[at[k]] == step
  }

  ghost predicate StateAt(run: seq<State>, states: seq<T.State>, at: seq<nat>, k: nat)
    requires k < |run| && k < |at|
  {
    at[k] < |states| && Inv(run[k]) && states[at[k]] == Abs(run[k])
  }

  /** A run of the turn machine behind the first n steps: its state after product step k is number `at[k]`. */
  ghost predicate Projects(run: seq<State>, labels: seq<Label>, n: nat,
      states: seq<T.State>, turns: seq<T.Label>, at: seq<nat>)
    requires n <= |labels| < |run|
  {
    && T.IsRun(states, turns) && |at| == n + 1 && at[0] == 0 && at[n] == |turns|
    && (forall k :: 0 <= k <= n ==> StateAt(run, states, at, k))
    && (forall k :: 0 <= k < n ==> Follows(run, labels, turns, at, k))
  }

  lemma TurnsLonger(states: seq<T.State>, turns: seq<T.Label>, l: T.Label, u: T.State)
    requires T.Linked(states, turns) && T.Enabled(states[|turns|], l) && u == T.Step(states[|turns|], l)
    ensures T.Linked(states + [u], turns + [l])
  {
    forall k | 0 <= k < |turns + [l]| ensures T.StepsAt(states + [u], turns + [l], k) {
      if k < |turns| { assert T.StepsAt(states, turns, k); }
    }
  }

  lemma NextAt(run: seq<State>, labels: seq<Label>, n: nat, states: seq<T.State>, turns: seq<T.Label>, at: seq<nat>,
      states': seq<T.State>, turns': seq<T.Label>, at': seq<nat>)
    requires n < |labels| < |run| && |at| == n + 1 && at[n] == |turns| && |states| == |turns| + 1
    requires Inv(run[n]) && states[|turns|] == Abs(run[n]) && StepsAt(run, labels, n) && Inv(run[n + 1])
    requires var step := TurnStep(run[n], labels[n]);
      if step.Some? then
        && T.Enabled(Abs(run[n]), step.value) && turns' == turns + [step.value] && states' == states + [Abs(run[n + 1])]
      else turns' == turns && states' == states && Abs(run[n + 1]) == Abs(run[n])
    requires at' == at + [|turns'|]
    ensures StateAt(run, states', at', n + 1) && Follows(run, labels, turns', at', n)
  {
  }

  lemma Longer(run: seq<State>, labels: seq<Label>, n: nat, states: seq<T.State>, turns: seq<T.Label>, at: seq<nat>,
      states': seq<T.State>, turns': seq<T.Label>, at': seq<nat>)
    requires n < |labels| < |run| && Projects(run, labels, n, states, turns, at)
    requires T.IsRun(states', turns') && states <= states' && turns <= turns' && at' == at + [|turns'|]
    requires StateAt(run, states', at', n + 1) && Follows(run, labels, turns', at', n)
    ensures Projects(run, labels, n + 1, states', turns', at')
  {
    forall k | 0 <= k <= n + 1 ensures StateAt(run, states', at', k) {
      if k <= n { assert StateAt(run, states, at, k); }
    }
    forall k | 0 <= k < n + 1 ensures Follows(run, labels, turns', at', k) {
      if k < n { assert Follows(run, labels, turns, at, k); }
    }
  }

  lemma ProjectNone(run: seq<State>, labels: seq<Label>)
      returns (states: seq<T.State>, turns: seq<T.Label>, at: seq<nat>)
    requires |labels| < |run| && Inv(run[0]) && T.Initial(Abs(run[0]))
    ensures Projects(run, labels, 0, states, turns, at)
  {
    states, turns, at := [Abs(run[0])], [], [0];
    assert StateAt(run, states, at, 0);
  }

  lemma ProjectNext(run: seq<State>, labels: seq<Label>, n: nat,
      states: seq<T.State>, turns: seq<T.Label>, at: seq<nat>)
      returns (states': seq<T.State>, turns': seq<T.Label>, at': seq<nat>)
    requires Linked(run, labels) && n < |labels| && Projects(run, labels, n, states, turns, at)
    ensures Projects(run, labels, n + 1, states', turns', at')
  {
    assert StateAt(run, states, at, n) && StepsAt(run, labels, n);
    StepProjects(run[n], labels[n]);
    states', turns' := states, turns;
    var step := TurnStep(run[n], labels[n]);
    if step.Some? {
      TurnsLonger(states, turns, step.value, T.Step(states[|turns|], step.value));
      states', turns' := states + [T.Step(states[|turns|], step.value)], turns + [step.value];
    }
    at' := at + [|turns'|];
    NextAt(run, labels, n, states, turns, at, states', turns', at');
    Longer(run, labels, n, states, turns, at, states', turns', at');
  }

  lemma {:induction false} ProjectRest(run: seq<State>, labels: seq<Label>, n: nat, m: nat,
      states: seq<T.State>, turns: seq<T.Label>, at: seq<nat>)
      returns (states': seq<T.State>, turns': seq<T.Label>, at': seq<nat>)
    requires Linked(run, labels) && n <= m <= |labels| && Projects(run, labels, n, states, turns, at)
    ensures Projects(run, labels, m, states', turns', at')
    decreases m - n
  {
    states', turns', at' := states, turns, at;
    if n < m {
      states', turns', at' := ProjectNext(run, labels, n, states, turns, at);
      states', turns', at' := ProjectRest(run, labels, n + 1, m, states', turns', at');
    }
  }

  /**
   Every run over the connection projects to a run of the turn machine over its FIFO link, whatever else goes
   over the connection: the same client, workspace, handlers and pump at every step.
   */
  lemma Project(run: seq<State>, labels: seq<Label>, n: nat)
      returns (states: seq<T.State>, turns: seq<T.Label>, at: seq<nat>)
    requires IsRun(run, labels) && n <= |labels|
    ensures Projects(run, labels, n, states, turns, at)
  {
    InitialInv(run[0]);
    states, turns, at := ProjectNone(run, labels);
    states, turns, at := ProjectRest(run, labels, 0, n, states, turns, at);
  }

  /** Each step of the projection is behind a step of the product. */
  lemma {:induction false} Behind(run: seq<State>, labels: seq<Label>, n: nat,
      states: seq<T.State>, turns: seq<T.Label>, at: seq<nat>, k: nat, m: nat) returns (j: nat)
    requires n <= |labels| < |run| && Projects(run, labels, n, states, turns, at) && k <= n && m < at[k]
    ensures j < k && at[j] == m && m < |turns| && TurnStep(run[j], labels[j]) == Some(turns[m])
  {
    assert k > 0;
    assert Follows(run, labels, turns, at, k - 1);
    if m < at[k - 1] {
      j := Behind(run, labels, n, states, turns, at, k - 1, m);
    } else {
      j := k - 1;
    }
  }

  lemma {:induction false} Onward(run: seq<State>, labels: seq<Label>, n: nat,
      states: seq<T.State>, turns: seq<T.Label>, at: seq<nat>, j: nat, k: nat)
    requires n <= |labels| < |run| && Projects(run, labels, n, states, turns, at) && j <= k <= n
    ensures at[j] <= at[k]
    decreases k - j
  {
    if j < k {
      assert Follows(run, labels, turns, at, k - 1);
      Onward(run, labels, n, states, turns, at, j, k - 1);
    }
  }

  // ---- Convergence over the connection ----

  predicate Diffs(l: Label) {
    (l.Local? || l.Emit?) && l.step.PumpSnapshot?
  }

  /** No diff in the first k steps had `p` obstructed. */
  ghost predicate Unobstructed(run: seq<State>, labels: seq<Label>, k: nat, p: string)
    requires k <= |labels| < |run|
  {
    forall j :: 0 <= j < k && Diffs(labels[j]) ==> !ObstructedAt(run[j].rest, p)
  }

  /** Path `p` of the client and of the workspace after the first k steps. */
  ghost predicate InStepThere(run: seq<State>, k: nat, p: string)
    requires k < |run|
  {
    var (s, s0) := (run[k].rest, run[0].rest);
    InStepAt(s.client, s.ws, s0.client, EverSynced(Walk.SnapshotOf(s0.ws), s.log.taken), EverChanged(s.log.taken), p)
  }

  lemma UnobstructedBehind(run: seq<State>, labels: seq<Label>, n: nat,
      states: seq<T.State>, turns: seq<T.Label>, at: seq<nat>, k: nat, p: string)
    requires n <= |labels| < |run| && Projects(run, labels, n, states, turns, at) && k <= n
    requires Unobstructed(run, labels, k, p)
    ensures at[k] <= |turns| && NeverObstructed(states, turns, at[k], p)
  {
    Onward(run, labels, n, states, turns, at, k, n);
    forall m | 0 <= m < at[k] && turns[m].PumpSnapshot? ensures !ObstructedAt(states[m], p) {
      var j := Behind(run, labels, n, states, turns, at, k, m);
      assert StateAt(run, states, at, j);
      assert Diffs(labels[j]);
    }
  }

  lemma SameThere(run: seq<State>, labels: seq<Label>, n: nat,
      states: seq<T.State>, turns: seq<T.Label>, at: seq<nat>, k: nat, p: string)
    requires n <= |labels| < |run| && Projects(run, labels, n, states, turns, at) && k <= n
    ensures at[k] < |states| && (InStepHere(states, at[k], p) <==> InStepThere(run, k, p))
    ensures Settled(states[at[k]]) <==> Settled(run[k].rest)
  {
    assert StateAt(run, states, at, k) && StateAt(run, states, at, 0);
  }

  /**
   Convergence over the connection: with the pump's messages sealed, cut into records and interleaved with anyone
   else's, a path no diff has found obstructed is in step whenever the client is settled.
   */
  lemma ConvergesThere(run: seq<State>, labels: seq<Label>, k: nat, p: string)
    requires IsRun(run, labels) && k <= |labels| && Settled(run[k].rest) && Unobstructed(run, labels, k, p)
    ensures InStepThere(run, k, p)
  {
    var states, turns, at := Project(run, labels, k);
    UnobstructedBehind(run, labels, k, states, turns, at, k, p);
    SameThere(run, labels, k, states, turns, at, k, p);
    ConvergesAt(states, turns, at[k], p);
  }

  /** Of the diffs in the first k steps that changed `p`, the one of step j was the last, and met an obstacle. */
  ghost predicate LastBlockedThere(run: seq<State>, labels: seq<Label>, k: nat, p: string, j: nat)
    requires k <= |labels| < |run|
  {
    && j < k && Diffs(labels[j]) && BlockedAt(run[j].rest, p)
    && forall i :: j < i < k && Diffs(labels[i]) ==> !ChangesAt(run[i].rest, p)
  }

  lemma LinkLeavesBehind(s: T.State, d: seq<T.Down>, p: string)
    ensures ChangesAt(s.(down := d), p) == ChangesAt(s, p) && BlockedAt(s.(down := d), p) == BlockedAt(s, p)
  {
  }

  lemma BehindThereStep(s: State, l: Label, p: string)
    requires Inv(s) && Enabled(s, l)
    ensures p in Step(s, l).rest.log.behind <==>
      if Diffs(l) && ChangesAt(s.rest, p) then BlockedAt(s.rest, p) else p in s.rest.log.behind
  {
    StepProjects(s, l);
    if TurnStep(s, l).Some? {
      BehindStep(Abs(s), TurnStep(s, l).value, p);
      LinkLeavesBehind(s.rest, Link(s), p);
    }
  }

  lemma BehindThereNext(run: seq<State>, labels: seq<Label>, j: nat, p: string)
    requires Linked(run, labels) && j < |labels| && Inv(run[j])
    ensures p in run[j + 1].rest.log.behind <==>
      if Diffs(labels[j]) && ChangesAt(run[j].rest, p) then BlockedAt(run[j].rest, p) else p in run[j].rest.log.behind
  {
    assert StepsAt(run, labels, j);
    BehindThereStep(run[j], labels[j], p);
  }

  lemma SameLastThere(run: seq<State>, labels: seq<Label>, k: nat, p: string, j: nat,
      touch: seq<bool>, value: seq<bool>)
    requires k <= |labels| < |run| && |touch| == |value| == k
    requires forall i :: 0 <= i < k ==> touch[i] == (Diffs(labels[i]) && ChangesAt(run[i].rest, p))
    requires forall i :: 0 <= i < k ==> value[i] == BlockedAt(run[i].rest, p)
    ensures LastTouch(touch, value, k, j) <==> LastBlockedThere(run, labels, k, p, j)
  {
    if j < k { BlockedChanges(run[j].rest, p); }
  }

  ghost predicate BehindThere(run: seq<State>, labels: seq<Label>, k: nat, p: string)
    requires k <= |labels| < |run|
  {
    exists j: nat :: LastBlockedThere(run, labels, k, p, j)
  }

  lemma BehindThereExact(run: seq<State>, labels: seq<Label>, k: nat, p: string)
    requires Linked(run, labels) && k <= |labels| && run[0].rest.log.behind == {}
    requires forall j :: 0 <= j <= k ==> Inv(run[j])
    ensures p in run[k].rest.log.behind <==> BehindThere(run, labels, k, p)
  {
    var flag := seq(k + 1, i requires 0 <= i <= k => p in run[i].rest.log.behind);
    var touch := seq(k, i requires 0 <= i < k => Diffs(labels[i]) && ChangesAt(run[i].rest, p));
    var value := seq(k, i requires 0 <= i < k => BlockedAt(run[i].rest, p));
    forall j | 0 <= j < k ensures LatchAt(flag, touch, value, j) {
      BehindThereNext(run, labels, j, p);
    }
    LatchExact(flag, touch, value, k);
    forall j: nat ensures LastTouch(touch, value, k, j) <==> LastBlockedThere(run, labels, k, p, j) {
      SameLastThere(run, labels, k, p, j, touch, value);
    }
  }

  lemma ProjectedInv(run: seq<State>, labels: seq<Label>, n: nat,
      states: seq<T.State>, turns: seq<T.Label>, at: seq<nat>)
    requires n <= |labels| < |run| && Projects(run, labels, n, states, turns, at)
    ensures forall j :: 0 <= j <= n ==> Inv(run[j])
  {
    forall j | 0 <= j <= n ensures Inv(run[j]) {
      assert StateAt(run, states, at, j);
    }
  }

  lemma LoggedThere(run: seq<State>, labels: seq<Label>, k: nat, p: string)
    requires IsRun(run, labels) && k <= |labels| && Settled(run[k].rest)
    ensures InStepThere(run, k, p) <==> p !in run[k].rest.log.behind
    ensures forall j :: 0 <= j <= k ==> Inv(run[j])
  {
    var states, turns, at := Project(run, labels, k);
    SameThere(run, labels, k, states, turns, at, k, p);
    ProjectedInv(run, labels, k, states, turns, at);
    InStepLogged(states, turns, at[k], p);
    assert StateAt(run, states, at, k);
  }

  /** Exactly as without a connection: in step if and only if the last diff that changed the path was not blocked. */
  lemma InStepThereExactly(run: seq<State>, labels: seq<Label>, k: nat, p: string)
    requires IsRun(run, labels) && k <= |labels| && Settled(run[k].rest)
    ensures InStepThere(run, k, p) <==> !BehindThere(run, labels, k, p)
  {
    LoggedThere(run, labels, k, p);
    NothingBehind(run[0].rest);
    BehindThereExact(run, labels, k, p);
  }
}
