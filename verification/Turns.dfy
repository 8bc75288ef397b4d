/**
 The turns of a session: client REPL and reader, server dispatcher, one goroutine per prompt, the
 agent, and the pump that finishes turns, stepping in any order over FIFO links.
 Sources: internal/core/app/session.go, internal/core/clientapp/clientapp.go, ws/server.go.
 */
module Turns {
  import opened Domain
  import opened Trees
  import opened Hashing
  import opened LocalFs
  import Diff
  import Walk

  /** Where a HandlePrompt goroutine is. */
  datatype Handler =
    | Spawned                    // before the snapshot
    | Snapped(snap: Manifest)    // before storing it as the baseline
    | Stored                     // before draining a stale completion signal
    | Drained                    // before agent.Send
    | Parked                     // waiting on the completion channel
    | Returned                   // by a signal
    | Refused                    // agent.Send failed

  /** Where the pump is; everything after `Ready` happens on a result event. */
  datatype Pump =
    | Ready
    | Finishing                                         // before the snapshot
    | Sending(after: Manifest, rest: seq<FileChange>)   // pushing changes
    | Advanced                                          // baseline moved, TurnDone not yet sent
    | Signalling                                        // TurnDone sent or given up, signal not yet posted
    | Stopped                                           // an event could not be forwarded

  datatype Event = Other | Result

  datatype Down = Stream | Change(push: Push) | TurnDone

  datatype Repl = AtPrompt | Waiting

  datatype State = State(
    repl: Repl, token: bool, client: Tree,              // client
    up: nat, down: seq<Down>,                           // links
    handlers: seq<Handler>, preTurn: Manifest,          // server
    signal: bool, pump: Pump,
    outstanding: nat, events: seq<Event>, ws: Tree,     // agent
    log: Log)

  /** Bookkeeping that no step reads: counters and what the statements below speak of. */
  datatype Log = Log(
    phase: Phase,
    prompts: nat, tokens: nat, posted: nat, dropped: nat, drained: nat, returned: nat,
    sentAt: seq<Manifest>,                // the workspace snapshot at each agent.Send
    taken: seq<(Manifest, Manifest)>,     // baseline and snapshot of each diff taken
    start: Tree, first: Manifest,         // client tree and workspace snapshot when turns began
    ever: set<string>,                    // paths of any snapshot so far
    touched: set<string>,                 // paths of any change so far
    behind: set<string>)                  // paths whose last change so far met an obstacle on the client

  /** Where the one thing that can be going on has got to. */
  datatype Phase =
    | Quiet | Flying | Preparing(g: nat) | Busy | Ended | Closing | Announced | TokenReady
    | NotSent    // the agent refused the prompt
    | Lost       // the pump stopped on the turn's result
    | NotPushed  // a change or the turn's end could not be sent

  datatype Label =
    | ClientPrompt | ClientRead | ClientToken
    | ServerSpawn
    | TakeSnapshot(g: nat) | StoreBaseline(g: nat) | Drain(g: nat) | Send(g: nat) | SendFails(g: nat) | Return(g: nat)
    | AgentEdit(ws: Tree) | AgentEvent | AgentResult
    | PumpEvent | PumpSnapshot | PumpSend | PumpAdvance | PumpDone | PumpSignal
    | EventFails | PushFails | DoneFails  // a send may fail at any time, for whatever reason

  ghost predicate Enabled(s: State, l: Label) {
    match l
    case ClientPrompt => s.repl == AtPrompt
    case ClientRead => s.down != []
    case ClientToken => s.repl == Waiting && s.token
    case ServerSpawn => s.up > 0
    case TakeSnapshot(g) => g < |s.handlers| && s.handlers[g] == Spawned
    case StoreBaseline(g) => g < |s.handlers| && s.handlers[g].Snapped?
    case Drain(g) => g < |s.handlers| && s.handlers[g] == Stored
    case Send(g) => g < |s.handlers| && s.handlers[g] == Drained
    case SendFails(g) => g < |s.handlers| && s.handlers[g] == Drained
    case Return(g) => g < |s.handlers| && s.handlers[g] == Parked && s.signal
    case AgentEdit(ws) => s.outstanding > 0 && Valid(ws) && "" in ws.dirs
    case AgentEvent => true
    case AgentResult => s.outstanding > 0
    case PumpEvent => s.pump == Ready && s.events != []
    case PumpSnapshot => s.pump == Finishing
    case PumpSend => s.pump.Sending? && s.pump.rest != []
    case PumpAdvance => s.pump.Sending? && s.pump.rest == []
    case PumpDone => s.pump == Advanced
    case PumpSignal => s.pump == Signalling
    case EventFails => s.pump == Ready && s.events != []
    case PushFails => s.pump.Sending? && s.pump.rest != []
    case DoneFails => s.pump == Advanced
  }

  ghost function ChangedPaths(cs: seq<FileChange>): set<string> {
    set c | c in cs :: c.path
  }

  /** The paths of the changes that cannot be made on the client. */
  ghost function BlockedPaths(client: Tree, a: Manifest, cs: seq<FileChange>): set<string> {
    set c | c in cs && !Takes(client, a, c) :: c.path
  }

  /** The pump's snapshot and diff, with what the bookkeeping notes about it. */
  ghost function Snapshotted(s: State): State {
    var after := Walk.SnapshotOf(s.ws);
    var cs := Diff.Changes(s.preTurn, after);
    s.(pump := Sending(after, cs),
       log := s.log.(taken := s.log.taken + [(s.preTurn, after)],
                     ever := s.log.ever + Index(after).Keys,
                     touched := s.log.touched + ChangedPaths(cs),
                     behind := s.log.behind - ChangedPaths(cs) + BlockedPaths(s.client, s.preTurn, cs)))
  }

  function ReadDown(s: State): State
    requires s.down != []
  {
    var t := s.(down := s.down[1..]);
    match s.down[0]
    case Stream => t
    case Change(p) => t.(client := ApplyChange(s.client, p.change, p.content).tree)
    case TurnDone => t.(token := true, log := s.log.(phase := TokenReady))
  }

  ghost function Step(s: State, l: Label): State
    requires Enabled(s, l)
  {
    match l
    case ClientPrompt =>
      s.(repl := Waiting, up := s.up + 1, log := s.log.(phase := Flying, prompts := s.log.prompts + 1))
    case ClientRead => ReadDown(s)
    case ClientToken =>
      s.(repl := AtPrompt, token := false, log := s.log.(phase := Quiet, tokens := s.log.tokens + 1))
    case ServerSpawn =>
      s.(up := s.up - 1, handlers := s.handlers + [Spawned], log := s.log.(phase := Preparing(|s.handlers|)))
    case TakeSnapshot(g) => s.(handlers := s.handlers[g := Snapped(Walk.SnapshotOf(s.ws))])
    case StoreBaseline(g) => s.(preTurn := s.handlers[g].snap, handlers := s.handlers[g := Stored])
    case Drain(g) =>
      s.(signal := false, handlers := s.handlers[g := Drained],
         log := s.log.(drained := s.log.drained + if s.signal then 1 else 0))
    case Send(g) =>
      s.(outstanding := s.outstanding + 1, handlers := s.handlers[g := Parked],
         log := s.log.(phase := Busy, sentAt := s.log.sentAt + [Walk.SnapshotOf(s.ws)]))
    case SendFails(g) => s.(handlers := s.handlers[g := Refused], log := s.log.(phase := NotSent))
    case Return(g) =>
      s.(signal := false, handlers := s.handlers[g := Returned], log := s.log.(returned := s.log.returned + 1))
    case AgentEdit(ws) => s.(ws := ws)
    case AgentEvent => s.(events := s.events + [Other])
    case AgentResult =>
      s.(outstanding := s.outstanding - 1, events := s.events + [Result], log := s.log.(phase := Ended))
    case PumpEvent =>
      var t := s.(events := s.events[1..], down := s.down + [Stream]);
      if s.events[0] == Result then t.(pump := Finishing, log := s.log.(phase := Closing)) else t
    case PumpSnapshot => Snapshotted(s)
    case PumpSend =>
      s.(pump := Sending(s.pump.after, s.pump.rest[1..]),
         down := s.down + [Change(Push(s.pump.rest[0], Content(s.pump.rest[0], s.ws)))])
    case PumpAdvance => s.(preTurn := s.pump.after, pump := Advanced)
    case PumpDone => s.(pump := Signalling, down := s.down + [TurnDone], log := s.log.(phase := Announced))
    case PumpSignal =>
      s.(pump := Ready, signal := true,
         log := s.log.(posted := s.log.posted + 1, dropped := s.log.dropped + if s.signal then 1 else 0))
    case EventFails =>
      s.(pump := Stopped, events := s.events[1..],
         log := if s.events[0] == Result then s.log.(phase := Lost) else s.log)
    case PushFails => s.(pump := Signalling, log := s.log.(phase := NotPushed))
    case DoneFails => s.(pump := Signalling, log := s.log.(phase := NotPushed))
  }

  // ---- Runs ----

  /** A client and a workspace as the handshake leaves them. */
  ghost predicate Starts(client: Tree, ws: Tree) {
    && Valid(client) && Valid(ws) && "" in ws.dirs
    && forall p :: p in Walk.Kept(ws, Walk.UNLIMITED) ==>
         p in client.files && HashContent(client.files[p].content) == HashContent(ws.files[p].content)
  }

  /** A session whose REPL has just shown its first prompt. */
  ghost function Opened(client: Tree, ws: Tree, preTurn: Manifest): State {
    State(AtPrompt, false, client, 0, [], [], preTurn, false, Ready, 0, [], ws,
      Log(Quiet, 0, 0, 0, 0, 0, 0, [], [], client, Walk.SnapshotOf(ws), Index(Walk.SnapshotOf(ws)).Keys, {}, {}))
  }

  ghost predicate Initial(s: State) {
    Starts(s.client, s.ws) && s == Opened(s.client, s.ws, s.preTurn)
  }

  ghost predicate StepsAt(run: seq<State>, labels: seq<Label>, k: nat)
    requires k < |labels| < |run|
  {
    Enabled(run[k], labels[k]) && run[k + 1] == Step(run[k], labels[k])
  }

  ghost predicate Linked(run: seq<State>, labels: seq<Label>) {
    |run| == |labels| + 1 && forall k :: 0 <= k < |labels| ==> StepsAt(run, labels, k)
  }

  ghost predicate IsRun(run: seq<State>, labels: seq<Label>) {
    Linked(run, labels) && Initial(run[0])
  }

  // ---- Gating: one thing at a time ----

  function Results(es: seq<Event>): nat {
    if es == [] then 0 else (if es[0] == Result then 1 else 0) + Results(es[1..])
  }

  lemma {:induction false} ResultsSnoc(es: seq<Event>, e: Event)
    ensures Results(es + [e]) == Results(es) + if e == Result then 1 else 0
  {
    if es == [] {
      assert es + [e] == [e];
    } else {
      ResultsSnoc(es[1..], e);
      assert (es + [e])[1..] == es[1..] + [e];
    }
  }

  predicate BeforeSend(h: Handler) {
    h.Spawned? || h.Snapped? || h.Stored? || h.Drained?
  }

  predicate InTurn(p: Pump) {
    p.Finishing? || p.Sending? || p.Advanced?
  }

  predicate OnlyStreams(d: seq<Down>) {
    forall i :: 0 <= i < |d| ==> d[i].Stream?
  }

  predicate NoDone(d: seq<Down>) {
    forall i :: 0 <= i < |d| ==> !d[i].TurnDone?
  }

  predicate DoneAt(d: seq<Down>, k: nat) {
    && k < |d| && d[k].TurnDone?
    && (forall i :: 0 <= i < k ==> !d[i].TurnDone?)
    && (forall i :: k < i < |d| ==> d[i].Stream?)
  }

  /** The wire when a turn has closed: changes, then one TurnDone, then nothing but streamed events. */
  ghost predicate DoneLast(d: seq<Down>) {
    exists k: nat :: DoneAt(d, k)
  }

  ghost predicate Gate(s: State) {
    var ph := s.log.phase;
    && (s.repl == AtPrompt <==> ph == Quiet)
    && s.up == (if ph == Flying then 1 else 0)
    && (forall g :: 0 <= g < |s.handlers| && BeforeSend(s.handlers[g]) ==> ph == Preparing(g))
    && (ph.Preparing? ==> ph.g < |s.handlers| && BeforeSend(s.handlers[ph.g]))
    && s.outstanding == (if ph == Busy then 1 else 0)
    && Results(s.events) == (if ph == Ended then 1 else 0)
    && (InTurn(s.pump) <==> ph == Closing)
    && (s.token <==> ph == TokenReady)
    && (if ph == NotPushed || (ph == Closing && s.pump != Finishing) then NoDone(s.down)
        else if ph == Announced then DoneLast(s.down)
        else OnlyStreams(s.down))
    && s.log.prompts == s.log.tokens + if ph == Quiet then 0 else 1
  }

  lemma DoneLastHead(d: seq<Down>)
    requires DoneLast(d)
    ensures d != []
    ensures d[0].TurnDone? ==> OnlyStreams(d[1..])
    ensures !d[0].TurnDone? ==> DoneLast(d[1..])
  {
    var k: nat :| DoneAt(d, k);
    if k > 0 { assert DoneAt(d[1..], k - 1); }
  }

  lemma StreamAfterDone(d: seq<Down>)
    requires DoneLast(d)
    ensures DoneLast(d + [Stream])
  {
    var k: nat :| DoneAt(d, k);
    assert DoneAt(d + [Stream], k);
  }

  lemma DoneAfterChanges(d: seq<Down>)
    requires NoDone(d)
    ensures DoneLast(d + [TurnDone])
  {
    assert DoneAt(d + [TurnDone], |d|);
  }

  lemma GateClient(s: State, l: Label)
    requires Gate(s) && Enabled(s, l) && (l.ClientPrompt? || l.ClientRead? || l.ClientToken? || l.ServerSpawn?)
    ensures Gate(Step(s, l))
  {
    if l.ClientRead? && s.log.phase == Announced { DoneLastHead(s.down); }
  }

  predicate HandlerLabel(l: Label) {
    l.TakeSnapshot? || l.StoreBaseline? || l.Drain? || l.Send? || l.SendFails? || l.Return?
  }

  lemma GateReturn(s: State, g: nat)
    requires Gate(s) && Enabled(s, Return(g))
    ensures Gate(Step(s, Return(g)))
  {
  }

  lemma GateHandler(s: State, l: Label)
    requires Gate(s) && Enabled(s, l) && HandlerLabel(l)
    ensures Gate(Step(s, l))
  {
    if l.Return? {
      GateReturn(s, l.g);
    } else {
      assert s.log.phase == Preparing(l.g);
    }
  }

  lemma GateAgent(s: State, l: Label)
    requires Gate(s) && Enabled(s, l) && (l.AgentEdit? || l.AgentEvent? || l.AgentResult?)
    ensures Gate(Step(s, l))
  {
    ResultsSnoc(s.events, Other);
    ResultsSnoc(s.events, Result);
  }

  predicate PumpLabel(l: Label) {
    l.PumpEvent? || l.PumpSnapshot? || l.PumpSend? || l.PumpAdvance? || l.PumpDone? || l.PumpSignal?
  }

  lemma GateEvent(s: State)
    requires Gate(s) && Enabled(s, PumpEvent)
    ensures Gate(Step(s, PumpEvent))
  {
    if s.log.phase == Announced { StreamAfterDone(s.down); }
  }

  predicate FailLabel(l: Label) {
    l.EventFails? || l.PushFails? || l.DoneFails?
  }

  lemma GateFail(s: State, l: Label)
    requires Gate(s) && Enabled(s, l) && FailLabel(l)
    ensures Gate(Step(s, l))
  {
  }

  lemma GatePump(s: State, l: Label)
    requires Gate(s) && Enabled(s, l) && PumpLabel(l)
    ensures Gate(Step(s, l))
  {
    if l.PumpEvent? {
      GateEvent(s);
    } else if l.PumpDone? {
      DoneAfterChanges(s.down);
    }
  }

  /** Every step keeps the gate: one prompt is in progress at a time, and it is in one place. */
  lemma GateStep(s: State, l: Label)
    requires Gate(s) && Enabled(s, l)
    ensures Gate(Step(s, l))
  {
    if l.ClientPrompt? || l.ClientRead? || l.ClientToken? || l.ServerSpawn? {
      GateClient(s, l);
    } else if HandlerLabel(l) {
      GateHandler(s, l);
    } else if PumpLabel(l) {
      GatePump(s, l);
    } else if FailLabel(l) {
      GateFail(s, l);
    } else {
      GateAgent(s, l);
    }
  }

  // ---- Baselines: what each diff is taken against ----

  /** The snapshot of the last diff taken, or the first one: what the client has been sent so far. */
  function Base(log: Log): Manifest {
    if log.taken == [] then log.first else log.taken[|log.taken| - 1].1
  }

  ghost predicate ChainAt(log: Log, k: nat) {
    && k < |log.taken| && k < |log.sentAt|
    && log.taken[k].0 == log.sentAt[k]
    && log.sentAt[k] == (if k == 0 then log.first else log.taken[k - 1].1)
  }

  /** Diffs follow on from each other and from the sends: none is taken twice, none is skipped. */
  ghost predicate Chain(log: Log) {
    forall k :: 0 <= k < |log.taken| ==> ChainAt(log, k)
  }

  /** From Send to its diff, which a lost result never gets, the workspace may differ from the last snapshot diffed. */
  predicate Live(s: State) {
    s.log.phase == Busy || s.log.phase == Ended || s.log.phase == Lost || s.pump == Finishing
  }

  ghost predicate BaselineHandlers(s: State) {
    forall g :: 0 <= g < |s.handlers| ==>
      && (s.handlers[g].Snapped? ==> s.handlers[g].snap == Base(s.log))
      && (s.handlers[g].Stored? || s.handlers[g].Drained? ==> s.preTurn == Base(s.log))
  }

  ghost predicate Baseline(s: State) {
    && Valid(s.ws) && "" in s.ws.dirs && Chain(s.log)
    && |s.log.sentAt| == |s.log.taken| + (if Live(s) then 1 else 0)
    && (if Live(s) then s.preTurn == Base(s.log) == s.log.sentAt[|s.log.sentAt| - 1]
        else Walk.SnapshotOf(s.ws) == Base(s.log))
    && BaselineHandlers(s)
    && (s.pump.Sending? ==> s.pump.after == Base(s.log))
  }

  lemma ChainKept(log: Log, log': Log)
    requires Chain(log) && log'.taken == log.taken && log.sentAt <= log'.sentAt && log'.first == log.first
    ensures Chain(log')
  {
    forall k | 0 <= k < |log'.taken| ensures ChainAt(log', k) {
      assert ChainAt(log, k);
    }
  }

  lemma ChainGrows(log: Log, log': Log, d: (Manifest, Manifest))
    requires Chain(log) && |log.sentAt| == |log.taken| + 1 && d.0 == Base(log) == log.sentAt[|log.taken|]
    requires log'.taken == log.taken + [d] && log'.sentAt == log.sentAt && log'.first == log.first
    ensures Chain(log') && Base(log') == d.1
  {
    forall k | 0 <= k < |log'.taken| ensures ChainAt(log', k) {
      if k < |log.taken| { assert ChainAt(log, k); }
    }
  }

  lemma NoneBeforeSend(s: State)
    requires Gate(s) && !s.log.phase.Preparing?
    ensures forall g :: 0 <= g < |s.handlers| ==> !BeforeSend(s.handlers[g])
  {
  }

  lemma BaselineSnapshot(s: State, t: State, after: Manifest)
    requires Gate(s) && Baseline(s) && s.pump == Finishing && after == Walk.SnapshotOf(s.ws)
    requires t.ws == s.ws && t.preTurn == s.preTurn && t.handlers == s.handlers
    requires t.pump.Sending? && t.pump.after == after && t.log.phase == s.log.phase
    requires t.log.taken == s.log.taken + [(s.preTurn, after)]
    requires t.log.sentAt == s.log.sentAt && t.log.first == s.log.first
    ensures Baseline(t)
  {
    ChainGrows(s.log, t.log, (s.preTurn, after));
    NoneBeforeSend(s);
    assert BaselineHandlers(t);
  }

  lemma BaselinePump(s: State, l: Label)
    requires Gate(s) && Baseline(s) && Enabled(s, l) && PumpLabel(l)
    ensures Baseline(Step(s, l))
  {
    if l.PumpSnapshot? {
      BaselineSnapshot(s, Snapshotted(s), Walk.SnapshotOf(s.ws));
    } else {
      ChainKept(s.log, Step(s, l).log);
      assert l.PumpEvent? && s.events[0] == Result ==> s.log.phase == Ended;
    }
  }

  /** Steps that leave workspace, baseline, handlers and diffs alone. */
  lemma BaselineSame(s: State, t: State)
    requires Baseline(s) && Live(t) == Live(s)
    requires t.ws == s.ws && t.preTurn == s.preTurn && t.handlers == s.handlers && t.pump == s.pump
    requires t.log.taken == s.log.taken && t.log.sentAt == s.log.sentAt && t.log.first == s.log.first
    ensures Baseline(t)
  {
    ChainKept(s.log, t.log);
  }

  lemma BaselineFail(s: State, l: Label)
    requires Gate(s) && Baseline(s) && Enabled(s, l) && FailLabel(l)
    ensures Baseline(Step(s, l))
  {
    ChainKept(s.log, Step(s, l).log);
    assert l.EventFails? && s.events[0] == Result ==> s.log.phase == Ended;
  }

  lemma BaselineSpawn(s: State)
    requires Gate(s) && Baseline(s) && Enabled(s, ServerSpawn)
    ensures Baseline(Step(s, ServerSpawn))
  {
    var t := Step(s, ServerSpawn);
    assert BaselineHandlers(t);
    ChainKept(s.log, t.log);
  }

  lemma BaselineEdit(s: State, ws: Tree)
    requires Gate(s) && Baseline(s) && Enabled(s, AgentEdit(ws))
    ensures Baseline(Step(s, AgentEdit(ws)))
  {
    assert s.log.phase == Busy;
  }

  lemma BaselineOther(s: State, l: Label)
    requires Gate(s) && Baseline(s) && Enabled(s, l) && !HandlerLabel(l) && !PumpLabel(l) && !FailLabel(l)
    ensures Baseline(Step(s, l))
  {
    if l.ServerSpawn? {
      BaselineSpawn(s);
    } else if l.AgentEdit? {
      BaselineEdit(s, l.ws);
    } else {
      BaselineSame(s, Step(s, l));
    }
  }

  /** Steps of one handler that leave workspace, pump and diffs alone. */
  lemma BaselineOneHandler(s: State, t: State, g: nat)
    requires Gate(s) && Baseline(s) && Live(t) == Live(s) && s.log.phase == Preparing(g) && g < |s.handlers|
    requires |t.handlers| == |s.handlers|
    requires t.ws == s.ws && t.pump == s.pump && t.handlers == s.handlers[g := t.handlers[g]]
    requires t.handlers[g].Snapped? ==> t.handlers[g].snap == Base(s.log)
    requires t.handlers[g].Stored? || t.handlers[g].Drained? ==> t.preTurn == Base(s.log)
    requires t.log.taken == s.log.taken && t.log.sentAt == s.log.sentAt && t.log.first == s.log.first
    ensures Baseline(t)
  {
    ChainKept(s.log, t.log);
    forall h | 0 <= h < |s.handlers| && h != g ensures !BeforeSend(s.handlers[h]) {
    }
  }

  lemma BaselineSend(s: State, g: nat)
    requires Gate(s) && Baseline(s) && Enabled(s, Send(g))
    ensures Baseline(Step(s, Send(g)))
  {
    assert s.log.phase == Preparing(g);
    ChainKept(s.log, Step(s, Send(g)).log);
  }

  lemma BaselineHandler(s: State, l: Label)
    requires Gate(s) && Baseline(s) && Enabled(s, l) && HandlerLabel(l)
    ensures Baseline(Step(s, l))
  {
    if l.Send? {
      BaselineSend(s, l.g);
    } else if l.Return? {
      ChainKept(s.log, Step(s, l).log);
    } else {
      BaselineOneHandler(s, Step(s, l), l.g);
    }
  }

  lemma BaselineStep(s: State, l: Label)
    requires Gate(s) && Baseline(s) && Enabled(s, l)
    ensures Baseline(Step(s, l))
  {
    if HandlerLabel(l) {
      BaselineHandler(s, l);
    } else if PumpLabel(l) {
      BaselinePump(s, l);
    } else if FailLabel(l) {
      BaselineFail(s, l);
    } else {
      BaselineOther(s, l);
    }
  }

  // ---- Completion signals ----

  function ReturnedCount(hs: seq<Handler>): nat {
    if hs == [] then 0 else ReturnedCount(hs[..|hs| - 1]) + if hs[|hs| - 1] == Returned then 1 else 0
  }

  lemma {:induction false} ReturnedUpdate(hs: seq<Handler>, g: nat, h: Handler)
    requires g < |hs| && hs[g] != Returned
    ensures ReturnedCount(hs[g := h]) == ReturnedCount(hs) + if h == Returned then 1 else 0
  {
    var n := |hs| - 1;
    if g < n {
      ReturnedUpdate(hs[..n], g, h);
      assert hs[g := h][..n] == hs[..n][g := h];
    } else {
      assert hs[g := h][..n] == hs[..n];
    }
  }

  /** Every finished turn's signal was dropped, drained, returned to a prompt, or is in the one slot. */
  ghost predicate Conserved(s: State) {
    && s.log.posted == s.log.dropped + s.log.drained + s.log.returned + (if s.signal then 1 else 0)
    && |s.log.taken| == s.log.posted + (if s.pump.Sending? || s.pump == Advanced || s.pump == Signalling then 1 else 0)
    && ReturnedCount(s.handlers) == s.log.returned
  }

  lemma ConservedHandler(s: State, l: Label)
    requires Conserved(s) && Enabled(s, l) && HandlerLabel(l)
    ensures Conserved(Step(s, l))
  {
    var h := match l
      case TakeSnapshot(_) => Snapped(Walk.SnapshotOf(s.ws))
      case StoreBaseline(_) => Stored
      case Drain(_) => Drained
      case Send(_) => Parked
      case SendFails(_) => Refused
      case _ => Returned;
    ReturnedUpdate(s.handlers, l.g, h);
  }

  lemma ConservedPump(s: State, l: Label)
    requires Conserved(s) && Enabled(s, l) && PumpLabel(l)
    ensures Conserved(Step(s, l))
  {
  }

  lemma SpawnedCount(hs: seq<Handler>)
    ensures ReturnedCount(hs + [Spawned]) == ReturnedCount(hs)
  {
    assert (hs + [Spawned])[..|hs|] == hs;
  }

  lemma ConservedFail(s: State, l: Label)
    requires Conserved(s) && Enabled(s, l) && FailLabel(l)
    ensures Conserved(Step(s, l))
  {
  }

  lemma ConservedOther(s: State, l: Label)
    requires Conserved(s) && Enabled(s, l) && !PumpLabel(l) && !HandlerLabel(l) && !FailLabel(l)
    ensures Conserved(Step(s, l))
  {
    SpawnedCount(s.handlers);
    OtherCounts(s, l);
  }

  lemma OtherCounts(s: State, l: Label)
    requires Enabled(s, l) && !PumpLabel(l) && !HandlerLabel(l) && !FailLabel(l)
    ensures var s' := Step(s, l);
      && s'.signal == s.signal && s'.pump == s.pump && s'.log.taken == s.log.taken
      && s'.log.posted == s.log.posted && s'.log.dropped == s.log.dropped
      && s'.log.drained == s.log.drained && s'.log.returned == s.log.returned
      && (s'.handlers == s.handlers || s'.handlers == s.handlers + [Spawned])
  {
  }

  lemma ConservedStep(s: State, l: Label)
    requires Conserved(s) && Enabled(s, l)
    ensures Conserved(Step(s, l))
  {
    if HandlerLabel(l) {
      ConservedHandler(s, l);
    } else if PumpLabel(l) {
      ConservedPump(s, l);
    } else if FailLabel(l) {
      ConservedFail(s, l);
    } else {
      ConservedOther(s, l);
    }
  }

  // ---- Prompts and their goroutines ----

  /** The goroutine of prompt g is the g-th: all before it have sent theirs. */
  ghost predicate Numbered(s: State) {
    && |s.handlers| == |s.log.sentAt| + (if s.log.phase.Preparing? || s.log.phase == NotSent then 1 else 0)
    && (s.log.phase.Preparing? ==> s.log.phase.g == |s.handlers| - 1)
  }

  lemma NumberedHandler(s: State, l: Label)
    requires Gate(s) && Numbered(s) && Enabled(s, l) && HandlerLabel(l)
    ensures Numbered(Step(s, l))
  {
    assert !l.Return? ==> s.log.phase == Preparing(l.g);
  }

  lemma NumberedPump(s: State, l: Label)
    requires Gate(s) && Numbered(s) && Enabled(s, l) && PumpLabel(l)
    ensures Numbered(Step(s, l))
  {
  }

  lemma NumberedFail(s: State, l: Label)
    requires Gate(s) && Numbered(s) && Enabled(s, l) && FailLabel(l)
    ensures Numbered(Step(s, l))
  {
  }

  lemma NumberedOther(s: State, l: Label)
    requires Gate(s) && Numbered(s) && Enabled(s, l) && !HandlerLabel(l) && !PumpLabel(l) && !FailLabel(l)
    ensures Numbered(Step(s, l))
  {
  }

  lemma NumberedStep(s: State, l: Label)
    requires Gate(s) && Numbered(s) && Enabled(s, l)
    ensures Numbered(Step(s, l))
  {
    if HandlerLabel(l) {
      NumberedHandler(s, l);
    } else if PumpLabel(l) {
      NumberedPump(s, l);
    } else if FailLabel(l) {
      NumberedFail(s, l);
    } else {
      NumberedOther(s, l);
    }
  }
}
