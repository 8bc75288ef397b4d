/** Which sessions of the upload handshake can finish. */
module HandshakePaths {
  import opened Prelude
  import opened Domain
  import opened Hashing
  import opened BlobStore
  import opened Handshake
  import Workspace

  // ---- Continuing a run ----

  ghost predicate Onward(run: seq<State>, labels: seq<Label>, run': seq<State>, labels': seq<Label>) {
    Linked(run', labels') && run <= run' && labels <= labels'
  }

  lemma Extend(run: seq<State>, labels: seq<Label>, l: Label) returns (run': seq<State>, labels': seq<Label>)
    requires Linked(run, labels) && Enabled(run[|labels|], l)
    ensures Onward(run, labels, run', labels') && labels' == labels + [l]
    ensures run'[|labels'|] == Step(run[|labels|], l)
  {
    run', labels' := run + [Step(run[|labels|], l)], labels + [l];
    forall k | 0 <= k < |labels'| ensures RunsAt(run', labels', k) {
      if k < |labels| { assert RunsAt(run, labels, k); }
    }
  }

  // ---- A free temporary name ----

  ghost function Longest(names: set<string>): nat
    decreases |names|
  {
    if names == {} then 0
    else
      var n :| n in names;
      var rest := Longest(names - {n});
      if |n| > rest then |n| else rest
  }

  lemma LongestBounds(names: set<string>, n: string)
    requires n in names
    ensures |n| <= Longest(names)
    decreases |names|
  {
    var m :| m in names && Longest(names) ==
      (if |m| > Longest(names - {m}) then |m| else Longest(names - {m}));
    if n != m { LongestBounds(names - {m}, n); }
  }

  ghost function ClaimedNames(puts: seq<Put>): set<string> {
    set k | 0 <= k < |puts| && (puts[k].pc.Written? || puts[k].pc.Cleaning?) :: TempName(puts[k].pc.suffix)
  }

  lemma FreshTemp(store: Puts) returns (suffix: string)
    ensures TempName(suffix) !in store.dir && !Claimed(store, suffix)
  {
    var names := store.dir.Keys + ClaimedNames(store.puts);
    suffix := seq(Longest(names) + 1, _ => 'x');
    if TempName(suffix) in names {
      LongestBounds(names, TempName(suffix));
    }
    assert TempName(suffix) !in ClaimedNames(store.puts);
  }

  // ---- What a session starts with ----

  predicate SameProject(x: Session, y: Session) {
    y.project == x.project && y.manifest == x.manifest
  }

  lemma WriteKeepsProject(x: Session, dir: Dir, umask: Mode)
    requires x.server.Materializing? && x.server.k < |Received(x)|
    ensures SameProject(x, WriteOne(x, dir, umask))
  {
  }

  lemma ActKeepsProject(x: Session, store: Puts, umask: Mode, act: Act)
    requires ActEnabled(x, store, act)
    ensures SameProject(x, DoAct(x, store, umask, act))
  {
    if act == WriteFile { WriteKeepsProject(x, store.dir, umask); }
  }

  lemma StepKeepsProject(s: State, i: nat, l: Label)
    requires i < |s.sessions| && Enabled(s, l)
    ensures |Step(s, l).sessions| == |s.sessions| && SameProject(s.sessions[i], Step(s, l).sessions[i])
  {
    if l.Of? { ActKeepsProject(s.sessions[l.i], s.store, s.umask, l.act); }
  }

  // ---- Every step of its own brings a session closer, and until the end it has one ----

  function PutLeft(pc: PutPc): nat {
    match pc
    case Fresh => 4
    case Checked => 3
    case Written(_) => 2
    case Cleaning(_, _) => 1
    case _ => 0
  }

  /** What the messages in flight still cost the server of a session with n files. */
  function WireLeft(up: seq<UpMsg>, n: nat): nat {
    if up == [] then 0
    else WireLeft(up[..|up| - 1], n) + (match up[|up| - 1] case Blob(_, _) => 6 case SyncDone => n + 2 case _ => 0)
  }

  function ToGo(k: nat, n: nat): nat {
    if k <= n then n - k else 0
  }

  /** The same with the server at work on the first of them. */
  function UpLeft(server: ServerPc, up: seq<UpMsg>, puts: seq<Put>, n: nat): nat {
    var rest := WireLeft(if up == [] then [] else up[1..], n);
    match server
    case Putting(k) => rest + 1 + if k < |puts| then PutLeft(puts[k].pc) else 0
    case Materializing(k, _) => rest + 1 + ToGo(k, n)
    case _ => WireLeft(up, n)
  }

  /** How many steps a session, with the puts it is waiting for, can take at most. */
  function Left(x: Session, puts: seq<Put>): nat {
    var n := |x.manifest|;
    if x.failed then 0
    else
      match x.client
      case Starting => 9 * n + 7
      case AwaitRequest =>
        if x.request.Some? then 7 * |x.request.value| + n + 4
        else if x.server.Asking? then 8 * ToGo(x.server.k, n) + 7 * |x.server.missing| + n + 5
        else 9 * n + 6
      case Uploading(missing) => UpLeft(x.server, x.up, puts, n) + 7 * |missing| + n + 3
      case AwaitReady => UpLeft(x.server, x.up, puts, n)
      case _ => 0
  }

  /** A step of session i, or of the put it is waiting for. */
  predicate Own(s: State, i: nat, l: Label) {
    && i < |s.sessions|
    && match l
       case Of(j, _) => j == i
       case Store(step) => !step.Begin? && s.sessions[i].server == Putting(step.k)
  }

  lemma {:induction false} WireSplit(a: seq<UpMsg>, b: seq<UpMsg>, n: nat)
    ensures WireLeft(a + b, n) == WireLeft(a, n) + WireLeft(b, n)
  {
    if b == [] {
      assert a + b == a;
    } else {
      WireSplit(a, b[..|b| - 1], n);
      assert (a + b)[..|a + b| - 1] == a + b[..|b| - 1];
    }
  }

  lemma WireHead(up: seq<UpMsg>, n: nat)
    requires up != []
    ensures WireLeft(up, n) ==
      (match up[0] case Blob(_, _) => 6 case SyncDone => n + 2 case _ => 0) + WireLeft(up[1..], n)
  {
    assert [up[0]][..0] == [] && up == [up[0]] + up[1..];
    WireSplit([up[0]], up[1..], n);
  }

  lemma WireSnoc(up: seq<UpMsg>, m: UpMsg, n: nat)
    ensures WireLeft(up + [m], n) ==
      WireLeft(up, n) + (match m case Blob(_, _) => 6 case SyncDone => n + 2 case _ => 0)
  {
    assert (up + [m])[..|up|] == up;
  }

  ghost predicate Live(x: Session, store: Puts, umask: Mode) {
    PhaseInv(x, Keys(store.dir), umask) && ServerInv(x, store.puts, umask)
  }

  lemma StartLowers(x: Session, store: Puts, umask: Mode, act: Act)
    requires Live(x, store, umask) && ActEnabled(x, store, act) && (act == ClientStart || act == ServerStart)
    ensures Left(DoAct(x, store, umask, act), store.puts) < Left(x, store.puts)
  {
  }

  lemma RequestLowers(x: Session, store: Puts, umask: Mode, act: Act)
    requires Live(x, store, umask) && ActEnabled(x, store, act) && (act == Asked || act == ClientRequest)
    ensures Left(DoAct(x, store, umask, act), store.puts) < Left(x, store.puts)
  {
    assert WireLeft([], |x.manifest|) == 0;
  }

  lemma AskLowers(x: Session, store: Puts, umask: Mode)
    requires Live(x, store, umask) && ActEnabled(x, store, Ask)
    ensures Left(DoAct(x, store, umask, Ask), store.puts) < Left(x, store.puts)
  {
  }

  lemma UpSnoc(server: ServerPc, up: seq<UpMsg>, m: UpMsg, puts: seq<Put>, n: nat)
    requires server == Reading || up != []
    ensures UpLeft(server, up + [m], puts, n) ==
      UpLeft(server, up, puts, n) + match m case Blob(_, _) => 6 case SyncDone => n + 2 case _ => 0
  {
    WireSnoc(up, m, n);
    if up != [] {
      assert (up + [m])[1..] == up[1..] + [m];
      WireSnoc(up[1..], m, n);
    }
  }

  lemma UploadingLeft(x: Session, store: Puts, umask: Mode)
    requires Live(x, store, umask) && x.client.Uploading? && !x.failed
    ensures x.server == Reading || x.up != []
    ensures Left(x, store.puts) ==
      UpLeft(x.server, x.up, store.puts, |x.manifest|) + 7 * |x.client.missing| + |x.manifest| + 3
  {
  }

  lemma DoneLowers(x: Session, store: Puts, umask: Mode)
    requires Live(x, store, umask) && ActEnabled(x, store, ClientDone)
    ensures Left(DoAct(x, store, umask, ClientDone), store.puts) < Left(x, store.puts)
  {
    UploadingLeft(x, store, umask);
    UpSnoc(x.server, x.up, SyncDone, store.puts, |x.manifest|);
  }

  lemma UploadLowers(x: Session, store: Puts, umask: Mode)
    requires Live(x, store, umask) && ActEnabled(x, store, ClientUpload)
    ensures Left(Upload(x), store.puts) < Left(x, store.puts)
  {
    UploadingLeft(x, store, umask);
    var y := Upload(x);
    if !y.failed {
      UpSnoc(x.server, x.up, y.up[|x.up|], store.puts, |x.manifest|);
    }
  }

  lemma SyncLowers(x: Session, store: Puts, umask: Mode)
    requires Live(x, store, umask) && ActEnabled(x, store, ServerSync)
    ensures Left(DoAct(x, store, umask, ServerSync), store.puts) < Left(x, store.puts)
  {
    WireHead(x.up, |x.manifest|);
  }

  lemma WriteLowers(x: Session, store: Puts, umask: Mode)
    requires Live(x, store, umask) && ActEnabled(x, store, WriteFile)
    ensures Left(DoAct(x, store, umask, WriteFile), store.puts) < Left(x, store.puts)
  {
  }

  lemma SyncedLowers(x: Session, store: Puts, umask: Mode)
    requires Live(x, store, umask) && ActEnabled(x, store, Synced)
    ensures Left(DoAct(x, store, umask, Synced), store.puts) < Left(x, store.puts)
  {
  }

  lemma PutDoneLowers(x: Session, store: Puts, umask: Mode)
    requires Live(x, store, umask) && ActEnabled(x, store, PutDone)
    ensures Left(DoAct(x, store, umask, PutDone), store.puts) < Left(x, store.puts)
  {
  }

  lemma BeginLowers(x: Session, store: Puts, umask: Mode, p: Put)
    requires Live(x, store, umask) && ActEnabled(x, store, ServerPut) && p.pc == Fresh
    ensures Left(DoAct(x, store, umask, ServerPut), store.puts + [p]) < Left(x, store.puts)
  {
    WireHead(x.up, |x.manifest|);
  }

  lemma ActLowers(x: Session, store: Puts, umask: Mode, act: Act)
    requires Live(x, store, umask) && ActEnabled(x, store, act) && act != ServerPut
    ensures Left(DoAct(x, store, umask, act), store.puts) < Left(x, store.puts)
  {
    match act {
      case Ask => AskLowers(x, store, umask);
      case ClientUpload => UploadLowers(x, store, umask);
      case ClientDone => DoneLowers(x, store, umask);
      case ClientStart => StartLowers(x, store, umask, act);
      case ServerStart => StartLowers(x, store, umask, act);
      case Asked => RequestLowers(x, store, umask, act);
      case ClientRequest => RequestLowers(x, store, umask, act);
      case PutDone => PutDoneLowers(x, store, umask);
      case ServerSync => SyncLowers(x, store, umask);
      case WriteFile => WriteLowers(x, store, umask);
      case Synced => SyncedLowers(x, store, umask);
    }
  }

  /** A put does not step back; only its own steps take it further. */
  lemma PutLowers(store: Puts, step: PutStep, k: nat)
    requires PutEnabled(store, step) && k < |store.puts|
    ensures k < |DoPut(store, step).puts|
    ensures var (a, b) := (PutLeft(DoPut(store, step).puts[k].pc), PutLeft(store.puts[k].pc));
      if !step.Begin? && step.k == k then a < b else a == b
  {
  }

  lemma LeftSame(x: Session, puts: seq<Put>, puts': seq<Put>)
    requires x.server.Putting? ==>
      && x.server.put < |puts| && x.server.put < |puts'|
      && PutLeft(puts'[x.server.put].pc) == PutLeft(puts[x.server.put].pc)
    ensures Left(x, puts') == Left(x, puts)
  {
  }

  lemma LeftLower(x: Session, store: Puts, umask: Mode, puts': seq<Put>)
    requires Live(x, store, umask) && !x.failed && x.server.Putting? && x.server.put < |puts'|
    requires PutLeft(puts'[x.server.put].pc) < PutLeft(store.puts[x.server.put].pc)
    ensures Left(x, puts') < Left(x, store.puts)
  {
  }

  lemma PuttingIsLive(s: State, i: nat)
    requires Inv(s) && i < |s.sessions| && s.sessions[i].server.Putting?
    ensures Live(s.sessions[i], s.store, s.umask) && !s.sessions[i].failed
  {
    assert SessionInv(s.sessions[i], s.store, s.umask);
  }

  lemma StoreLowers(s: State, i: nat, step: PutStep)
    requires Inv(s) && i < |s.sessions| && PutEnabled(s.store, step)
    ensures var (a, b) := (Left(s.sessions[i], DoPut(s.store, step).puts), Left(s.sessions[i], s.store.puts));
      if Own(s, i, Store(step)) then a < b else a == b
  {
    var x, puts' := s.sessions[i], DoPut(s.store, step).puts;
    if x.server.Putting? {
      PuttingIsLive(s, i);
      PutLowers(s.store, step, x.server.put);
    }
    if Own(s, i, Store(step)) { LeftLower(x, s.store, s.umask, puts'); } else { LeftSame(x, s.store.puts, puts'); }
  }

  ghost function LeftAt(s: State, i: nat): nat
    requires i < |s.sessions|
  {
    Left(s.sessions[i], s.store.puts)
  }

  /** Another session's step: at most it begins a put. */
  lemma OtherKeeps(s: State, i: nat, j: nat, act: Act)
    requires Inv(s) && Enabled(s, Of(j, act)) && i < |s.sessions| && i != j
    ensures LeftAt(Step(s, Of(j, act)), i) == LeftAt(s, i)
  {
    if act == ServerPut {
      StoreLowers(s, i, Begin(s.sessions[j].up[0].hash, s.sessions[j].up[0].content));
    }
  }

  lemma OwnLowers(s: State, i: nat, act: Act)
    requires Inv(s) && Enabled(s, Of(i, act))
    ensures LeftAt(Step(s, Of(i, act)), i) < LeftAt(s, i)
  {
    var x := s.sessions[i];
    assert SessionInv(x, s.store, s.umask);
    if act == ServerPut {
      BeginLowers(x, s.store, s.umask, Put(x.up[0].hash, x.up[0].content, Fresh));
    } else {
      ActLowers(x, s.store, s.umask, act);
    }
  }

  /** Each step of a session's own uses up some of what it has left, and no other step does anything to that. */
  lemma StepLowers(s: State, i: nat, l: Label)
    requires Inv(s) && Enabled(s, l) && i < |s.sessions|
    ensures |Step(s, l).sessions| == |s.sessions|
    ensures if Own(s, i, l) then LeftAt(Step(s, l), i) < LeftAt(s, i) else LeftAt(Step(s, l), i) == LeftAt(s, i)
  {
    match l
    case Store(step) => StoreLowers(s, i, step);
    case Of(j, act) => if i == j { OwnLowers(s, i, act); } else { OtherKeeps(s, i, j, act); }
  }

  /** How many of the first k steps are session i's own. */
  ghost function OwnSteps(run: seq<State>, labels: seq<Label>, i: nat, k: nat): nat
    requires k <= |labels| < |run|
  {
    if k == 0 then 0 else OwnSteps(run, labels, i, k - 1) + if Own(run[k - 1], i, labels[k - 1]) then 1 else 0
  }

  lemma {:induction false} OwnStepsLower(run: seq<State>, labels: seq<Label>, i: nat, k: nat)
    requires Linked(run, labels) && k <= |labels| && Inv(run[0]) && i < |run[0].sessions|
    ensures |run[k].sessions| == |run[0].sessions|
    ensures OwnSteps(run, labels, i, k) + LeftAt(run[k], i) <= LeftAt(run[0], i)
  {
    if k > 0 {
      OwnStepsLower(run, labels, i, k - 1);
      LinkedInv(run, labels, k - 1);
      assert RunsAt(run, labels, k - 1);
      StepLowers(run[k - 1], i, labels[k - 1]);
    }
  }

  /**
   In every run a session with n files takes at most 9n + 7 steps of its own, its puts' included, whatever
   the others do and however often.
   */
  lemma OwnStepsBounded(run: seq<State>, labels: seq<Label>, i: nat, k: nat)
    requires IsRun(run, labels) && k <= |labels| && i < |run[0].sessions|
    ensures OwnSteps(run, labels, i, k) <= 9 * |run[0].sessions[i].manifest| + 7
  {
    RunInv(run, labels, 0);
    OwnStepsLower(run, labels, i, k);
  }

  /** Not turned away, and no workspace yet. */
  ghost predicate Open(s: State, i: nat) {
    Inv(s) && i < |s.sessions| && !s.sessions[i].failed && s.sessions[i].ws == None
  }

  ghost predicate OwnMove(s: State, i: nat, l: Label) {
    Enabled(s, l) && Own(s, i, l)
  }

  lemma OpenIsLive(s: State, i: nat)
    requires Open(s, i)
    ensures Live(s.sessions[i], s.store, s.umask)
  {
    assert SessionInv(s.sessions[i], s.store, s.umask);
  }

  predicate PutOver(pc: PutPc) {
    pc.Finished? || pc.Rejected?
  }

  /** A put that is not over has a step, whatever the other puts are doing. */
  lemma AdvancePut(store: Puts, k: nat) returns (step: PutStep)
    requires k < |store.puts| && !PutOver(store.puts[k].pc)
    ensures PutEnabled(store, step) && Unshared(store, step) && !step.Begin? && step.k == k
  {
    var suffix := FreshTemp(store);
    step := match store.puts[k].pc
      case Fresh => Check(k)
      case Checked => WriteTemp(k, suffix)
      case Written(_) => Rename(k)
      case _ => Cleanup(k);
  }

  /** What comes next where that is not a step of a put. */
  function Next(x: Session): Act {
    match x.server
    case Asking(k, _, _) => if k < |Received(x)| then Ask else Asked
    case Putting(_) => PutDone
    case Materializing(k, _) => if k < |Received(x)| then WriteFile else Synced
    case Reading =>
      match x.client
      case Starting => ClientStart
      case AwaitRequest => if x.request.Some? then ClientRequest else ServerStart
      case Uploading(missing) => if missing == [] then ClientDone else ClientUpload
      case _ => if x.up != [] && x.up[0].Blob? then ServerPut else ServerSync
  }

  lemma NextEnabled(x: Session, store: Puts, umask: Mode)
    requires Live(x, store, umask) && !x.failed && x.ws == None
    requires x.server.Putting? ==> PutOver(store.puts[x.server.put].pc)
    ensures ActEnabled(x, store, Next(x))
  {
    if x.client == AwaitReady {
      BlobsPrefix(x.up, |x.up| - 1);
    }
  }

  /** Until it is turned away or has its workspace, a session has a step of its own, whatever others have done. */
  lemma Advance(s: State, i: nat) returns (l: Label)
    requires Open(s, i)
    ensures OwnMove(s, i, l)
  {
    OpenIsLive(s, i);
    var x := s.sessions[i];
    if x.server.Putting? && !PutOver(s.store.puts[x.server.put].pc) {
      var step := AdvancePut(s.store, x.server.put);
      l := Store(step);
    } else {
      NextEnabled(x, s.store, s.umask);
      l := Of(i, Next(x));
    }
  }

  lemma FitsLives(s: State, i: nat)
    requires Inv(s) && i < |s.sessions| && Fits(s.sessions[i])
    ensures !s.sessions[i].failed
  {
    assert SessionInv(s.sessions[i], s.store, s.umask);
  }

  lemma Finishes(run: seq<State>, labels: seq<Label>, i: nat) returns (run': seq<State>, labels': seq<Label>)
    requires Linked(run, labels) && Inv(run[|labels|])
    requires i < |run[|labels|].sessions| && Fits(run[|labels|].sessions[i])
    ensures Onward(run, labels, run', labels')
    ensures i < |run'[|labels'|].sessions| && run'[|labels'|].sessions[i].ws.Some?
    decreases LeftAt(run[|labels|], i)
  {
    var s := run[|labels|];
    if s.sessions[i].ws.Some? {
      run', labels' := run, labels;
    } else {
      FitsLives(s, i);
      var l := Advance(s, i);
      StepInv(s, l);
      StepKeepsProject(s, i, l);
      StepLowers(s, i, l);
      run', labels' := Extend(run, labels, l);
      run', labels' := Finishes(run', labels', i);
    }
  }

  lemma {:induction false} SameProjectFrom(run: seq<State>, labels: seq<Label>, j: nat, k: nat, i: nat)
    requires Linked(run, labels) && j <= k <= |labels| && i < |run[j].sessions|
    ensures |run[k].sessions| == |run[j].sessions| && SameProject(run[j].sessions[i], run[k].sessions[i])
    decreases k - j
  {
    if j < k {
      SameProjectFrom(run, labels, j, k - 1, i);
      assert RunsAt(run, labels, k - 1);
      StepKeepsProject(run[k - 1], i, labels[k - 1]);
    }
  }

  ghost predicate Done(run: seq<State>, labels: seq<Label>, i: nat, run': seq<State>, labels': seq<Label>) {
    && Onward(run, labels, run', labels')
    && i < |run'[|labels'|].sessions| && run'[|labels'|].sessions[i].ws.Some?
  }

  lemma DoneFits(run: seq<State>, labels: seq<Label>, i: nat, run': seq<State>, labels': seq<Label>)
    requires IsRun(run, labels) && i < |run[|labels|].sessions| && Done(run, labels, i, run', labels')
    ensures Fits(run[|labels|].sessions[i])
  {
    var t := run'[|labels'|];
    assert run'[0] == run[0] && run'[|labels|] == run[|labels|];
    RunInv(run', labels', |labels'|);
    SameProjectFrom(run', labels', |labels|, |labels'|, i);
    assert SessionInv(t.sessions[i], t.store, t.umask);
  }

  /**
   From every reachable state, whatever other sessions and puts have done, session i can still get its workspace
   if and only if its session.start fits a record.
   */
  lemma HandshakeCompletes(run: seq<State>, labels: seq<Label>, i: nat)
    requires IsRun(run, labels) && i < |run[|labels|].sessions|
    ensures Fits(run[|labels|].sessions[i]) <==>
      exists run': seq<State>, labels': seq<Label> :: Done(run, labels, i, run', labels')
  {
    RunInv(run, labels, |labels|);
    if Fits(run[|labels|].sessions[i]) {
      var run', labels' := Finishes(run, labels, i);
      assert Done(run, labels, i, run', labels');
    }
    forall run': seq<State>, labels': seq<Label> | Done(run, labels, i, run', labels')
      ensures Fits(run[|labels|].sessions[i])
    {
      DoneFits(run, labels, i, run', labels');
    }
  }

  // ---- Left alone, the two loops do what the service's methods do ----

  /** The run goes on with steps `l` only. */
  ghost predicate Repeats(run: seq<State>, labels: seq<Label>, run': seq<State>, labels': seq<Label>, l: Label) {
    Onward(run, labels, run', labels') && forall k :: |labels| <= k < |labels'| ==> labels'[k] == l
  }

  lemma RepeatsOn(run: seq<State>, labels: seq<Label>, l: Label, mid: seq<State>, midLabels: seq<Label>,
      end: seq<State>, endLabels: seq<Label>)
    requires Onward(run, labels, mid, midLabels) && midLabels == labels + [l]
    requires Repeats(mid, midLabels, end, endLabels, l)
    ensures Repeats(run, labels, end, endLabels, l)
  {
    forall k | |labels| <= k < |endLabels| ensures endLabels[k] == l {
      if k == |labels| { assert midLabels[k] == l; }
    }
  }

  /** What StartSession's loop makes of a session: the request, or a failure. */
  ghost predicate HasAsked(x: Session, dir: Dir, y: Session) {
    x.server.Asking? && x.server.k <= |Received(x)| &&
    match MissingFrom(Received(x)[x.server.k..], dir, x.server.seen)
    case Ok(rest) =>
      && y.server.Asking? && y.server.k == |Received(x)| && y.server.missing == x.server.missing + rest
      && y == x.(server := y.server)
    case Err(_) => y == x.(server := y.server, failed := true)
  }

  lemma AskedOne(x: Session, dir: Dir, y: Session)
    requires x.server.Asking? && x.server.k < |Received(x)| && !x.failed
    requires var x' := AskOne(x, dir); if x'.failed then y == x' else HasAsked(x', dir, y)
    ensures HasAsked(x, dir, y)
  {
    var m, pc := Received(x), x.server;
    var h := m[pc.k].hash;
    assert m[pc.k..][0] == m[pc.k] && m[pc.k..][1..] == m[pc.k + 1..];
    if h !in pc.seen && ValidHash(h) {
      var first := if h in dir then [] else [h];
      var rest := MissingFrom(m[pc.k + 1..], dir, pc.seen + {h});
      if rest.Ok? { assert pc.missing + first + rest.value == pc.missing + (first + rest.value); }
    }
  }

  /** Taken one after the other, the machine's rounds of StartSession's loop end as `MissingFrom` says. */
  lemma {:induction false} AskingIsMissing(run: seq<State>, labels: seq<Label>, i: nat)
      returns (run': seq<State>, labels': seq<Label>)
    requires Linked(run, labels) && i < |run[|labels|].sessions|
    requires var x := run[|labels|].sessions[i]; x.server.Asking? && x.server.k <= |Received(x)| && !x.failed
    ensures Repeats(run, labels, run', labels', Of(i, Ask))
    ensures var (s, t) := (run[|labels|], run'[|labels'|]);
      && i < |t.sessions| && t == s.(sessions := s.sessions[i := t.sessions[i]])
      && HasAsked(s.sessions[i], s.store.dir, t.sessions[i])
    decreases |Received(run[|labels|].sessions[i])| - run[|labels|].sessions[i].server.k
  {
    var s := run[|labels|];
    var x := s.sessions[i];
    run', labels' := run, labels;
    if x.server.k == |Received(x)| {
      assert x.server.missing + [] == x.server.missing;
    } else {
      var mid, midLabels := Extend(run, labels, Of(i, Ask));
      run', labels' := mid, midLabels;
      if !mid[|midLabels|].sessions[i].failed {
        run', labels' := AskingIsMissing(mid, midLabels, i);
        RepeatsOn(run, labels, Of(i, Ask), mid, midLabels, run', labels');
      }
      AskedOne(x, s.store.dir, run'[|labels'|].sessions[i]);
    }
  }

  /** What Materialize's loop makes of a session: the whole tree, or a failure. */
  ghost predicate HasWritten(x: Session, dir: Dir, umask: Mode, y: Session) {
    x.server.Materializing? && x.server.k <= |Received(x)| &&
    var r := Workspace.Materialized(x.server.partial, Received(x)[x.server.k..], dir, umask);
    if r.ok then y == x.(server := Materializing(|Received(x)|, r.tree))
    else y == x.(server := y.server, failed := true)
  }

  lemma WroteOne(x: Session, dir: Dir, umask: Mode, y: Session)
    requires x.server.Materializing? && x.server.k < |Received(x)| && !x.failed
    requires var x' := WriteOne(x, dir, umask); if x'.failed then y == x' else HasWritten(x', dir, umask, y)
    ensures HasWritten(x, dir, umask, y)
  {
    var m, k := Received(x), x.server.k;
    assert m[k..][0] == m[k] && m[k..][1..] == m[k + 1..];
  }

  /** Taken one after the other, the machine's rounds of Materialize's loop end as `Materialized` says. */
  lemma {:induction false} WritingIsMaterialized(run: seq<State>, labels: seq<Label>, i: nat)
      returns (run': seq<State>, labels': seq<Label>)
    requires Linked(run, labels) && i < |run[|labels|].sessions|
    requires var x := run[|labels|].sessions[i]; x.server.Materializing? && x.server.k <= |Received(x)| && !x.failed
    ensures Repeats(run, labels, run', labels', Of(i, WriteFile))
    ensures var (s, t) := (run[|labels|], run'[|labels'|]);
      && i < |t.sessions| && t == s.(sessions := s.sessions[i := t.sessions[i]])
      && HasWritten(s.sessions[i], s.store.dir, s.umask, t.sessions[i])
    decreases |Received(run[|labels|].sessions[i])| - run[|labels|].sessions[i].server.k
  {
    var s := run[|labels|];
    var x := s.sessions[i];
    run', labels' := run, labels;
    if x.server.k < |Received(x)| {
      var mid, midLabels := Extend(run, labels, Of(i, WriteFile));
      run', labels' := mid, midLabels;
      if !mid[|midLabels|].sessions[i].failed {
        run', labels' := WritingIsMaterialized(mid, midLabels, i);
        RepeatsOn(run, labels, Of(i, WriteFile), mid, midLabels, run', labels');
      }
      WroteOne(x, s.store.dir, s.umask, run'[|labels'|].sessions[i]);
    }
  }
}
