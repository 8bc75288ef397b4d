/**
 Whole-run convergence: after every turn the client mirrors the workspace. Combines the turn machine with
 the per-turn result about applying a diff.
 */
module Convergence {
  import opened Prelude
  import opened Domain
  import opened Trees
  import opened Hashing
  import opened LocalFs
  import opened Turns
  import Diff
  import Paths
  import Walk

  /** What the client must look like once it has everything of snapshot `m`. */
  ghost predicate MirrorsAt(t: Tree, m: Manifest, log: Log, p: string) {
    if p in Index(m) then
      && p in t.files && HashContent(t.files[p].content) == Index(m)[p].hash
      && (if p in log.touched then t.files[p].mode == EffectiveMode(Index(m)[p].mode)
          else Untouched(log.start, t, p))
    else if p in log.ever then p !in t.files
    else Untouched(log.start, t, p)
  }

  ghost predicate Mirrors(t: Tree, m: Manifest, log: Log) {
    Covers(t, m) && Index(m).Keys <= log.ever && forall p :: MirrorsAt(t, m, log, p)
  }

  // ---- The client mirrors what has been sent ----

  /** The changes on the wire, in order. */
  function OnWire(d: seq<Down>): seq<Push> {
    if d == [] then [] else (if d[0].Change? then [d[0].push] else []) + OnWire(d[1..])
  }

  lemma {:induction false} OnWireSnoc(d: seq<Down>, x: Down)
    ensures OnWire(d + [x]) == OnWire(d) + if x.Change? then [x.push] else []
  {
    if d == [] {
      assert d + [x] == [x];
    } else {
      OnWireSnoc(d[1..], x);
      assert (d + [x])[1..] == d[1..] + [x];
    }
  }

  lemma {:induction false} StreamsCarryNothing(d: seq<Down>)
    requires OnlyStreams(d)
    ensures OnWire(d) == []
  {
    if d != [] { StreamsCarryNothing(d[1..]); }
  }

  /** Everything the client has still to apply of what the pump has diffed. */
  function Pending(s: State): seq<Push> {
    OnWire(s.down) + if s.pump.Sending? then Pushes(s.pump.rest, s.ws) else []
  }

  /** The client once it has applied everything pending. */
  function CaughtUp(s: State): Tree {
    ApplyAll(s.client, Pending(s)).tree
  }

  /** Tree `u` mirrors the last diffed snapshot on exactly the paths whose last change met no obstacle. */
  ghost predicate Mirrored(u: Tree, log: Log) {
    && Valid(u) && Consistent(Base(log)) && Index(Base(log)).Keys <= log.ever
    && forall p :: MirrorsAt(u, Base(log), log, p) <==> p !in log.behind
  }

  ghost predicate Inv(s: State) {
    && Gate(s) && Baseline(s) && Conserved(s) && Numbered(s)
    && (s.log.phase != NotPushed ==> Mirrored(CaughtUp(s), s.log))
  }

  lemma {:induction false} PushesCons(cs: seq<FileChange>, w: Tree)
    requires cs != []
    ensures Pushes(cs, w) == [Push(cs[0], Content(cs[0], w))] + Pushes(cs[1..], w)
  {
    var n := |cs| - 1;
    if n > 0 {
      PushesCons(cs[..n], w);
      assert cs[..n][1..] == cs[1..][..n - 1];
    } else {
      assert cs[..n] == [] && cs[1..] == [];
    }
  }

  // ---- One turn on the mirror ----

  /** What a diff adds to the bookkeeping that the mirror is read by. */
  ghost predicate LogGrows(log: Log, log': Log, a: Manifest, b: Manifest) {
    && log'.start == log.start && log'.ever == log.ever + Index(b).Keys
    && log'.touched == log.touched + ChangedPaths(Diff.Changes(a, b))
  }

  /** A changed path mirrors the new snapshot if and only if its change had its effect. */
  lemma ChangedAt(u: Tree, a: Manifest, w: Tree, log: Log, log': Log, c: FileChange)
    requires DistinctPaths(a) && Valid(w) && Index(a).Keys <= log.ever
    requires LogGrows(log, log', a, Walk.SnapshotOf(w)) && c in Diff.Changes(a, Walk.SnapshotOf(w))
    requires !Done(u, w, c) ==> c.path in Index(Walk.SnapshotOf(w)) && c.path !in u.files
    ensures MirrorsAt(u, Walk.SnapshotOf(w), log', c.path) <==> Done(u, w, c)
  {
    var b := Walk.SnapshotOf(w);
    SnapshotConsistent(w);
    Walk.SnapshotIsManifest(w);
    Walk.ManifestIndex(w, Walk.UNLIMITED, b);
    Diff.ChangesExact(a, b);
    assert c.path in ChangedPaths(Diff.Changes(a, b));
  }

  /** A path without a change mirrors the new snapshot if and only if it mirrored the old one. */
  lemma UnchangedAt(t: Tree, u: Tree, a: Manifest, w: Tree, log: Log, log': Log, p: string)
    requires DistinctPaths(a) && Valid(w) && LogGrows(log, log', a, Walk.SnapshotOf(w))
    requires p !in ChangedPaths(Diff.Changes(a, Walk.SnapshotOf(w))) && Untouched(t, u, p)
    ensures MirrorsAt(u, Walk.SnapshotOf(w), log', p) <==> MirrorsAt(t, a, log, p)
  {
    SnapshotConsistent(w);
    SameEntry(a, Walk.SnapshotOf(w), p);
    MirrorsSame(t, u, a, Walk.SnapshotOf(w), log, log', p);
  }

  /** The manifests agree on a path, as far as the mirror is concerned. */
  predicate SameAt(a: Manifest, b: Manifest, p: string) {
    && (p in Index(a) <==> p in Index(b))
    && (p in Index(a) ==> Index(a)[p].hash == Index(b)[p].hash && Index(a)[p].mode == Index(b)[p].mode)
  }

  lemma SameEntry(a: Manifest, b: Manifest, p: string)
    requires DistinctPaths(a) && DistinctPaths(b) && p !in ChangedPaths(Diff.Changes(a, b))
    ensures SameAt(a, b, p)
  {
    Diff.ChangesExact(a, b);
    var c := Diff.Candidate(Index(a), Index(b), p);
    assert c.path == p && !Diff.Calls(Index(a), Index(b), c);
  }

  lemma MirrorsSame(t: Tree, u: Tree, a: Manifest, b: Manifest, log: Log, log': Log, p: string)
    requires SameAt(a, b, p) && Untouched(t, u, p) && log'.start == log.start
    requires log'.ever == log.ever + Index(b).Keys && (p in log'.touched <==> p in log.touched)
    ensures MirrorsAt(u, b, log', p) <==> MirrorsAt(t, a, log, p)
  {
  }

  lemma MirrorWithout(t: Tree, u: Tree, a: Manifest, w: Tree, log: Log, log': Log)
    requires Mirrors(t, a, log) && DistinctPaths(a) && Valid(w) && Valid(u)
    requires LogGrows(log, log', a, Walk.SnapshotOf(w))
    requires forall c :: c in Diff.Changes(a, Walk.SnapshotOf(w)) ==> Done(u, w, c)
    requires forall p :: (forall c :: c in Diff.Changes(a, Walk.SnapshotOf(w)) ==> c.path != p) ==> Untouched(t, u, p)
    ensures Mirrors(u, Walk.SnapshotOf(w), log')
  {
    var b := Walk.SnapshotOf(w);
    SnapshotConsistent(w);
    forall p ensures MirrorsAt(u, b, log', p) {
      if p in ChangedPaths(Diff.Changes(a, b)) {
        var c :| c in Diff.Changes(a, b) && c.path == p;
        ChangedAt(u, a, w, log, log', c);
      } else {
        UnchangedAt(t, u, a, w, log, log', p);
      }
    }
    SnapshotCovered(u, b, log');
  }

  /** A turn's changes carry the mirror from one snapshot to the next exactly when there is no conflict. */
  lemma MirrorTurn(t: Tree, a: Manifest, w: Tree, log: Log, log': Log)
    requires Mirrors(t, a, log) && DistinctPaths(a) && Valid(w)
    requires LogGrows(log, log', a, Walk.SnapshotOf(w))
    ensures Mirrors(ApplyAll(t, Pushes(Diff.Changes(a, Walk.SnapshotOf(w)), w)).tree, Walk.SnapshotOf(w), log')
      <==> NoConflict(t, a, Walk.SnapshotOf(w))
  {
    var b := Walk.SnapshotOf(w);
    var u := ApplyAll(t, Pushes(Diff.Changes(a, b), w)).tree;
    SnapshotConsistent(w);
    ApplySucceedsIff(t, a, b, w);
    if NoConflict(t, a, b) {
      MirrorWithout(t, u, a, w, log, log');
    } else {
      var p :| p in Index(b) && p !in u.files;
      assert !MirrorsAt(u, b, log', p);
    }
  }

  lemma SnapshotConsistent(w: Tree)
    requires Valid(w)
    ensures Consistent(Walk.SnapshotOf(w))
  {
    Walk.SnapshotIsManifest(w);
    Walk.ManifestIndex(w, Walk.UNLIMITED, Walk.SnapshotOf(w));
  }

  lemma SnapshotCovered(u: Tree, b: Manifest, log: Log)
    requires Valid(u) && Consistent(b) && forall p :: MirrorsAt(u, b, log, p)
    ensures Covers(u, b)
  {
    forall p | p in Index(b) ensures p in u.files && p != "" {
      assert MirrorsAt(u, b, log, p);
      Paths.CleanPathStays(p);
    }
  }

  // ---- Every step keeps the mirror ----

  lemma MirroredKept(u: Tree, log: Log, log': Log)
    requires Mirrored(u, log) && SameMarks(log, log')
    ensures Mirrored(u, log')
  {
    forall p ensures MirrorsAt(u, Base(log'), log', p) <==> MirrorsAt(u, Base(log), log, p) {
    }
  }

  function Received(t: Tree, x: Down): Tree {
    if x.Change? then ApplyChange(t, x.push.change, x.push.content).tree else t
  }

  /** Reading one message and then catching up is catching up. */
  lemma ReadOne(t: Tree, d: seq<Down>, more: seq<Push>)
    requires d != []
    ensures ApplyAll(Received(t, d[0]), OnWire(d[1..]) + more).tree == ApplyAll(t, OnWire(d) + more).tree
  {
    var now, later := OnWire(d) + more, OnWire(d[1..]) + more;
    if d[0].Change? {
      assert now == [d[0].push] + later;
      ApplyFirst(t, d[0].push, later);
    } else {
      assert now == later;
    }
  }

  lemma ApplyFirst(t: Tree, x: Push, ps: seq<Push>)
    ensures ApplyAll(t, [x] + ps).tree == ApplyAll(ApplyChange(t, x.change, x.content).tree, ps).tree
  {
    assert ([x] + ps)[1..] == ps;
  }

  lemma SendOne(d: seq<Down>, cs: seq<FileChange>, w: Tree)
    requires cs != []
    ensures OnWire(d + [Change(Push(cs[0], Content(cs[0], w)))]) + Pushes(cs[1..], w) == OnWire(d) + Pushes(cs, w)
  {
    var x := Push(cs[0], Content(cs[0], w));
    OnWireSnoc(d, Change(x));
    PushesCons(cs, w);
    Regroup(OnWire(d), [x], Pushes(cs[1..], w));
  }

  lemma ReadKeeps(s: State)
    requires s.down != []
    ensures CaughtUp(ReadDown(s)) == CaughtUp(s)
  {
    ReadOne(s.client, s.down, if s.pump.Sending? then Pushes(s.pump.rest, s.ws) else []);
    assert ReadDown(s).client == Received(s.client, s.down[0]);
  }

  lemma SendKeeps(s: State)
    requires Enabled(s, PumpSend)
    ensures CaughtUp(Step(s, PumpSend)) == CaughtUp(s)
  {
    SendOne(s.down, s.pump.rest, s.ws);
  }

  lemma PumpKeeps(s: State, l: Label)
    requires Enabled(s, l) && PumpLabel(l) && !l.PumpSnapshot? && !l.PumpSend?
    ensures CaughtUp(Step(s, l)) == CaughtUp(s)
  {
    OnWireSnoc(s.down, Stream);
    OnWireSnoc(s.down, TurnDone);
    assert Pending(Step(s, l)) == Pending(s);
  }

  /** Steps that leave alone what the client will have once it has caught up. */
  lemma CaughtUpKept(s: State, l: Label)
    requires Gate(s) && Enabled(s, l) && !l.PumpSnapshot? && Step(s, l).log.phase != NotPushed
    ensures CaughtUp(Step(s, l)) == CaughtUp(s)
  {
    if l.ClientRead? {
      ReadKeeps(s);
    } else if l.PumpSend? {
      SendKeeps(s);
    } else if PumpLabel(l) {
      PumpKeeps(s, l);
    } else {
      assert Pending(Step(s, l)) == Pending(s);
    }
  }

  /** The diff is taken when the client has nothing left to apply. */
  lemma NothingPending(s: State)
    requires Gate(s) && s.pump == Finishing
    ensures OnWire(s.down) == [] && CaughtUp(s) == s.client
  {
    StreamsCarryNothing(s.down);
  }

  lemma SnapshotCatchesUp(s: State)
    requires Gate(s) && s.pump == Finishing
    ensures CaughtUp(Snapshotted(s)) ==
      ApplyAll(s.client, Pushes(Diff.Changes(s.preTurn, Walk.SnapshotOf(s.ws)), s.ws)).tree
  {
    NothingPending(s);
    var ps := Pushes(Diff.Changes(s.preTurn, Walk.SnapshotOf(s.ws)), s.ws);
    assert Pending(Snapshotted(s)) == [] + ps == ps;
  }

  lemma MirrorGrowsAt(t: Tree, a: Manifest, w: Tree, log: Log, log': Log, p: string)
    requires Turn(t, a, Walk.SnapshotOf(w)) && Consistent(a) && Valid(w) && Index(a).Keys <= log.ever
    requires LogGrows(log, log', a, Walk.SnapshotOf(w))
    ensures var cs := Diff.Changes(a, Walk.SnapshotOf(w));
      MirrorsAt(ApplyAll(t, Pushes(cs, w)).tree, Walk.SnapshotOf(w), log', p) <==>
        if p in ChangedPaths(cs) then p !in BlockedPaths(t, a, cs) else MirrorsAt(t, a, log, p)
  {
    var b := Walk.SnapshotOf(w);
    var cs := Diff.Changes(a, b);
    var u := ApplyAll(t, Pushes(cs, w)).tree;
    PathByPath(t, a, b, w);
    if p in ChangedPaths(cs) {
      var c :| c in cs && c.path == p;
      OneChange(a, b, c);
      NotDone(t, a, b, w, c);
      ChangedAt(u, a, w, log, log', c);
    } else {
      UnchangedAt(t, u, a, w, log, log', p);
    }
  }

  lemma NotDone(t: Tree, a: Manifest, b: Manifest, w: Tree, c: FileChange)
    requires Turn(t, a, b) && c in Diff.Changes(a, b)
    ensures var u := ApplyAll(t, Pushes(Diff.Changes(a, b), w)).tree;
      !Done(u, w, c) ==> c.path in Index(b) && c.path !in u.files
  {
    PathByPath(t, a, b, w);
    Diff.ChangesExact(a, b);
  }

  lemma OneChange(a: Manifest, b: Manifest, c: FileChange)
    requires DistinctPaths(a) && DistinctPaths(b) && c in Diff.Changes(a, b)
    ensures forall d :: d in Diff.Changes(a, b) && d.path == c.path ==> d == c
  {
    Diff.ChangesExact(a, b);
    forall d | d in Diff.Changes(a, b) && d.path == c.path ensures d == c {
      Diff.OnlyCandidate(Index(a), Index(b), c);
      Diff.OnlyCandidate(Index(a), Index(b), d);
    }
  }

  lemma MirrorGrows(t: Tree, a: Manifest, w: Tree, log: Log, log': Log)
    requires Mirrored(t, log) && Base(log) == a && Valid(w)
    requires Base(log') == Walk.SnapshotOf(w) && LogGrows(log, log', a, Walk.SnapshotOf(w))
    requires var cs := Diff.Changes(a, Walk.SnapshotOf(w));
      log'.behind == log.behind - ChangedPaths(cs) + BlockedPaths(t, a, cs)
    ensures Mirrored(ApplyAll(t, Pushes(Diff.Changes(a, Walk.SnapshotOf(w)), w)).tree, log')
  {
    var b := Walk.SnapshotOf(w);
    SnapshotConsistent(w);
    PathByPath(t, a, b, w);
    forall p ensures MirrorsAt(ApplyAll(t, Pushes(Diff.Changes(a, b), w)).tree, b, log', p) <==> p !in log'.behind {
      assert MirrorsAt(t, a, log, p) <==> p !in log.behind;
      MirrorGrowsAt(t, a, w, log, log', p);
    }
  }

  lemma SnapshotMirrors(s: State)
    requires Gate(s) && Baseline(s) && Mirrored(s.client, s.log) && s.pump == Finishing
    ensures Mirrored(ApplyAll(s.client, Pushes(Diff.Changes(s.preTurn, Walk.SnapshotOf(s.ws)), s.ws)).tree,
      Snapshotted(s).log)
  {
    MirrorGrows(s.client, s.preTurn, s.ws, s.log, Snapshotted(s).log);
  }

  ghost predicate SameMarks(log: Log, log': Log) {
    && Base(log') == Base(log) && log'.behind == log.behind
    && log'.ever == log.ever && log'.touched == log.touched && log'.start == log.start
  }

  lemma HandlerMarks(s: State, l: Label)
    requires Enabled(s, l) && HandlerLabel(l)
    ensures SameMarks(s.log, Step(s, l).log)
  {
  }

  lemma PumpMarks(s: State, l: Label)
    requires Enabled(s, l) && PumpLabel(l) && !l.PumpSnapshot?
    ensures SameMarks(s.log, Step(s, l).log)
  {
  }

  lemma FailMarks(s: State, l: Label)
    requires Enabled(s, l) && FailLabel(l)
    ensures SameMarks(s.log, Step(s, l).log)
  {
  }

  lemma OtherMarks(s: State, l: Label)
    requires Enabled(s, l) && !HandlerLabel(l) && !PumpLabel(l) && !FailLabel(l)
    ensures SameMarks(s.log, Step(s, l).log)
  {
  }

  lemma LogKept(s: State, l: Label)
    requires Enabled(s, l) && !l.PumpSnapshot?
    ensures SameMarks(s.log, Step(s, l).log)
  {
    if HandlerLabel(l) {
      HandlerMarks(s, l);
    } else if PumpLabel(l) {
      PumpMarks(s, l);
    } else if FailLabel(l) {
      FailMarks(s, l);
    } else {
      OtherMarks(s, l);
    }
  }

  /** Once a change has not been sent, the turn never ends. */
  lemma NotPushedStays(s: State, l: Label)
    requires Gate(s) && Enabled(s, l) && s.log.phase == NotPushed
    ensures Step(s, l).log.phase == NotPushed
  {
  }

  lemma MirroredStep(s: State, l: Label)
    requires Gate(s) && Baseline(s) && Enabled(s, l) && (s.log.phase != NotPushed ==> Mirrored(CaughtUp(s), s.log))
    ensures Step(s, l).log.phase != NotPushed ==> Mirrored(CaughtUp(Step(s, l)), Step(s, l).log)
  {
    if s.log.phase == NotPushed {
      NotPushedStays(s, l);
    } else if l.PumpSnapshot? {
      NothingPending(s);
      SnapshotCatchesUp(s);
      SnapshotMirrors(s);
    } else if Step(s, l).log.phase != NotPushed {
      CaughtUpKept(s, l);
      LogKept(s, l);
      MirroredKept(CaughtUp(s), s.log, Step(s, l).log);
    }
  }

  /** Every step of every process keeps the invariant. */
  lemma StepInv(s: State, l: Label)
    requires Inv(s) && Enabled(s, l)
    ensures Inv(Step(s, l))
  {
    GateStep(s, l);
    ConservedStep(s, l);
    BaselineStep(s, l);
    NumberedStep(s, l);
    MirroredStep(s, l);
  }

  lemma InitialMirrors(client: Tree, ws: Tree, log: Log)
    requires Starts(client, ws) && log.start == client && log.touched == {} && log.behind == {}
    requires Base(log) == Walk.SnapshotOf(ws) && log.ever == Index(Walk.SnapshotOf(ws)).Keys
    ensures Mirrored(client, log)
  {
    var m := Walk.SnapshotOf(ws);
    Walk.SnapshotIsManifest(ws);
    Walk.ManifestIndex(ws, Walk.UNLIMITED, m);
    SnapshotConsistent(ws);
    forall p ensures MirrorsAt(client, m, log, p) {
    }
  }

  lemma InitialServer(s: State)
    requires Initial(s)
    ensures Gate(s) && Baseline(s) && Conserved(s) && Numbered(s)
  {
  }

  lemma NothingSent(s: State)
    requires s.down == [] && s.pump == Ready
    ensures CaughtUp(s) == s.client
  {
  }

  lemma InitialInv(s: State)
    requires Initial(s)
    ensures Inv(s)
  {
    InitialServer(s);
    SnapshotConsistent(s.ws);
    InitialMirrors(s.client, s.ws, s.log);
    NothingSent(s);
  }

  lemma InvAdvances(run: seq<State>, labels: seq<Label>, k: nat)
    requires Linked(run, labels) && k < |labels| && Inv(run[k])
    ensures Inv(run[k + 1])
  {
    assert StepsAt(run, labels, k);
    StepInv(run[k], labels[k]);
  }

  ghost predicate Preserved(run: seq<State>, p: State -> bool, k: nat)
    requires k + 1 < |run|
  {
    p(run[k]) ==> p(run[k + 1])
  }

  lemma {:induction false} Induct(run: seq<State>, p: State -> bool, k: nat)
    requires k < |run| && p(run[0]) && forall j :: 0 <= j < |run| - 1 ==> Preserved(run, p, j)
    ensures p(run[k])
  {
    if k > 0 {
      Induct(run, p, k - 1);
      assert Preserved(run, p, k - 1);
    }
  }

  lemma InvPreserved(run: seq<State>, labels: seq<Label>, k: nat)
    requires Linked(run, labels) && k < |labels|
    ensures Preserved(run, s => Inv(s), k)
  {
    if Inv(run[k]) { InvAdvances(run, labels, k); }
  }

  lemma RunInv(run: seq<State>, labels: seq<Label>, k: nat)
    requires IsRun(run, labels) && k <= |labels|
    ensures Inv(run[k])
  {
    var p := s => Inv(s);
    InitialInv(run[0]);
    forall j | 0 <= j < |labels| ensures Preserved(run, p, j) {
      InvPreserved(run, labels, j);
    }
    Induct(run, p, k);
  }

  // ---- What the bookkeeping says ----

  /** The paths of the first snapshot and of every snapshot diffed since. */
  ghost function EverSynced(first: Manifest, taken: seq<(Manifest, Manifest)>): set<string> {
    if taken == [] then Index(first).Keys
    else EverSynced(first, taken[..|taken| - 1]) + Index(taken[|taken| - 1].1).Keys
  }

  /** The paths of every change of every diff taken. */
  ghost function EverChanged(taken: seq<(Manifest, Manifest)>): set<string> {
    if taken == [] then {}
    else EverChanged(taken[..|taken| - 1]) + ChangedPaths(Diff.Changes(taken[|taken| - 1].0, taken[|taken| - 1].1))
  }

  ghost predicate Noted(init: State, log: Log) {
    && log.start == init.client && log.first == Walk.SnapshotOf(init.ws)
    && log.ever == EverSynced(log.first, log.taken) && log.touched == EverChanged(log.taken)
  }

  lemma NotedSnapshot(init: State, s: State)
    requires Noted(init, s.log)
    ensures Noted(init, Snapshotted(s).log)
  {
    var taken := Snapshotted(s).log.taken;
    assert taken[..|taken| - 1] == s.log.taken;
  }

  lemma NotedStep(init: State, s: State, l: Label)
    requires Noted(init, s.log) && Enabled(s, l)
    ensures Noted(init, Step(s, l).log)
  {
    if l.PumpSnapshot? {
      NotedSnapshot(init, s);
    } else {
      LogKept(s, l);
      TakenKept(s, l);
    }
  }

  lemma NotedAdvances(run: seq<State>, labels: seq<Label>, k: nat)
    requires Linked(run, labels) && k < |labels| && Noted(run[0], run[k].log)
    ensures Noted(run[0], run[k + 1].log)
  {
    assert StepsAt(run, labels, k);
    NotedStep(run[0], run[k], labels[k]);
  }

  lemma RunNoted(run: seq<State>, labels: seq<Label>, k: nat)
    requires Linked(run, labels) && k <= |labels| && Noted(run[0], run[0].log)
    ensures Noted(run[0], run[k].log)
  {
    var p := (s: State) => Noted(run[0], s.log);
    forall j | 0 <= j < |labels| ensures Preserved(run, p, j) {
      if Noted(run[0], run[j].log) { NotedAdvances(run, labels, j); }
    }
    Induct(run, p, k);
  }

  lemma TakenKept(s: State, l: Label)
    requires Enabled(s, l) && !l.PumpSnapshot?
    ensures Step(s, l).log.taken == s.log.taken && Step(s, l).log.first == s.log.first
  {
  }

  /** The diff about to be taken. */
  ghost function NextDiff(s: State): seq<FileChange> {
    Diff.Changes(s.preTurn, Walk.SnapshotOf(s.ws))
  }

  ghost predicate ChangesAt(s: State, p: string) {
    p in ChangedPaths(NextDiff(s))
  }

  /** The diff about to be taken writes `p`, and there is an obstacle on the client. */
  ghost predicate BlockedAt(s: State, p: string) {
    p in BlockedPaths(s.client, s.preTurn, NextDiff(s))
  }

  /** The diff about to be taken cannot be reached on the client. */
  ghost predicate Conflicted(s: State) {
    !NoConflict(s.client, s.preTurn, Walk.SnapshotOf(s.ws))
  }

  /** The diff about to be taken has `p` as a new path with an obstacle on the client. */
  ghost predicate ObstructedAt(s: State, p: string) {
    p in Index(Walk.SnapshotOf(s.ws)) && p !in Index(s.preTurn) && Obstacle(s.client, s.preTurn, p)
  }

  /** A diff meets a conflict exactly when one of its paths is obstructed. */
  lemma ConflictedSomewhere(s: State)
    ensures Conflicted(s) <==> exists p :: ObstructedAt(s, p)
  {
    var a, b := s.preTurn, Walk.SnapshotOf(s.ws);
    ConflictIsObstacle(s.client, a, b);
    if Conflicted(s) {
      var p :| p in Index(b) && p !in Index(a) && Obstacle(s.client, a, p);
      assert ObstructedAt(s, p);
    }
  }

  /** No diff taken in the first k steps met a conflict on the client. */
  ghost predicate ConflictFree(run: seq<State>, labels: seq<Label>, k: nat)
    requires k <= |labels| < |run|
  {
    forall j :: 0 <= j < k && labels[j].PumpSnapshot? ==> !Conflicted(run[j])
  }

  /** No diff taken in the first k steps had `p` obstructed. */
  ghost predicate NeverObstructed(run: seq<State>, labels: seq<Label>, k: nat, p: string)
    requires k <= |labels| < |run|
  {
    forall j :: 0 <= j < k && labels[j].PumpSnapshot? ==> !ObstructedAt(run[j], p)
  }

  lemma ConflictFreeAt(run: seq<State>, labels: seq<Label>, k: nat, p: string)
    requires k <= |labels| < |run| && ConflictFree(run, labels, k)
    ensures NeverObstructed(run, labels, k, p)
  {
    forall j | 0 <= j < k && labels[j].PumpSnapshot? ensures !ObstructedAt(run[j], p) {
      ConflictedSomewhere(run[j]);
    }
  }

  /** Of the diffs in the first k steps that changed `p`, the one of step j was the last, and met an obstacle. */
  ghost predicate LastBlocked(run: seq<State>, labels: seq<Label>, k: nat, p: string, j: nat)
    requires k <= |labels| < |run|
  {
    && j < k && labels[j].PumpSnapshot? && BlockedAt(run[j], p)
    && forall i :: j < i < k && labels[i].PumpSnapshot? ==> !ChangesAt(run[i], p)
  }

  /** The last diff in the first k steps that changed `p`, if there was one, met an obstacle. */
  ghost predicate Behind(run: seq<State>, labels: seq<Label>, k: nat, p: string)
    requires k <= |labels| < |run|
  {
    exists j: nat :: LastBlocked(run, labels, k, p, j)
  }

  lemma BehindStep(s: State, l: Label, p: string)
    requires Enabled(s, l)
    ensures p in Step(s, l).log.behind <==>
      if l.PumpSnapshot? && ChangesAt(s, p) then BlockedAt(s, p) else p in s.log.behind
  {
    if !l.PumpSnapshot? { LogKept(s, l); }
  }

  lemma BehindAdvances(run: seq<State>, labels: seq<Label>, k: nat, p: string)
    requires Linked(run, labels) && k < |labels|
    ensures p in run[k + 1].log.behind <==>
      if labels[k].PumpSnapshot? && ChangesAt(run[k], p) then BlockedAt(run[k], p) else p in run[k].log.behind
  {
    assert StepsAt(run, labels, k);
    BehindStep(run[k], labels[k], p);
  }

  ghost predicate LatchAt(flag: seq<bool>, touch: seq<bool>, value: seq<bool>, k: nat)
    requires k < |touch| == |value| && |touch| < |flag|
  {
    flag[k + 1] <==> if touch[k] then value[k] else flag[k]
  }

  predicate LastTouch(touch: seq<bool>, value: seq<bool>, k: nat, j: nat)
    requires k <= |touch| == |value|
  {
    j < k && touch[j] && value[j] && forall i :: j < i < k ==> !touch[i]
  }

  /** A flag that each touch sets to a value is what the last touch set it to. */
  lemma {:induction false} LatchExact(flag: seq<bool>, touch: seq<bool>, value: seq<bool>, k: nat)
    requires k <= |touch| == |value| && |touch| < |flag| && !flag[0]
    requires forall j :: 0 <= j < |touch| ==> LatchAt(flag, touch, value, j)
    ensures flag[k] <==> exists j: nat :: LastTouch(touch, value, k, j)
  {
    if k > 0 {
      LatchExact(flag, touch, value, k - 1);
      assert LatchAt(flag, touch, value, k - 1);
      if touch[k - 1] {
        assert value[k - 1] ==> LastTouch(touch, value, k, k - 1);
      } else if flag[k] {
        var j: nat :| LastTouch(touch, value, k - 1, j);
        assert LastTouch(touch, value, k, j);
      } else if j: nat :| LastTouch(touch, value, k, j) {
        assert LastTouch(touch, value, k - 1, j);
      }
    }
  }

  lemma BlockedChanges(s: State, p: string)
    ensures BlockedAt(s, p) ==> ChangesAt(s, p)
  {
  }

  /** The paths the log keeps as behind are those that are. */
  lemma BehindExact(run: seq<State>, labels: seq<Label>, k: nat, p: string)
    requires Linked(run, labels) && k <= |labels| && run[0].log.behind == {}
    ensures p in run[k].log.behind <==> Behind(run, labels, k, p)
  {
    var n := |labels|;
    var flag := seq(|run|, i requires 0 <= i < |run| => p in run[i].log.behind);
    var touch := seq(n, i requires 0 <= i < n => labels[i].PumpSnapshot? && ChangesAt(run[i], p));
    var value := seq(n, i requires 0 <= i < n => BlockedAt(run[i], p));
    forall j | 0 <= j < n ensures LatchAt(flag, touch, value, j) {
      BehindAdvances(run, labels, j, p);
    }
    LatchExact(flag, touch, value, k);
    forall j: nat ensures LastTouch(touch, value, k, j) <==> LastBlocked(run, labels, k, p, j) {
      SameLast(run, labels, k, p, j, touch, value);
    }
  }

  lemma SameLast(run: seq<State>, labels: seq<Label>, k: nat, p: string, j: nat, touch: seq<bool>, value: seq<bool>)
    requires k <= |labels| < |run| && |touch| == |value| == |labels|
    requires forall i :: 0 <= i < |labels| ==> touch[i] == (labels[i].PumpSnapshot? && ChangesAt(run[i], p))
    requires forall i :: 0 <= i < |labels| ==> value[i] == BlockedAt(run[i], p)
    ensures LastTouch(touch, value, k, j) <==> LastBlocked(run, labels, k, p, j)
  {
    if j < k { BlockedChanges(run[j], p); }
  }

  lemma ObstructedBlocked(s: State, p: string)
    requires Baseline(s) && Consistent(s.preTurn) && ObstructedAt(s, p)
    ensures BlockedAt(s, p)
  {
    var a, b := s.preTurn, Walk.SnapshotOf(s.ws);
    SnapshotConsistent(s.ws);
    Diff.ChangesExact(a, b);
    var c := Diff.Candidate(Index(a), Index(b), p);
    assert Diff.Calls(Index(a), Index(b), c);
  }

  /** Where a path is not behind, only a new one can be kept out: a file to be modified is there. */
  lemma BlockedIsObstructed(s: State, p: string)
    requires Inv(s) && s.pump == Finishing && p !in s.log.behind
    ensures BlockedAt(s, p) <==> ObstructedAt(s, p)
  {
    NothingPending(s);
    var a, b := s.preTurn, Walk.SnapshotOf(s.ws);
    assert Mirrored(s.client, s.log) && MirrorsAt(s.client, a, s.log, p);
    if ObstructedAt(s, p) { ObstructedBlocked(s, p); }
    if BlockedAt(s, p) {
      SnapshotConsistent(s.ws);
      Diff.ChangesExact(a, b);
    }
  }

  lemma NothingBehind(s: State)
    requires Initial(s)
    ensures s.log.behind == {}
  {
  }

  lemma NotBehindNext(run: seq<State>, labels: seq<Label>, k: nat, p: string)
    requires IsRun(run, labels) && k < |labels| && p !in run[k].log.behind
    requires labels[k].PumpSnapshot? ==> !ObstructedAt(run[k], p)
    ensures p !in run[k + 1].log.behind
  {
    if labels[k].PumpSnapshot? { DiffBlocks(run, labels, k, p); } else { BehindAdvances(run, labels, k, p); }
  }

  lemma {:induction false} NeverBehind(run: seq<State>, labels: seq<Label>, k: nat, p: string)
    requires IsRun(run, labels) && k <= |labels| && NeverObstructed(run, labels, k, p)
    ensures p !in run[k].log.behind
  {
    if k == 0 {
      NothingBehind(run[0]);
    } else {
      NeverBehind(run, labels, k - 1, p);
      NotBehindNext(run, labels, k - 1, p);
    }
  }

  lemma DiffBlocks(run: seq<State>, labels: seq<Label>, j: nat, p: string)
    requires IsRun(run, labels) && j < |labels| && labels[j].PumpSnapshot? && p !in run[j].log.behind
    ensures BlockedAt(run[j], p) <==> ObstructedAt(run[j], p)
    ensures p in run[j + 1].log.behind <==> ObstructedAt(run[j], p)
  {
    RunInv(run, labels, j);
    assert StepsAt(run, labels, j);
    BlockedIsObstructed(run[j], p);
    BehindAdvances(run, labels, j, p);
    BlockedChanges(run[j], p);
  }

  lemma ConflictBehind(run: seq<State>, labels: seq<Label>, j: nat) returns (p: string)
    requires IsRun(run, labels) && j < |labels| && labels[j].PumpSnapshot? && Conflicted(run[j])
    ensures Behind(run, labels, j + 1, p)
  {
    RunInv(run, labels, j);
    assert StepsAt(run, labels, j);
    ConflictedSomewhere(run[j]);
    p :| ObstructedAt(run[j], p);
    NothingPending(run[j]);
    ObstructedBlocked(run[j], p);
    assert LastBlocked(run, labels, j + 1, p, j);
  }

  /** A run is free of conflicts if and only if no path was behind at any point of it. */
  lemma ConflictFreeExactly(run: seq<State>, labels: seq<Label>, k: nat)
    requires IsRun(run, labels) && k <= |labels|
    ensures ConflictFree(run, labels, k) <==> forall j, p :: 0 <= j <= k ==> !Behind(run, labels, j, p)
  {
    if ConflictFree(run, labels, k) {
      forall j, p | 0 <= j <= k ensures !Behind(run, labels, j, p) {
        ConflictFreeAt(run, labels, j, p);
        NeverBehind(run, labels, j, p);
        BehindExact(run, labels, j, p);
      }
    } else {
      var j :| 0 <= j < k && labels[j].PumpSnapshot? && Conflicted(run[j]);
      var p := ConflictBehind(run, labels, j);
      assert Behind(run, labels, j + 1, p);
    }
  }

  // ---- The results ----

  /** Nothing of a turn is under way between the reading of TurnDone and the next Send. */
  predicate Settled(s: State) {
    s.log.phase == TokenReady || s.log.phase == Quiet || s.log.phase == Flying || s.log.phase.Preparing?
  }

  lemma SettledMirrors(s: State)
    requires Inv(s) && Settled(s)
    ensures Pending(s) == [] && CaughtUp(s) == s.client && Walk.SnapshotOf(s.ws) == Base(s.log)
    ensures Mirrored(s.client, s.log)
  {
    StreamsCarryNothing(s.down);
  }

  /** One path of client and workspace in step; `start` is the client's tree when turns began. */
  ghost predicate InStepAt(client: Tree, ws: Tree, start: Tree, ever: set<string>, changed: set<string>, p: string) {
    if p in Walk.Kept(ws, Walk.UNLIMITED) then
      && p in client.files && HashContent(client.files[p].content) == HashContent(ws.files[p].content)
      && (if p in changed then client.files[p].mode == EffectiveMode(ws.files[p].mode) else Untouched(start, client, p))
    else if p in ever then p !in client.files
    else Untouched(start, client, p)
  }

  lemma PermTwice(m: Mode)
    ensures EffectiveMode(Perm(m)) == EffectiveMode(m)
  {
  }

  lemma MirrorsInStep(t: Tree, ws: Tree, log: Log, p: string)
    ensures MirrorsAt(t, Walk.SnapshotOf(ws), log, p) <==> InStepAt(t, ws, log.start, log.ever, log.touched, p)
  {
    Walk.SnapshotIsManifest(ws);
    Walk.ManifestIndex(ws, Walk.UNLIMITED, Walk.SnapshotOf(ws));
    if p in ws.files { PermTwice(ws.files[p].mode); }
  }

  /** Path `p` of the client and of the workspace after the first k steps. */
  ghost predicate InStepHere(run: seq<State>, k: nat, p: string)
    requires k < |run|
  {
    InStepAt(run[k].client, run[k].ws, run[0].client,
      EverSynced(Walk.SnapshotOf(run[0].ws), run[k].log.taken), EverChanged(run[k].log.taken), p)
  }

  lemma InStepLogged(run: seq<State>, labels: seq<Label>, k: nat, p: string)
    requires IsRun(run, labels) && k <= |labels| && Settled(run[k])
    ensures InStepHere(run, k, p) <==> p !in run[k].log.behind
  {
    RunInv(run, labels, k);
    RunNoted(run, labels, k);
    SettledMirrors(run[k]);
    MirrorsInStep(run[k].client, run[k].ws, run[k].log, p);
  }

  /**
   Convergence, exactly: over any number of turns, in any order of steps, from the client's reading of a
   turn.done until the next prompt reaches the agent, whatever conflicts there have been: a path is in step if
   and only if the last diff that changed it, if any did, deleted it or found no obstacle to writing it. In
   step means: if the workspace has the path the client has that content (and that mode, once changed); if it
   was once synced it is gone; otherwise it is as at the start.
   */
  lemma InStepExactly(run: seq<State>, labels: seq<Label>, k: nat, p: string)
    requires IsRun(run, labels) && k <= |labels| && Settled(run[k])
    ensures InStepHere(run, k, p) <==> !Behind(run, labels, k, p)
  {
    InStepLogged(run, labels, k, p);
    BehindExact(run, labels, k, p);
  }

  /** A path that was never obstructed is in step, whatever became of other paths. */
  lemma ConvergesAt(run: seq<State>, labels: seq<Label>, k: nat, p: string)
    requires IsRun(run, labels) && k <= |labels| && Settled(run[k]) && NeverObstructed(run, labels, k, p)
    ensures InStepHere(run, k, p)
  {
    NeverBehind(run, labels, k, p);
    InStepLogged(run, labels, k, p);
  }

  /** Whole-run convergence: with no conflict so far, every path is in step. */
  lemma Converges(run: seq<State>, labels: seq<Label>, k: nat, p: string)
    requires IsRun(run, labels) && k <= |labels| && Settled(run[k]) && ConflictFree(run, labels, k)
    ensures InStepHere(run, k, p)
  {
    ConflictFreeAt(run, labels, k, p);
    ConvergesAt(run, labels, k, p);
  }

  /** Where SHA-256 does not confuse the two files, in step means byte for byte. */
  lemma ConvergesInContent(run: seq<State>, labels: seq<Label>, k: nat, p: string)
    requires IsRun(run, labels) && k <= |labels| && Settled(run[k]) && !Behind(run, labels, k, p)
    requires p in Walk.Kept(run[k].ws, Walk.UNLIMITED)
    requires p in run[k].client.files ==> NoCollision(run[k].client.files[p].content, run[k].ws.files[p].content)
    ensures p in run[k].client.files && run[k].client.files[p].content == run[k].ws.files[p].content
  {
    InStepExactly(run, labels, k, p);
    HashValid(run[k].client.files[p].content, run[k].ws.files[p].content);
  }

  /** A changed file in step has the very permissions it has in the workspace, where that has any. */
  lemma ConvergesInMode(run: seq<State>, labels: seq<Label>, k: nat, p: string)
    requires IsRun(run, labels) && k <= |labels| && Settled(run[k]) && !Behind(run, labels, k, p)
    requires p in Walk.Kept(run[k].ws, Walk.UNLIMITED) && p in EverChanged(run[k].log.taken)
    ensures p in run[k].client.files
    ensures var m := run[k].ws.files[p].mode;
      && run[k].client.files[p].mode == (if m % 0x200 == 0 then 0x1A4 else m % 0x200)
      && (0 < m <= 0x1FF ==> run[k].client.files[p].mode == m)
  {
    InStepExactly(run, labels, k, p);
    EffectiveModeExact(run[k].ws.files[p].mode);
  }

  /** Reading turn.done settles the client. */
  lemma TurnDoneSettles(run: seq<State>, labels: seq<Label>, k: nat)
    requires IsRun(run, labels) && k < |labels| && labels[k].ClientRead?
    requires run[k].down != [] && run[k].down[0].TurnDone?
    ensures Settled(run[k + 1]) && run[k + 1].token && run[k].log.phase == Announced
  {
    assert StepsAt(run, labels, k);
    RunInv(run, labels, k);
  }

  lemma SettledStep(s: State, l: Label)
    requires Gate(s) && Settled(s) && Enabled(s, l) && !l.Send? && !l.SendFails?
    ensures Settled(Step(s, l))
  {
  }

  lemma SettledNext(run: seq<State>, labels: seq<Label>, k: nat)
    requires IsRun(run, labels) && k < |labels| && Settled(run[k]) && !labels[k].Send? && !labels[k].SendFails?
    ensures Settled(run[k + 1])
  {
    RunInv(run, labels, k);
    assert StepsAt(run, labels, k);
    SettledStep(run[k], labels[k]);
  }

  /** From the reading of turn.done the client stays settled until the agent is given the next prompt. */
  lemma {:induction false} SettledUntilSend(run: seq<State>, labels: seq<Label>, j: nat, k: nat)
    requires IsRun(run, labels) && j < k <= |labels|
    requires labels[j].ClientRead? && run[j].down != [] && run[j].down[0].TurnDone?
    requires forall i :: j < i < k ==> !labels[i].Send? && !labels[i].SendFails?
    ensures Settled(run[k])
    decreases k
  {
    if k == j + 1 {
      TurnDoneSettles(run, labels, j);
    } else {
      SettledUntilSend(run, labels, j, k - 1);
      SettledNext(run, labels, k - 1);
    }
  }

  // ---- Exactness over one diff ----

  /** Nothing is diffed from step j to step k. */
  predicate NoDiffs(labels: seq<Label>, j: nat, k: nat)
    requires k <= |labels|
  {
    forall i :: j <= i < k ==> !labels[i].PumpSnapshot?
  }

  lemma {:induction false} BehindKept(run: seq<State>, labels: seq<Label>, j: nat, k: nat, p: string)
    requires Linked(run, labels) && j <= k <= |labels| && NoDiffs(labels, j, k)
    ensures p in run[k].log.behind <==> p in run[j].log.behind
    decreases k - j
  {
    if j < k {
      BehindKept(run, labels, j, k - 1, p);
      BehindAdvances(run, labels, k - 1, p);
    }
  }

  lemma BehindAfter(run: seq<State>, labels: seq<Label>, j: nat, k: nat, p: string)
    requires IsRun(run, labels) && j < k <= |labels| && labels[j].PumpSnapshot? && NoDiffs(labels, j + 1, k)
    requires NeverObstructed(run, labels, j, p)
    ensures p in run[k].log.behind <==> ObstructedAt(run[j], p)
  {
    NeverBehind(run, labels, j, p);
    DiffBlocks(run, labels, j, p);
    BehindKept(run, labels, j + 1, k, p);
  }

  /**
   Where no diff before the last obstructed a path, it is in step after the last if and only if that did not
   obstruct it either, whatever happened on other paths.
   */
  lemma ConvergesAtExactly(run: seq<State>, labels: seq<Label>, j: nat, k: nat, p: string)
    requires IsRun(run, labels) && j < k <= |labels| && labels[j].PumpSnapshot? && NoDiffs(labels, j + 1, k)
    requires Settled(run[k]) && NeverObstructed(run, labels, j, p)
    ensures InStepHere(run, k, p) <==> !ObstructedAt(run[j], p)
  {
    BehindAfter(run, labels, j, k, p);
    InStepLogged(run, labels, k, p);
  }

  ghost predicate InStep(run: seq<State>, k: nat)
    requires k < |run|
  {
    forall p :: InStepHere(run, k, p)
  }

  /**
   Over a run: when every diff before the last was conflict-free, the settled client is in step with the
   workspace if and only if the last diff met no conflict.
   */
  lemma ConvergesExactly(run: seq<State>, labels: seq<Label>, j: nat, k: nat)
    requires IsRun(run, labels) && j < k <= |labels| && labels[j].PumpSnapshot? && NoDiffs(labels, j + 1, k)
    requires Settled(run[k]) && ConflictFree(run, labels, j)
    ensures InStep(run, k) <==> !Conflicted(run[j])
  {
    ConflictedSomewhere(run[j]);
    forall p ensures InStepHere(run, k, p) <==> !ObstructedAt(run[j], p) {
      ConflictFreeAt(run, labels, j, p);
      ConvergesAtExactly(run, labels, j, k, p);
    }
  }
}
