/**
 The session service of one connection (internal/core/app/session.go) and the client's upload loop
 (internal/core/clientapp/clientapp.go), step by step. The machines `Handshake` and `Turns` interleave what is
 written here as whole methods.
 */
module Session {
  import opened Prelude
  import opened Domain
  import opened Trees
  import opened LocalFs
  import Blobs = BlobStore
  import Convergence
  import Diff
  import Handshake
  import Hashing
  import Paths
  import Turns
  import TurnPaths
  import Walk
  import Workspace

  /** Whether a send succeeds, given what has been sent before. */
  type Accepts = (seq<Turns.Down>, Turns.Down) -> bool

  function Wire(ps: seq<Push>): seq<Turns.Down> {
    seq(|ps|, i requires 0 <= i < |ps| => Turns.Change(ps[i]))
  }

  /** All that a turn sends at its end: each change with its content, then the turn's end. */
  ghost function TurnMessages(baseline: Manifest, ws: Tree): seq<Turns.Down> {
    Wire(Pushes(Diff.Changes(baseline, Walk.SnapshotOf(ws)), ws)) + [Turns.TurnDone]
  }

  /** How many messages go out before one is refused, after `sent` has gone out already. */
  function Accepted(accepts: Accepts, sent: seq<Turns.Down>, msgs: seq<Turns.Down>): (n: nat)
    ensures n <= |msgs|
    decreases |msgs|
  {
    if msgs == [] || !accepts(sent, msgs[0]) then 0
    else 1 + Accepted(accepts, sent + [msgs[0]], msgs[1..])
  }

  lemma AcceptedFirst(accepts: Accepts, sent: seq<Turns.Down>, msgs: seq<Turns.Down>)
    requires msgs != []
    ensures Accepted(accepts, sent, msgs) ==
      if accepts(sent, msgs[0]) then 1 + Accepted(accepts, sent + [msgs[0]], msgs[1..]) else 0
  {
  }

  /** It is the first refusal that ends the sending, and nothing else. */
  lemma {:induction false} AcceptedIsFirst(accepts: Accepts,
      sent: seq<Turns.Down>, msgs: seq<Turns.Down>)
    ensures var n := Accepted(accepts, sent, msgs);
      && (forall i :: 0 <= i < n ==> accepts(sent + msgs[..i], msgs[i]))
      && (n < |msgs| ==> !accepts(sent + msgs[..n], msgs[n]))
    decreases |msgs|
  {
    assert sent + [] == sent;
    if msgs != [] && accepts(sent, msgs[0]) {
      var n, rest := Accepted(accepts, sent, msgs), msgs[1..];
      AcceptedIsFirst(accepts, sent + [msgs[0]], rest);
      forall i | 1 <= i <= n && i < |msgs|
        ensures sent + msgs[..i] == sent + [msgs[0]] + rest[..i - 1] && msgs[i] == rest[i - 1]
      {
        assert msgs[..i] == [msgs[0]] + rest[..i - 1];
      }
    }
  }

  lemma {:induction false} AcceptedSnoc(accepts: Accepts,
      sent: seq<Turns.Down>, msgs: seq<Turns.Down>, x: Turns.Down)
    ensures var n := Accepted(accepts, sent, msgs);
      Accepted(accepts, sent, msgs + [x]) == if n < |msgs| then n else n + if accepts(sent + msgs, x) then 1 else 0
    decreases |msgs|
  {
    if msgs == [] {
      assert sent + [] == sent && msgs + [x] == [x] && [x][1..] == [];
    } else {
      assert (msgs + [x])[1..] == msgs[1..] + [x];
      assert sent + [msgs[0]] + msgs[1..] == sent + msgs;
      AcceptedSnoc(accepts, sent + [msgs[0]], msgs[1..], x);
    }
  }

  /** `after` is `before` with the messages up to the first refusal; `ok` says there was none. */
  ghost predicate SentUpTo(accepts: Accepts, before: seq<Turns.Down>,
      msgs: seq<Turns.Down>, after: seq<Turns.Down>, ok: bool)
  {
    var n := Accepted(accepts, before, msgs);
    after == before + msgs[..n] && ok == (n == |msgs|)
  }

  /** The first `i` messages have gone out. */
  ghost predicate SendingAt(accepts: Accepts, before: seq<Turns.Down>, msgs: seq<Turns.Down>,
      now: seq<Turns.Down>, i: nat)
  {
    && i <= |msgs| && now == before + msgs[..i]
    && Accepted(accepts, before, msgs) == i + Accepted(accepts, now, msgs[i..])
  }

  lemma SendingStarts(accepts: Accepts, before: seq<Turns.Down>, msgs: seq<Turns.Down>)
    ensures SendingAt(accepts, before, msgs, before, 0)
  {
    assert before + msgs[..0] == before && msgs[0..] == msgs;
  }

  lemma SendingNext(accepts: Accepts, before: seq<Turns.Down>, msgs: seq<Turns.Down>, now: seq<Turns.Down>, i: nat)
    requires SendingAt(accepts, before, msgs, now, i) && i < |msgs|
    ensures if accepts(now, msgs[i]) then SendingAt(accepts, before, msgs, now + [msgs[i]], i + 1)
      else SentUpTo(accepts, before, msgs, now, false)
  {
    AcceptedFirst(accepts, now, msgs[i..]);
    assert msgs[i..][0] == msgs[i] && msgs[i..][1..] == msgs[i + 1..];
    assert msgs[..i + 1] == msgs[..i] + [msgs[i]];
    Regroup(before, msgs[..i], [msgs[i]]);
  }

  lemma SendingEnds(accepts: Accepts, before: seq<Turns.Down>, msgs: seq<Turns.Down>, now: seq<Turns.Down>)
    requires SendingAt(accepts, before, msgs, now, |msgs|)
    ensures SentUpTo(accepts, before, msgs, now, true)
  {
  }

  lemma RefusedBefore(accepts: Accepts, before: seq<Turns.Down>,
      msgs: seq<Turns.Down>, after: seq<Turns.Down>, x: Turns.Down)
    requires SentUpTo(accepts, before, msgs, after, false)
    ensures SentUpTo(accepts, before, msgs + [x], after, false) && |after| < |before| + |msgs|
  {
    AcceptedSnoc(accepts, before, msgs, x);
    var n := Accepted(accepts, before, msgs);
    assert (msgs + [x])[..n] == msgs[..n];
  }

  lemma OneMore(accepts: Accepts, before: seq<Turns.Down>,
      msgs: seq<Turns.Down>, after: seq<Turns.Down>, x: Turns.Down)
    requires SentUpTo(accepts, before, msgs, after, true)
    ensures after == before + msgs
    ensures SentUpTo(accepts, before, msgs + [x], after + if accepts(after, x) then [x] else [], accepts(after, x))
  {
    AcceptedSnoc(accepts, before, msgs, x);
    assert msgs[..|msgs|] == msgs && (msgs + [x])[..|msgs|] == msgs;
    assert (msgs + [x])[..|msgs| + 1] == msgs + [x] && after + [] == after;
    Regroup(before, msgs, [x]);
  }

  class Service {
    const blobs: Blobs.Store
    const names: seq<string>   // where workspaces are made
    const umask: Mode
    var sessionID: string
    var manifest: Manifest
    var ws: Workspace.Workspace?
    var started: bool          // the agent is set
    var preTurn: Manifest
    var signal: bool           // the one-slot completion channel
    const accepts: Accepts
    var sent: seq<Turns.Down>  // what the notifier has sent

    /** A workspace to diff: well formed, as every materialized one is. */
    ghost predicate Ready()
      reads this, ws
    {
      ws != null && ws.Rooted() && Valid(ws.tree) && "" in ws.tree.dirs
    }

    constructor (blobs: Blobs.Store, names: seq<string>, umask: Mode, accepts: Accepts)
      requires Paths.Normal(names) && names != []
      ensures this.blobs == blobs && this.names == names && this.umask == umask && this.accepts == accepts
      ensures !started && ws == null && !signal && sent == []
    {
      this.blobs, this.names, this.umask, this.accepts := blobs, names, umask, accepts;
      sessionID, manifest, ws, started, preTurn, signal, sent := "", [], null, false, [], false, [];
    }

    method StartSession(m: Manifest) returns (r: Result<seq<string>>)
      modifies this`manifest
      ensures manifest == m && r == Handshake.MissingFrom(m, blobs.dir, {})
    {
      manifest := m;
      var missing: seq<string> := [];
      var seen: set<string> := {};
      PrefixedNone(Handshake.MissingFrom(m, blobs.dir, {}));
      assert m[0..] == m;
      for i := 0 to |m|
        invariant manifest == m
        invariant Prefixed(missing, Handshake.MissingFrom(m[i..], blobs.dir, seen)) ==
          Handshake.MissingFrom(m, blobs.dir, {})
      {
        assert m[i..][0] == m[i] && m[i..][1..] == m[i + 1..];
        if m[i].hash in seen {
          continue;
        }
        var has := blobs.Has(m[i].hash);
        if has.Err? {
          return Err(has.error);
        }
        PrefixedStep(missing, m[i..], blobs.dir, seen);
        seen := seen + {m[i].hash};
        assert missing + [] == missing;
        if !has.value {
          missing := missing + [m[i].hash];
        }
      }
      assert m[|m|..] == [] && missing + [] == missing;
      r := Ok(missing);
    }

    method PutBlob(hash: string, content: Bytes, suffix: string) returns (ok: bool)
      requires Blobs.TempName(suffix) !in blobs.dir
      modifies blobs
      ensures ok <==> Hashing.ValidHash(hash) && Hashing.HashContent(content) == hash
      ensures ok ==> Blobs.Keys(blobs.dir) == old(Blobs.Keys(blobs.dir)) + {hash} && blobs.dir[hash] == content
      ensures !ok ==> blobs.dir == old(blobs.dir)
      ensures Blobs.Extends(old(blobs.dir), blobs.dir)
    {
      ok := blobs.Put(hash, content, suffix);
    }

    /** A started session answers with its id; otherwise a failure leaves id and workspace behind, unstarted. */
    method SyncDone(id: string, agentStarts: bool) returns (r: Result<string>)
      requires Paths.Normal(names) && names != []
      modifies this`sessionID, this`ws, this`started
      ensures old(started) ==> r == Ok(old(sessionID)) && sessionID == old(sessionID) && ws == old(ws) && started
      ensures !old(started) ==>
        && sessionID == id && ws != null && fresh(ws) && ws.Rooted()
        && ws.tree == Workspace.Materialized(Workspace.EMPTY, manifest, blobs.dir, umask).tree
        && (r.Ok? <==> Workspace.Materialized(Workspace.EMPTY, manifest, blobs.dir, umask).ok && agentStarts)
        && (r.Ok? ==> r.value == id) && started == r.Ok?
    {
      if started {
        return Ok(sessionID);
      }
      sessionID := id;
      ws := new Workspace.Workspace(names, umask);
      var made := ws.Materialize(manifest, blobs);
      if !made {
        return Err("materialize");
      }
      if !agentStarts {
        return Err("agent");
      }
      started := true;
      r := Ok(sessionID);
    }

    /** HandlePrompt up to agent.Send: a fresh baseline, and no stale signal. */
    method BeginPrompt() returns (ok: bool)
      requires started ==> Ready()
      modifies this`preTurn, this`signal
      ensures ok == started
      ensures ok ==> preTurn == Walk.SnapshotOf(ws.tree) && !signal
      ensures !ok ==> preTurn == old(preTurn) && signal == old(signal)
    {
      if !started || ws == null {
        return false;
      }
      preTurn := ws.Snapshot();
      signal := false;
      ok := true;
    }

    method Notify(m: Turns.Down) returns (ok: bool)
      modifies this`sent
      ensures ok == accepts(old(sent), m) && sent == old(sent) + if ok then [m] else []
    {
      ok := accepts(sent, m);
      if ok {
        sent := sent + [m];
      } else {
        assert sent + [] == sent;
      }
    }

    method PushChange(ch: FileChange) returns (ok: bool)
      requires Ready() && (ch.op != Delete ==> ch.path in ws.tree.files && Paths.CleanPath(ch.path))
      modifies this`sent
      ensures var m := Turns.Change(Push(ch, Content(ch, ws.tree)));
        ok == accepts(old(sent), m) && sent == old(sent) + if ok then [m] else []
    {
      var content: Bytes := [];
      if ch.op != Delete {
        ReadClean(ws.tree, ch.path);
        var read := ws.ReadFile(ch.path);
        if read.Err? {
          return false;
        }
        content := read.value;
      }
      ok := Notify(Turns.Change(Push(ch, content)));
    }

    method PushChanges(changes: seq<FileChange>) returns (ok: bool)
      requires Ready() && Readable(changes, ws.tree)
      modifies this`sent
      ensures SentUpTo(accepts, old(sent), Wire(Pushes(changes, ws.tree)), sent, ok)
    {
      ghost var msgs := Wire(Pushes(changes, ws.tree));
      SendingStarts(accepts, sent, msgs);
      for i := 0 to |changes|
        invariant SendingAt(accepts, old(sent), msgs, sent, i)
      {
        WireAt(changes, ws.tree, i);
        assert changes[i] in changes;
        SendingNext(accepts, old(sent), msgs, sent, i);
        var pushed := PushChange(changes[i]);
        if !pushed {
          assert sent + [] == sent;
          return false;
        }
      }
      WireLength(changes, ws.tree);
      SendingEnds(accepts, old(sent), msgs, sent);
      ok := true;
    }

    method TakeDiff() returns (after: Manifest, changes: seq<FileChange>)
      requires Ready()
      ensures after == Walk.SnapshotOf(ws.tree) && changes == Diff.Changes(preTurn, after)
      ensures Readable(changes, ws.tree)
    {
      after := ws.Snapshot();
      changes := Diff.Diff(preTurn, after);
      ChangedFilesExist(preTurn, ws.tree);
    }

    /** The diff's changes, up to the first send that fails; the baseline moves if none does. */
    method PushDiff() returns (ok: bool)
      requires Ready()
      modifies this`preTurn, this`sent
      ensures SentUpTo(accepts, old(sent),
        Wire(Pushes(Diff.Changes(old(preTurn), Walk.SnapshotOf(ws.tree)), ws.tree)), sent, ok)
      ensures preTurn == if ok then Walk.SnapshotOf(ws.tree) else old(preTurn)
    {
      var after, changes := TakeDiff();
      ok := PushChanges(changes);
      if ok {
        preTurn := after;
      }
    }

    /**
     The diff against the baseline, pushed in order with the content of the workspace, then the turn's end,
     up to the first send that fails. The baseline moves once all changes are out.
     */
    method FinishTurn() returns (ok: bool)
      requires Ready()
      modifies this`preTurn, this`sent
      ensures SentUpTo(accepts, old(sent), TurnMessages(old(preTurn), ws.tree), sent, ok)
      ensures preTurn ==
        if |sent| >= |old(sent)| + |Diff.Changes(old(preTurn), Walk.SnapshotOf(ws.tree))|
        then Walk.SnapshotOf(ws.tree)
        else old(preTurn)
    {
      ghost var before, changes := sent, Diff.Changes(preTurn, Walk.SnapshotOf(ws.tree));
      ghost var msgs := Wire(Pushes(changes, ws.tree));
      WireLength(changes, ws.tree);
      ok := PushDiff();
      if !ok {
        RefusedBefore(accepts, before, msgs, sent, Turns.TurnDone);
        return;
      }
      OneMore(accepts, before, msgs, sent, Turns.TurnDone);
      ok := Notify(Turns.TurnDone);
    }

    /**
     The pump on one event: forward it, or stop if that fails; on a result finish the turn and, whether that
     succeeded or not, post the signal without blocking.
     */
    method HandleEvent(e: Turns.Event) returns (goesOn: bool, finished: bool)
      requires Ready()
      modifies this`preTurn, this`sent, this`signal
      ensures goesOn == accepts(old(sent), Turns.Stream)
      ensures !goesOn ==> sent == old(sent) && preTurn == old(preTurn) && signal == old(signal)
      ensures goesOn && e.Other? ==>
        sent == old(sent) + [Turns.Stream] && preTurn == old(preTurn) && signal == old(signal)
      ensures goesOn && e.Result? ==>
        var (first, msgs) := (old(sent) + [Turns.Stream], TurnMessages(old(preTurn), ws.tree));
        && SentUpTo(accepts, first, msgs, sent, finished) && signal
        && preTurn ==
             if |sent| >= |first| + |Diff.Changes(old(preTurn), Walk.SnapshotOf(ws.tree))|
             then Walk.SnapshotOf(ws.tree)
             else old(preTurn)
    {
      finished := false;
      goesOn := Notify(Turns.Stream);
      if !goesOn {
        return;
      }
      if e == Turns.Result {
        finished := FinishTurn();
        signal := true;
      }
    }
  }

  function Prefixed(missing: seq<string>, r: Result<seq<string>>): Result<seq<string>> {
    match r
    case Ok(rest) => Ok(missing + rest)
    case Err(e) => Err(e)
  }

  lemma PrefixedNone(r: Result<seq<string>>)
    ensures Prefixed([], r) == r
  {
    if r.Ok? { assert [] + r.value == r.value; }
  }

  /** One round of StartSession's loop on an unseen hash. */
  lemma PrefixedStep(missing: seq<string>, m: Manifest, dir: Blobs.Dir, seen: set<string>)
    requires m != [] && m[0].hash !in seen && Hashing.ValidHash(m[0].hash)
    ensures Prefixed(missing, Handshake.MissingFrom(m, dir, seen)) ==
      Prefixed(missing + if m[0].hash in dir then [] else [m[0].hash],
        Handshake.MissingFrom(m[1..], dir, seen + {m[0].hash}))
  {
    var rest := Handshake.MissingFrom(m[1..], dir, seen + {m[0].hash});
    if rest.Ok? {
      var more := if m[0].hash in dir then [] else [m[0].hash];
      assert missing + (more + rest.value) == (missing + more) + rest.value;
    }
  }

  lemma WireLength(cs: seq<FileChange>, w: Tree)
    ensures |Wire(Pushes(cs, w))| == |cs|
  {
  }

  lemma WireAt(cs: seq<FileChange>, w: Tree, i: nat)
    requires i < |cs|
    ensures |Wire(Pushes(cs, w))| == |cs| && Wire(Pushes(cs, w))[i] == Turns.Change(Push(cs[i], Content(cs[i], w)))
  {
    PushesAt(cs, w, i);
  }

  ghost predicate Readable(cs: seq<FileChange>, w: Tree) {
    forall c :: c in cs && c.op != Delete ==> c.path in w.files && Paths.CleanPath(c.path)
  }

  /** A created or modified path is a file of the workspace, whatever the baseline. */
  lemma ChangedFilesExist(a: Manifest, w: Tree)
    requires Valid(w)
    ensures Readable(Diff.Changes(a, Walk.SnapshotOf(w)), w)
  {
    var b := Walk.SnapshotOf(w);
    Walk.SnapshotIsManifest(w);
    Walk.ManifestIndex(w, Walk.UNLIMITED, b);
    forall c | c in Diff.Changes(a, b) && c.op != Delete ensures c.path in w.files && Paths.CleanPath(c.path) {
      Diff.UpsertPaths(a, b, c);
    }
  }

  // ---- The machine's pump does what the method does ----

  lemma WireFirst(x: Push, ps: seq<Push>)
    ensures Wire([x] + ps) == [Turns.Change(x)] + Wire(ps)
  {
  }

  lemma WireCons(cs: seq<FileChange>, w: Tree, d: seq<Turns.Down>, n: nat)
    requires 0 < n <= |cs|
    ensures d + [Turns.Change(Push(cs[0], Content(cs[0], w)))] + Wire(Pushes(cs[1..], w))[..n - 1] ==
      d + Wire(Pushes(cs, w))[..n]
  {
    var x, rest := Push(cs[0], Content(cs[0], w)), Pushes(cs[1..], w);
    Convergence.PushesCons(cs, w);
    WireFirst(x, rest);
    assert Wire(Pushes(cs, w))[..n] == [Turns.Change(x)] + Wire(rest)[..n - 1];
    Regroup(d, [Turns.Change(x)], Wire(rest)[..n - 1]);
  }

  /** The pump sends the next n changes. */
  lemma SendSome(run: seq<Turns.State>, labels: seq<Turns.Label>, n: nat)
    returns (run': seq<Turns.State>, labels': seq<Turns.Label>)
    requires Turns.Linked(run, labels) && run[|labels|].pump.Sending? && n <= |run[|labels|].pump.rest|
    ensures TurnPaths.Onward(run, labels, run', labels')
    ensures var (s, s') := (run[|labels|], run'[|labels'|]);
      s' == s.(pump := Turns.Sending(s.pump.after, s.pump.rest[n..]),
               down := s.down + Wire(Pushes(s.pump.rest, s.ws))[..n], log := s'.log)
    decreases n
  {
    var s := run[|labels|];
    if n == 0 {
      run', labels' := run, labels;
      assert s.down + Wire(Pushes(s.pump.rest, s.ws))[..0] == s.down && s.pump.rest[0..] == s.pump.rest;
    } else {
      run', labels' := TurnPaths.Extend(run, labels, Turns.PumpSend);
      WireCons(s.pump.rest, s.ws, s.down, n);
      assert s.pump.rest[1..][n - 1..] == s.pump.rest[n..];
      run', labels' := SendSome(run', labels', n - 1);
    }
  }

  ghost predicate FinishedAs(s: Turns.State, s': Turns.State, n: nat)
    requires n <= |TurnMessages(s.preTurn, s.ws)|
  {
    var msgs := TurnMessages(s.preTurn, s.ws);
    && s' == s.(pump := Turns.Signalling, down := s.down + msgs[..n], log := s'.log,
                preTurn := if n >= |msgs| - 1 then Walk.SnapshotOf(s.ws) else s.preTurn)
    && s'.log.phase == if n == |msgs| then Turns.Announced else Turns.NotPushed
  }

  /** The pump diffs and sends the first n changes. */
  lemma DiffAndSend(run: seq<Turns.State>, labels: seq<Turns.Label>, n: nat)
    returns (run': seq<Turns.State>, labels': seq<Turns.Label>)
    requires Turns.Linked(run, labels) && run[|labels|].pump == Turns.Finishing
    requires n <= |Diff.Changes(run[|labels|].preTurn, Walk.SnapshotOf(run[|labels|].ws))|
    ensures TurnPaths.Onward(run, labels, run', labels')
    ensures var (s, s') := (run[|labels|], run'[|labels'|]);
      var (after, cs) := (Walk.SnapshotOf(s.ws), Diff.Changes(s.preTurn, Walk.SnapshotOf(s.ws)));
      s' == s.(pump := Turns.Sending(after, cs[n..]), down := s.down + Wire(Pushes(cs, s.ws))[..n], log := s'.log)
  {
    run', labels' := TurnPaths.Extend(run, labels, Turns.PumpSnapshot);
    run', labels' := SendSome(run', labels', n);
  }

  /**
   The machine's pump can do whatever FinishTurn does, whichever send fails first: with n of the turn's
   messages out, the same are on the wire and the baseline is the same, and the signal comes next.
   */
  lemma PumpIsFinishTurn(run: seq<Turns.State>, labels: seq<Turns.Label>, n: nat)
    returns (run': seq<Turns.State>, labels': seq<Turns.Label>)
    requires Turns.Linked(run, labels) && run[|labels|].pump == Turns.Finishing
    requires n <= |TurnMessages(run[|labels|].preTurn, run[|labels|].ws)|
    ensures TurnPaths.Onward(run, labels, run', labels') && FinishedAs(run[|labels|], run'[|labels'|], n)
  {
    var cs := Diff.Changes(run[|labels|].preTurn, Walk.SnapshotOf(run[|labels|].ws));
    if n < |cs| {
      run', labels' := StopPushing(run, labels, n);
    } else {
      run', labels' := PushAllOf(run, labels, n);
    }
  }

  lemma StopPushing(run: seq<Turns.State>, labels: seq<Turns.Label>, n: nat)
    returns (run': seq<Turns.State>, labels': seq<Turns.Label>)
    requires Turns.Linked(run, labels) && run[|labels|].pump == Turns.Finishing
    requires n < |Diff.Changes(run[|labels|].preTurn, Walk.SnapshotOf(run[|labels|].ws))|
    ensures TurnPaths.Onward(run, labels, run', labels') && FinishedAs(run[|labels|], run'[|labels'|], n)
  {
    var s := run[|labels|];
    var changes := Wire(Pushes(Diff.Changes(s.preTurn, Walk.SnapshotOf(s.ws)), s.ws));
    assert (changes + [Turns.TurnDone])[..n] == changes[..n];
    run', labels' := DiffAndSend(run, labels, n);
    run', labels' := TurnPaths.Extend(run', labels', Turns.PushFails);
  }

  lemma PushAllOf(run: seq<Turns.State>, labels: seq<Turns.Label>, n: nat)
    returns (run': seq<Turns.State>, labels': seq<Turns.Label>)
    requires Turns.Linked(run, labels) && run[|labels|].pump == Turns.Finishing
    requires n <= |TurnMessages(run[|labels|].preTurn, run[|labels|].ws)| <= n + 1
    ensures TurnPaths.Onward(run, labels, run', labels') && FinishedAs(run[|labels|], run'[|labels'|], n)
  {
    var s := run[|labels|];
    var cs := Diff.Changes(s.preTurn, Walk.SnapshotOf(s.ws));
    var changes := Wire(Pushes(cs, s.ws));
    run', labels' := DiffAndSend(run, labels, |cs|);
    run', labels' := TurnPaths.Extend(run', labels', Turns.PumpAdvance);
    Whole(changes, Turns.TurnDone, s.down);
    run', labels' := TurnPaths.Extend(run', labels', if n == |cs| then Turns.DoneFails else Turns.PumpDone);
  }

  lemma Whole(msgs: seq<Turns.Down>, x: Turns.Down, before: seq<Turns.Down>)
    ensures msgs[..|msgs|] == (msgs + [x])[..|msgs|] == msgs
    ensures before + msgs + [x] == before + (msgs + [x])[..|msgs| + 1]
  {
    assert (msgs + [x])[..|msgs| + 1] == msgs + [x];
  }

  // ---- Edits between turns ----

  /**
   A prompt during which the agent changes nothing sends only the turn's end, whatever the baseline was
   before: what was edited in between is never pushed.
   */
  method QuietPrompt(s: Service) returns (ok: bool)
    requires s.started && s.Ready()
    modifies s`preTurn, s`sent, s`signal
    ensures s.sent == old(s.sent) + if ok then [Turns.TurnDone] else []
    ensures ok == s.accepts(old(s.sent), Turns.TurnDone)
  {
    var begun := s.BeginPrompt();
    TurnPaths.NoChanges(s.ws.tree);
    ghost var before := s.sent;
    assert TurnMessages(s.preTurn, s.ws.tree) == [Turns.TurnDone];
    ok := s.FinishTurn();
    OnlyOne(s.accepts, before, s.sent, ok, Turns.TurnDone);
  }

  lemma OnlyOne(accepts: Accepts, before: seq<Turns.Down>, after: seq<Turns.Down>, ok: bool,
      x: Turns.Down)
    requires SentUpTo(accepts, before, [x], after, ok)
    ensures after == before + (if ok then [x] else []) && ok == accepts(before, x)
  {
  }
}
