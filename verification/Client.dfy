/** The client application (internal/core/clientapp/clientapp.go): answering the sync request, and the read loop. */
module Client {
  import opened Prelude
  import opened Domain
  import opened Trees
  import opened LocalFs
  import Convergence
  import Handshake
  import Hashing
  import Paths
  import Turns
  import Walk

  /** The client's content for a hash: the first path with it, read from the tree. */
  function ContentFor(m: Manifest, t: Tree): string -> Option<Bytes> {
    h =>
      var idx := Handshake.FirstByHash(m);
      if h in idx then ReadAt(t, idx[h]) else None
  }

  /** A hash can be answered exactly if the first path with it, among those of the manifest, can be read. */
  lemma ContentForExact(m: Manifest, t: Tree, h: string, c: Bytes)
    ensures ContentFor(m, t)(h) == Some(c) <==>
      exists i: nat :: Handshake.FirstAt(m, h, i) && ReadAt(t, m[i].path) == Some(c)
  {
    Handshake.FirstByHashFirst(m, h);
    Handshake.FirstUnique(m, h);
  }

  /** The blobs uploaded for a request, and whether all could be answered; it stops at the first hash that cannot. */
  function Uploads(missing: seq<string>, content: string -> Option<Bytes>): (seq<Handshake.UpMsg>, bool) {
    if missing == [] then ([], true)
    else
      match content(missing[0])
      case None => ([], false)
      case Some(c) =>
        var (rest, ok) := Uploads(missing[1..], content);
        ([Handshake.Blob(missing[0], c)] + rest, ok)
  }

  /** A client answering for its own tree's manifest answers every hash of it, with content of that hash. */
  lemma {:induction false} HonestUploads(x: Handshake.Session, missing: seq<string>)
    requires Handshake.Honest(x) && forall h :: h in missing ==> h in Hashes(x.manifest)
    ensures var (sent, ok) := Uploads(missing, ContentFor(x.manifest, x.tree));
      && ok && |sent| == |missing|
      && forall i :: 0 <= i < |sent| ==>
           sent[i].Blob? && sent[i].hash == missing[i] && Hashing.HashContent(sent[i].content) == missing[i]
  {
    if missing != [] {
      assert missing[0] in missing;
      HonestRead(x, missing[0]);
      HonestUploads(x, missing[1..]);
    }
  }

  lemma HonestRead(x: Handshake.Session, h: string)
    requires Handshake.Honest(x) && h in Hashes(x.manifest)
    ensures var r := ContentFor(x.manifest, x.tree)(h); r.Some? && Hashing.HashContent(r.value) == h
  {
    Handshake.HonestHashes(x, h);
    var p := Handshake.FirstByHash(x.manifest)[h];
    HonestPath(x, h);
    ReadClean(x.tree, p);
  }

  lemma HonestPath(x: Handshake.Session, h: string)
    requires Handshake.Honest(x) && h in Hashes(x.manifest) && h in Handshake.FirstByHash(x.manifest)
    ensures Paths.CleanPath(Handshake.FirstByHash(x.manifest)[h])
  {
    Handshake.FirstByHashExact(x.manifest);
    var opts :| Walk.ManifestOf(x.tree, opts, x.manifest);
    var e :| e in x.manifest && e.hash == h && e.path == Handshake.FirstByHash(x.manifest)[h];
    assert e in Walk.EntrySet(x.tree, opts);
  }

  /** One blob for each hash, in order, with content of it, then sync_done, after what was sent before. */
  ghost predicate Answered(before: seq<Handshake.UpMsg>, after: seq<Handshake.UpMsg>, missing: seq<string>) {
    var n := |before|;
    && |after| == n + |missing| + 1 && after[..n] == before && after[n + |missing|] == Handshake.SyncDone
    && forall k :: 0 <= k < |missing| ==>
         && after[n + k].Blob? && after[n + k].hash == missing[k]
         && Hashing.HashContent(after[n + k].content) == missing[k]
  }

  /** Whatever a client can answer, it sends the contents in order up to the first hash it cannot answer. */
  lemma {:induction false} UploadsExact(missing: seq<string>, content: string -> Option<Bytes>)
    ensures var (sent, ok) := Uploads(missing, content);
      && |sent| <= |missing| && (ok <==> |sent| == |missing|)
      && (forall i :: 0 <= i < |sent| ==>
            content(missing[i]).Some? && sent[i] == Handshake.Blob(missing[i], content(missing[i]).value))
      && (|sent| < |missing| ==> content(missing[|sent|]).None?)
  {
    if missing != [] && content(missing[0]).Some? {
      UploadsExact(missing[1..], content);
    }
  }

  class App {
    const project: Project
    var sent: seq<Handshake.UpMsg>  // what the transport has been given
    var token: bool                       // the one-slot turn-done channel
    var request: Option<seq<string>>      // the one-slot sync-request channel
    var ready: Option<string>             // the one-slot session-ready channel

    constructor (project: Project)
      ensures this.project == project && sent == [] && !token && request == None && ready == None
    {
      this.project := project;
      sent, token, request, ready := [], false, None, None;
    }

    method UploadOne(ghost manifest: Manifest, byHash: map<string, string>, hash: string) returns (ok: bool)
      requires project.Rooted() && byHash == Handshake.FirstByHash(manifest)
      modifies this`sent
      ensures var c := ContentFor(manifest, project.tree)(hash);
        ok == c.Some? && sent == old(sent) + if ok then [Handshake.Blob(hash, c.value)] else []
    {
      assert sent + [] == sent;
      if hash !in byHash {
        return false;
      }
      var content := project.ReadFile(byHash[hash]);
      if content.Err? {
        return false;
      }
      sent := sent + [Handshake.Blob(hash, content.value)];
      ok := true;
    }

    /** Run's answer to the sync request, then sync_done. */
    method AnswerRequest(manifest: Manifest, missing: seq<string>) returns (ok: bool)
      requires project.Rooted()
      modifies this`sent
      ensures var (blobs, all) := Uploads(missing, ContentFor(manifest, project.tree));
        ok == all && sent == old(sent) + blobs + if all then [Handshake.SyncDone] else []
    {
      var byHash := Handshake.ByHash(manifest);
      ghost var content := ContentFor(manifest, project.tree);
      ghost var all := Uploads(missing, content);
      for i := 0 to |missing|
        invariant var todo := Uploads(missing[i..], content);
          sent + todo.0 == old(sent) + all.0 && todo.1 == all.1
      {
        UploadsFirst(missing[i..], content, sent);
        assert missing[i..][0] == missing[i] && missing[i..][1..] == missing[i + 1..];
        var uploaded := UploadOne(manifest, byHash, missing[i]);
        if !uploaded {
          assert sent + [] == sent;
          return false;
        }
      }
      assert sent + [] == sent;
      sent := sent + [Handshake.SyncDone];
      ok := true;
    }

    /**
     Run from the first messages to sync_done: for an honest client, a request that reaches it is answered with
     exactly one blob for each hash it lists, in order, with content of that hash, then sync_done.
     */
    method AnswerFirst(x: Handshake.Session, msgs: seq<ServerMessage>, ghost i: nat) returns (ok: bool)
      requires project.Rooted() && Handshake.Honest(x) && project.tree == x.tree && request == None && ready == None
      requires FirstRequest(msgs, i) && (forall h :: h in msgs[i].missing ==> h in Hashes(x.manifest))
      requires forall j :: 0 <= j < i ==> !msgs[j].SessionReady?
      requires forall j :: 0 <= j < |msgs| ==> !msgs[j].FileChange?
      modifies this`sent, this`token, this`request, this`ready, project`tree
      ensures ok && request == None
      ensures Answered(old(sent), sent, msgs[i].missing)
    {
      FirstTaken(Inbox(project.tree, request, ready, token), msgs, i);
      var _ := ReadMessages(msgs);
      var missing := request.value;
      request := None;
      HonestUploads(x, missing);
      ok := AnswerRequest(x.manifest, missing);
    }

    /** One message; false if the loop has to wait on a full one-slot channel. */
    method ReadMessage(msg: ServerMessage) returns (goesOn: bool)
      requires project.Rooted()
      modifies this`token, this`request, this`ready, project`tree
      ensures (Inbox(project.tree, request, ready, token), goesOn) ==
        Taken(Inbox(old(project.tree), old(request), old(ready), old(token)), msg)
    {
      goesOn := true;
      match msg
      case SyncRequest(missing) =>
        if request.Some? {
          return false;
        }
        request := Some(missing);
      case SessionReady(id) =>
        if ready.Some? {
          return false;
        }
        ready := Some(id);
      case StreamEvent =>
      case FileChange(p) =>
        var _ := project.Apply(p.change, p.content);
      case TurnDone =>
        token := true;
      case Error =>
      case Unknown =>
    }

    /** readLoop over any messages: an error applying a change is shown, and reading goes on. */
    method ReadMessages(msgs: seq<ServerMessage>) returns (n: nat)
      requires project.Rooted()
      modifies this`token, this`request, this`ready, project`tree
      ensures (Inbox(project.tree, request, ready, token), n) ==
        TakenAll(Inbox(old(project.tree), old(request), old(ready), old(token)), msgs)
    {
      n := 0;
      while n < |msgs|
        invariant n <= |msgs|
        invariant Shifted(TakenAll(Inbox(project.tree, request, ready, token), msgs[n..]), n) ==
          TakenAll(Inbox(old(project.tree), old(request), old(ready), old(token)), msgs)
      {
        TakenFirst(Inbox(project.tree, request, ready, token), msgs[n..], n);
        assert msgs[n..][0] == msgs[n] && msgs[n..][1..] == msgs[n + 1..];
        var goesOn := ReadMessage(msgs[n]);
        if !goesOn {
          return;
        }
        n := n + 1;
      }
    }
  }

  function Shifted(r: (Inbox, nat), n: nat): (Inbox, nat) {
    (r.0, r.1 + n)
  }

  /** A decoded message, by its type; the payloads the loop only shows are left out. */
  datatype ServerMessage =
    | SyncRequest(missing: seq<string>) | SessionReady(id: string)
    | StreamEvent | FileChange(push: Push) | TurnDone | Error | Unknown

  /** What the read loop has changed: the tree, and its three one-slot channels. */
  datatype Inbox = Inbox(tree: Tree, request: Option<seq<string>>, ready: Option<string>, token: bool)

  function Taken(b: Inbox, msg: ServerMessage): (Inbox, bool) {
    match msg
    case SyncRequest(missing) => if b.request.Some? then (b, false) else (b.(request := Some(missing)), true)
    case SessionReady(id) => if b.ready.Some? then (b, false) else (b.(ready := Some(id)), true)
    case FileChange(p) => (b.(tree := ApplyChange(b.tree, p.change, p.content).tree), true)
    case TurnDone => (b.(token := true), true)
    case _ => (b, true)
  }

  /** The state after the messages taken, and how many were. */
  function TakenAll(b: Inbox, msgs: seq<ServerMessage>): (Inbox, nat)
    decreases |msgs|
  {
    if msgs == [] then (b, 0)
    else
      var (c, goesOn) := Taken(b, msgs[0]);
      if !goesOn then (b, 0) else Shifted(TakenAll(c, msgs[1..]), 1)
  }

  /** The changes among some messages, in order. */
  function Changes(msgs: seq<ServerMessage>): seq<Push> {
    if msgs == [] then [] else (if msgs[0].FileChange? then [msgs[0].push] else []) + Changes(msgs[1..])
  }

  predicate Setup(m: ServerMessage) {
    m.SyncRequest? || m.SessionReady?
  }

  /** The i-th message is the first request, or the first notice that the session is ready. */
  ghost predicate FirstRequest(msgs: seq<ServerMessage>, i: nat) {
    i < |msgs| && msgs[i].SyncRequest? && forall j :: 0 <= j < i ==> !msgs[j].SyncRequest?
  }

  ghost predicate FirstReady(msgs: seq<ServerMessage>, i: nat) {
    i < |msgs| && msgs[i].SessionReady? && forall j :: 0 <= j < i ==> !msgs[j].SessionReady?
  }

  lemma FirstOf(msgs: seq<ServerMessage>, n: nat, i: nat)
    requires 0 < n <= |msgs|
    ensures !msgs[0].SyncRequest? ==> (FirstRequest(msgs[..n], i + 1) <==> FirstRequest(msgs[1..][..n - 1], i))
    ensures !msgs[0].SessionReady? ==> (FirstReady(msgs[..n], i + 1) <==> FirstReady(msgs[1..][..n - 1], i))
  {
    var xs, ys := msgs[..n], msgs[1..][..n - 1];
    assert forall j :: 0 <= j < n - 1 ==> ys[j] == xs[j + 1];
    assert forall j :: 1 <= j < n ==> xs[j] == ys[j - 1];
  }

  /**
   The request slot is left with the list of the first request taken, if it was empty, and as it was otherwise, when
   no request is taken at all; the loop takes one at most.
   */
  lemma {:induction false} ReadLoopRequests(b: Inbox, msgs: seq<ServerMessage>)
    ensures var (c, n) := TakenAll(b, msgs);
      && n <= |msgs|
      && (b.request.Some? ==> c.request == b.request && forall i :: 0 <= i < n ==> !msgs[i].SyncRequest?)
      && (b.request.None? && c.request.None? ==> forall i :: 0 <= i < n ==> !msgs[i].SyncRequest?)
      && (b.request.None? && c.request.Some? ==>
            exists i: nat :: FirstRequest(msgs[..n], i) && msgs[i] == SyncRequest(c.request.value))
      && (forall i, j :: 0 <= i < j < n ==> !(msgs[i].SyncRequest? && msgs[j].SyncRequest?))
      && (n < |msgs| && msgs[n].SyncRequest? ==> c.request.Some?)
    decreases |msgs|
  {
    if msgs != [] {
      TakenFirst(b, msgs, 0);
      if Taken(b, msgs[0]).1 {
        var (c, k) := TakenAll(Taken(b, msgs[0]).0, msgs[1..]);
        ReadLoopRequests(Taken(b, msgs[0]).0, msgs[1..]);
        var n := k + 1;
        if b.request.None? && c.request.Some? {
          if msgs[0].SyncRequest? {
            assert FirstRequest(msgs[..n], 0);
          } else {
            var i: nat :| FirstRequest(msgs[1..][..k], i) && msgs[1..][i] == SyncRequest(c.request.value);
            FirstOf(msgs, n, i);
            assert FirstRequest(msgs[..n], i + 1);
          }
        }
        forall i | 0 < i < n ensures msgs[i] == msgs[1..][i - 1] {
        }
      }
    }
  }

  /** With both slots empty and nothing before it to wait for, the loop gets to the first request and keeps its list. */
  lemma FirstTaken(b: Inbox, msgs: seq<ServerMessage>, i: nat)
    requires b.request == None && b.ready == None && FirstRequest(msgs, i)
    requires forall j :: 0 <= j < i ==> !msgs[j].SessionReady?
    requires forall j :: 0 <= j < |msgs| ==> !msgs[j].FileChange?
    ensures var c := TakenAll(b, msgs).0; c.request == Some(msgs[i].missing) && c.tree == b.tree
  {
    var (c, n) := TakenAll(b, msgs);
    ReadLoopRequests(b, msgs);
    ReadLoopSignals(b, msgs);
    ReadLoopReady(b, msgs);
    ReadLoopApplies(b, msgs);
    NoChanges(msgs[..n]);
    if n <= i {
      assert false;
    } else {
      var k: nat :| FirstRequest(msgs[..n], k) && msgs[k] == SyncRequest(c.request.value);
      assert msgs[..n][i] == msgs[i] && msgs[..n][k] == msgs[k];
      assert k == i;
    }
  }

  lemma {:induction false} NoChanges(msgs: seq<ServerMessage>)
    requires forall j :: 0 <= j < |msgs| ==> !msgs[j].FileChange?
    ensures Changes(msgs) == []
  {
    if msgs != [] { NoChanges(msgs[1..]); }
  }

  /** The same of the slot for the session's id. */
  lemma {:induction false} ReadLoopReady(b: Inbox, msgs: seq<ServerMessage>)
    ensures var (c, n) := TakenAll(b, msgs);
      && n <= |msgs|
      && (b.ready.Some? ==> c.ready == b.ready && forall i :: 0 <= i < n ==> !msgs[i].SessionReady?)
      && (b.ready.None? && c.ready.None? ==> forall i :: 0 <= i < n ==> !msgs[i].SessionReady?)
      && (b.ready.None? && c.ready.Some? ==>
            exists i: nat :: FirstReady(msgs[..n], i) && msgs[i] == SessionReady(c.ready.value))
      && (forall i, j :: 0 <= i < j < n ==> !(msgs[i].SessionReady? && msgs[j].SessionReady?))
      && (n < |msgs| && msgs[n].SessionReady? ==> c.ready.Some?)
    decreases |msgs|
  {
    if msgs != [] {
      TakenFirst(b, msgs, 0);
      if Taken(b, msgs[0]).1 {
        var (c, k) := TakenAll(Taken(b, msgs[0]).0, msgs[1..]);
        ReadLoopReady(Taken(b, msgs[0]).0, msgs[1..]);
        var n := k + 1;
        if b.ready.None? && c.ready.Some? {
          if msgs[0].SessionReady? {
            assert FirstReady(msgs[..n], 0);
          } else {
            var i: nat :| FirstReady(msgs[1..][..k], i) && msgs[1..][i] == SessionReady(c.ready.value);
            FirstOf(msgs, n, i);
            assert FirstReady(msgs[..n], i + 1);
          }
        }
        forall i | 0 < i < n ensures msgs[i] == msgs[1..][i - 1] {
        }
      }
    }
  }

  lemma TakenFirst(b: Inbox, msgs: seq<ServerMessage>, k: nat)
    requires msgs != []
    ensures var (c, goesOn) := Taken(b, msgs[0]);
      && (goesOn ==> Shifted(TakenAll(b, msgs), k) == Shifted(TakenAll(c, msgs[1..]), k + 1))
      && (!goesOn ==> c == b && Shifted(TakenAll(b, msgs), k) == (b, k) && Setup(msgs[0]))
  {
  }

  lemma ChangesFirst(msgs: seq<ServerMessage>, n: nat)
    requires 0 < n <= |msgs|
    ensures Changes(msgs[..n]) == (if msgs[0].FileChange? then [msgs[0].push] else []) + Changes(msgs[1..][..n - 1])
  {
    assert msgs[..n][1..] == msgs[1..][..n - 1];
  }

  lemma TakenTree(b: Inbox, msg: ServerMessage, rest: seq<Push>)
    requires Taken(b, msg).1
    ensures ApplyAll(Taken(b, msg).0.tree, rest).tree ==
      ApplyAll(b.tree, (if msg.FileChange? then [msg.push] else []) + rest).tree
  {
    if msg.FileChange? {
      Convergence.ApplyFirst(b.tree, msg.push, rest);
    } else {
      assert [] + rest == rest;
    }
  }

  /** Whatever else arrives with them, and whatever fails to apply, the changes taken are applied in order. */
  lemma {:induction false} ReadLoopApplies(b: Inbox, msgs: seq<ServerMessage>)
    ensures var (c, n) := TakenAll(b, msgs); n <= |msgs| && c.tree == ApplyAll(b.tree, Changes(msgs[..n])).tree
    decreases |msgs|
  {
    if msgs != [] {
      TakenFirst(b, msgs, 0);
      if Taken(b, msgs[0]).1 {
        var c := Taken(b, msgs[0]).0;
        ReadLoopApplies(c, msgs[1..]);
        var n := TakenAll(c, msgs[1..]).1;
        ChangesFirst(msgs, n + 1);
        TakenTree(b, msgs[0], Changes(msgs[1..][..n]));
      }
    }
  }

  /** A token is left exactly by a turn.done; only a handshake message can make the loop wait. */
  lemma {:induction false} ReadLoopSignals(b: Inbox, msgs: seq<ServerMessage>)
    ensures var (c, n) := TakenAll(b, msgs);
      && n <= |msgs| && (c.token <==> b.token || TurnDone in msgs[..n])
      && (n < |msgs| ==> Setup(msgs[n]))
    decreases |msgs|
  {
    if msgs != [] {
      TakenFirst(b, msgs, 0);
      if Taken(b, msgs[0]).1 {
        var c := Taken(b, msgs[0]).0;
        ReadLoopSignals(c, msgs[1..]);
        var n := TakenAll(c, msgs[1..]).1;
        assert msgs[..n + 1] == [msgs[0]] + msgs[1..][..n];
      }
    }
  }

  /** The turn machine's reader takes its messages as the loop does. */
  function Sent(d: Turns.Down): ServerMessage {
    match d
    case Stream => StreamEvent
    case Change(p) => ServerMessage.FileChange(p)
    case TurnDone => TurnDone
  }

  lemma ReadDownIsLoop(s: Turns.State)
    requires s.down != []
    ensures var (b, t) := (Inbox(s.client, None, None, s.token), Turns.ReadDown(s));
      Taken(b, Sent(s.down[0])) == (Inbox(t.client, None, None, t.token), true)
  {
  }

  /** The first upload and the rest, after what has been sent before. */
  lemma UploadsFirst(missing: seq<string>, content: string -> Option<Bytes>, before: seq<Handshake.UpMsg>)
    requires missing != []
    ensures var (all, rest) := (Uploads(missing, content), Uploads(missing[1..], content));
      match content(missing[0])
      case None => all == ([], false)
      case Some(c) => all.1 == rest.1 && before + all.0 == before + [Handshake.Blob(missing[0], c)] + rest.0
  {
    if content(missing[0]).Some? {
      var x := Handshake.Blob(missing[0], content(missing[0]).value);
      var rest := Uploads(missing[1..], content).0;
      assert before + ([x] + rest) == before + [x] + rest;
    }
  }
}
