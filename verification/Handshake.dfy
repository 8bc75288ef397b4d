/**
 The upload handshake of any number of sessions on one blob store. "Missing" is computed hash by hash when
 a session starts and relied on file by file when it ends; in between, and in the middle of both, other
 sessions' puts interleave. Sources: internal/core/app/session.go, internal/core/clientapp/clientapp.go, fsstore.
 */
module Handshake {
  import opened Prelude
  import opened Domain
  import opened Trees
  import opened Hashing
  import opened BlobStore
  import opened JsonSizes
  import Walk
  import LocalFs
  import Paths
  import Workspace

  // ---- What the server asks for, and how the client finds it ----

  /** StartSession's loop: each hash once, in first-occurrence order, if the store lacks it. */
  function MissingFrom(m: Manifest, dir: Dir, seen: set<string>): Result<seq<string>> {
    if m == [] then Ok([])
    else if m[0].hash in seen then MissingFrom(m[1..], dir, seen)
    else if !ValidHash(m[0].hash) then Err("blobstore: invalid hash")
    else
      var rest :- MissingFrom(m[1..], dir, seen + {m[0].hash});
      Ok((if m[0].hash in dir then [] else [m[0].hash]) + rest)
  }

  /** The request fails exactly on an invalid hash; otherwise it lists, once each, the hashes the store lacks. */
  lemma {:induction false} MissingExact(m: Manifest, dir: Dir, seen: set<string>)
    ensures MissingFrom(m, dir, seen).Err? <==> exists e :: e in m && e.hash !in seen && !ValidHash(e.hash)
    ensures MissingFrom(m, dir, seen).Ok? ==>
      var ms := MissingFrom(m, dir, seen).value;
      && (forall h :: h in ms <==> h in Hashes(m) && h !in seen && h !in dir)
      && (forall i, j :: 0 <= i < j < |ms| ==> ms[i] != ms[j])
  {
    if m != [] {
      var h := m[0].hash;
      var seen' := if h in seen then seen else seen + {h};
      MissingExact(m[1..], dir, seen');
      assert m == [m[0]] + m[1..];
      assert Hashes(m) == {h} + Hashes(m[1..]);
    }
  }

  /** `h` is where the manifest has hash `h` for the first time before entry i. */
  ghost predicate FirstAt(m: Manifest, h: string, i: nat) {
    i < |m| && m[i].hash == h && forall j :: 0 <= j < i ==> m[j].hash != h
  }

  lemma FirstUnique(m: Manifest, h: string)
    ensures forall i: nat, j: nat :: FirstAt(m, h, i) && FirstAt(m, h, j) ==> i == j
    ensures forall i: nat :: FirstAt(m, h, i) ==> h in Hashes(m)
  {
    forall i: nat | FirstAt(m, h, i) ensures h in Hashes(m) {
      assert m[i] in m;
    }
  }

  /** The manifest mentions `g` before it mentions `h`. */
  ghost predicate Before(m: Manifest, g: string, h: string) {
    exists i: nat, j: nat :: i < j && FirstAt(m, g, i) && FirstAt(m, h, j)
  }

  /** The hashes are asked for in the order in which the manifest first mentions them. */
  lemma {:induction false} MissingInOrder(m: Manifest, dir: Dir, seen: set<string>, a: nat, b: nat)
    requires MissingFrom(m, dir, seen).Ok? && a < b < |MissingFrom(m, dir, seen).value|
    ensures var ms := MissingFrom(m, dir, seen).value; Before(m, ms[a], ms[b])
  {
    var h := m[0].hash;
    MissingFirst(m, dir, seen);
    if h !in seen && h !in dir {
      if a == 0 {
        var g := MissingFrom(m[1..], dir, seen + {h}).value[b - 1];
        MissingHas(m[1..], dir, seen + {h}, b - 1);
        HeadBefore(m, g);
      } else {
        MissingInOrder(m[1..], dir, seen + {h}, a - 1, b - 1);
        MissingHas(m[1..], dir, seen + {h}, a - 1);
        MissingHas(m[1..], dir, seen + {h}, b - 1);
        LaterInOrder(m, MissingFrom(m, dir, seen).value[a], MissingFrom(m, dir, seen).value[b]);
      }
    } else {
      var seen' := if h in seen then seen else seen + {h};
      MissingInOrder(m[1..], dir, seen', a, b);
      MissingHas(m[1..], dir, seen', a);
      MissingHas(m[1..], dir, seen', b);
      LaterInOrder(m, MissingFrom(m, dir, seen).value[a], MissingFrom(m, dir, seen).value[b]);
    }
  }

  lemma MissingFirst(m: Manifest, dir: Dir, seen: set<string>)
    requires MissingFrom(m, dir, seen).Ok? && m != []
    ensures var (h, ms) := (m[0].hash, MissingFrom(m, dir, seen).value);
      var rest := MissingFrom(m[1..], dir, if h in seen then seen else seen + {h});
      rest.Ok? && ms == (if h !in seen && h !in dir then [h] else []) + rest.value
  {
    var h := m[0].hash;
    var rest := MissingFrom(m[1..], dir, if h in seen then seen else seen + {h});
    assert rest.Ok? ==> [] + rest.value == rest.value;
  }

  lemma MissingHas(m: Manifest, dir: Dir, seen: set<string>, k: nat)
    requires MissingFrom(m, dir, seen).Ok? && k < |MissingFrom(m, dir, seen).value|
    ensures var h := MissingFrom(m, dir, seen).value[k]; h in Hashes(m) && h !in seen && h !in dir
  {
    MissingExact(m, dir, seen);
    assert MissingFrom(m, dir, seen).value[k] in MissingFrom(m, dir, seen).value;
  }

  lemma HeadBefore(m: Manifest, g: string)
    requires m != [] && g != m[0].hash && g in Hashes(m[1..])
    ensures Before(m, m[0].hash, g)
  {
    assert m == [m[0]] + m[1..];
    assert Hashes(m) == {m[0].hash} + Hashes(m[1..]);
    var j := FirstAfter(m, g);
    assert FirstAt(m, m[0].hash, 0) && FirstAt(m, g, j);
  }

  /** The first place of a hash that the head of the manifest does not have. */
  lemma {:induction false} FirstAfter(m: Manifest, h: string) returns (j: nat)
    requires m != [] && m[0].hash != h && h in Hashes(m)
    ensures j > 0 && FirstAt(m, h, j)
  {
    j := 1;
    assert forall e :: e in m && e.hash == h ==> exists i :: 0 <= i < |m| && m[i] == e;
    while m[j].hash != h
      invariant 0 < j < |m| && forall i :: 0 <= i < j ==> m[i].hash != h
      decreases |m| - j
    {
      j := j + 1;
    }
  }

  lemma LaterInOrder(m: Manifest, g: string, h: string)
    requires m != [] && m[0].hash != g && m[0].hash != h
    requires Before(m[1..], g, h)
    ensures Before(m, g, h)
  {
    var i: nat, j: nat :| i < j && FirstAt(m[1..], g, i) && FirstAt(m[1..], h, j);
    LaterFirst(m, g, i);
    LaterFirst(m, h, j);
    assert FirstAt(m, g, i + 1) && FirstAt(m, h, j + 1);
  }

  lemma LaterFirst(m: Manifest, h: string, i: nat)
    requires m != [] && m[0].hash != h && FirstAt(m[1..], h, i)
    ensures FirstAt(m, h, i + 1)
  {
    forall j | 0 <= j < i + 1 ensures m[j].hash != h {
      if j > 0 { assert m[j] == m[1..][j - 1]; }
    }
  }

  /** The first path with each hash. */
  function FirstByHash(m: Manifest): map<string, string> {
    if m == [] then map[]
    else
      var idx, e := FirstByHash(m[..|m| - 1]), m[|m| - 1];
      if e.hash in idx then idx else idx[e.hash := e.path]
  }

  method ByHash(m: Manifest) returns (idx: map<string, string>)
    ensures idx == FirstByHash(m)
  {
    idx := map[];
    for i := 0 to |m|
      invariant idx == FirstByHash(m[..i])
    {
      assert m[..i + 1][..i] == m[..i];
      if m[i].hash !in idx {
        idx := idx[m[i].hash := m[i].path];
      }
    }
    assert m[..|m|] == m;
  }

  /** The client's index knows exactly the manifest's hashes, each under the first path that has it. */
  lemma {:induction false} FirstByHashFirst(m: Manifest, h: string)
    ensures h in FirstByHash(m) <==> h in Hashes(m)
    ensures h in FirstByHash(m) ==> exists i: nat :: FirstAt(m, h, i) && m[i].path == FirstByHash(m)[h]
  {
    if m != [] {
      var n := |m| - 1;
      FirstByHashFirst(m[..n], h);
      assert m == m[..n] + [m[n]];
      assert Hashes(m) == Hashes(m[..n]) + {m[n].hash};
      if h in FirstByHash(m[..n]) {
        var i: nat :| FirstAt(m[..n], h, i) && m[..n][i].path == FirstByHash(m[..n])[h];
        assert FirstAt(m, h, i);
      } else if h == m[n].hash {
        forall j | 0 <= j < n ensures m[j].hash != h {
          assert m[j] in m[..n];
        }
        assert FirstAt(m, h, n);
      }
    }
  }

  /** The client's index knows exactly the manifest's hashes, each under a path that has it. */
  lemma {:induction false} FirstByHashExact(m: Manifest)
    ensures FirstByHash(m).Keys == Hashes(m)
    ensures forall h :: h in FirstByHash(m) ==> exists e :: e in m && e.hash == h && e.path == FirstByHash(m)[h]
  {
    if m != [] {
      var n := |m| - 1;
      FirstByHashExact(m[..n]);
      assert m == m[..n] + [m[n]];
      assert Hashes(m) == Hashes(m[..n]) + {m[n].hash};
      forall h | h in FirstByHash(m) ensures exists e :: e in m && e.hash == h && e.path == FirstByHash(m)[h] {
        if h in FirstByHash(m[..n]) {
          var e :| e in m[..n] && e.hash == h && e.path == FirstByHash(m[..n])[h];
          assert e in m;
        } else {
          assert m[n] in m;
        }
      }
    }
  }

  // ---- The machine ----

  /** `Refused`: session.start did not fit a record and was not sent. `Stopped`: a hash or file was missing. */
  datatype ClientPc = Starting | Refused | AwaitRequest | Uploading(missing: seq<string>) | AwaitReady | Stopped

  datatype UpMsg = Start(manifest: Manifest) | Blob(hash: string, content: Bytes) | SyncDone

  /** Between messages; in StartSession's loop; in a put of the store; or in Materialize's loop. */
  datatype ServerPc =
    | Reading
    | Asking(k: nat, missing: seq<string>, seen: set<string>)
    | Putting(put: nat)
    | Materializing(k: nat, partial: Tree)

  /** One session: `tree`, `project`, `manifest` are the client's and do not change; `up`, `request` are in flight. */
  datatype Session = Session(
    tree: Tree, project: string, manifest: Manifest, client: ClientPc, up: seq<UpMsg>, request: Option<seq<string>>,
    server: ServerPc, received: Option<Manifest>, ws: Option<Tree>, failed: bool)

  datatype State = State(store: Puts, umask: Mode, sessions: seq<Session>)

  datatype Act =
    | ClientStart | ServerStart | Ask | Asked | ClientRequest | ClientUpload | ClientDone
    | ServerPut | PutDone | ServerSync | WriteFile | Synced

  /** A step of one session, or a step of some put: of a session's, or of a connection outside the model. */
  datatype Label = Of(i: nat, act: Act) | Store(step: PutStep)

  function Received(x: Session): Manifest {
    if x.received.Some? then x.received.value else []
  }

  predicate ActEnabled(x: Session, store: Puts, act: Act) {
    && !x.failed
    && match act
       case ClientStart => x.client == Starting
       case ServerStart => x.server == Reading && x.up != [] && x.up[0].Start?
       case Ask => x.server.Asking? && x.server.k < |Received(x)|
       case Asked => x.server.Asking? && x.server.k >= |Received(x)|
       case ClientRequest => x.client == AwaitRequest && x.request.Some?
       case ClientUpload => x.client.Uploading? && x.client.missing != []
       case ClientDone => x.client == Uploading([])
       case ServerPut => x.server == Reading && x.up != [] && x.up[0].Blob?
       case PutDone =>
         && x.server.Putting? && x.server.put < |store.puts| && x.up != []
         && (store.puts[x.server.put].pc.Finished? || store.puts[x.server.put].pc.Rejected?)
       case ServerSync => x.server == Reading && x.up != [] && x.up[0].SyncDone?
       case WriteFile => x.server.Materializing? && x.server.k < |Received(x)|
       case Synced => x.server.Materializing? && x.server.k >= |Received(x)| && x.up != []
  }

  /** Temporary names are not shared between unfinished puts. */
  predicate Enabled(s: State, l: Label) {
    match l
    case Of(i, act) => i < |s.sessions| && ActEnabled(s.sessions[i], s.store, act)
    case Store(step) => PutEnabled(s.store, step) && Unshared(s.store, step)
  }

  /** The client's upload of the first missing hash; it stops on a hash or file it does not have. */
  function Upload(x: Session): Session
    requires x.client.Uploading? && x.client.missing != []
  {
    var h, idx := x.client.missing[0], FirstByHash(x.manifest);
    if h !in idx || idx[h] !in x.tree.files then x.(client := Stopped, failed := true)
    else x.(client := Uploading(x.client.missing[1..]), up := x.up + [Blob(h, x.tree.files[idx[h]].content)])
  }

  /** One round of StartSession's loop. */
  function AskOne(x: Session, dir: Dir): Session
    requires x.server.Asking? && x.server.k < |Received(x)|
  {
    var h := Received(x)[x.server.k].hash;
    if h in x.server.seen then x.(server := Asking(x.server.k + 1, x.server.missing, x.server.seen))
    else if !ValidHash(h) then x.(failed := true)
    else
      x.(server := Asking(x.server.k + 1, x.server.missing + if h in dir then [] else [h], x.server.seen + {h}))
  }

  /** One round of Materialize's loop. */
  function WriteOne(x: Session, dir: Dir, umask: Mode): Session
    requires x.server.Materializing? && x.server.k < |Received(x)|
  {
    var r := Workspace.WriteEntry(x.server.partial, Received(x)[x.server.k], dir, umask);
    if r.ok then x.(server := Materializing(x.server.k + 1, r.tree)) else x.(failed := true)
  }

  function DoAct(x: Session, store: Puts, umask: Mode, act: Act): Session
    requires ActEnabled(x, store, act)
  {
    match act
    case ClientStart =>
      if StartFits(x.project, x.manifest) then x.(client := AwaitRequest, up := x.up + [Start(x.manifest)])
      else x.(client := Refused, failed := true)
    case ServerStart => x.(up := x.up[1..], received := Some(x.up[0].manifest), server := Asking(0, [], {}))
    case Ask => AskOne(x, store.dir)
    case Asked =>
      if RequestFits(x.server.missing) then x.(request := Some(x.server.missing), server := Reading)
      else x.(failed := true)
    case ClientRequest => x.(client := Uploading(x.request.value), request := None)
    case ClientUpload => Upload(x)
    case ClientDone => x.(client := AwaitReady, up := x.up + [SyncDone])
    case ServerPut => x.(server := Putting(|store.puts|))
    case PutDone =>
      var pc := store.puts[x.server.put].pc;
      if pc.Finished? && pc.ok then x.(server := Reading, up := x.up[1..]) else x.(failed := true)
    case ServerSync => x.(server := Materializing(0, Workspace.EMPTY))
    case WriteFile => WriteOne(x, store.dir, umask)
    case Synced => x.(server := Reading, up := x.up[1..], ws := Some(x.server.partial))
  }

  function Step(s: State, l: Label): State
    requires Enabled(s, l)
  {
    match l
    case Of(i, act) =>
      var x := s.sessions[i];
      State(if act == ServerPut then DoPut(s.store, Begin(x.up[0].hash, x.up[0].content)) else s.store,
        s.umask, s.sessions[i := DoAct(x, s.store, s.umask, act)])
    case Store(step) => s.(store := DoPut(s.store, step))
  }

  /**
   Whatever the client and the other sessions are, a step ends its session exactly when: session.start or the
   request does not fit, a hash is not a legal one, the client has no readable file for a hash, the put did not
   succeed, or an entry cannot be written.
   */
  lemma FailsExactly(x: Session, store: Puts, umask: Mode, act: Act)
    requires ActEnabled(x, store, act)
    ensures DoAct(x, store, umask, act).failed <==>
      match act
      case ClientStart => Utf8Length(StartText(x.project, x.manifest)) > 65518
      case Ask => var h := Received(x)[x.server.k].hash; h !in x.server.seen && !ValidHash(h)
      case Asked => Utf8Length(RequestText(x.server.missing)) > 65518
      case ClientUpload =>
        !exists i: nat :: FirstAt(x.manifest, x.client.missing[0], i) && x.manifest[i].path in x.tree.files
      case PutDone => store.puts[x.server.put].pc != Finished(true)
      case WriteFile =>
        !Workspace.WriteEntry(x.server.partial, Received(x)[x.server.k], store.dir, umask).ok
      case _ => false
  {
    match act {
      case ClientStart => StartSizeExact(x.project, x.manifest);
      case Asked => RequestSizeExact(x.server.missing);
      case ClientUpload => UploadFails(x);
      case _ =>
    }
  }

  lemma UploadFails(x: Session)
    requires x.client.Uploading? && x.client.missing != [] && !x.failed
    ensures Upload(x).failed <==>
      !exists i: nat :: FirstAt(x.manifest, x.client.missing[0], i) && x.manifest[i].path in x.tree.files
  {
    var m, h := x.manifest, x.client.missing[0];
    FirstByHashFirst(m, h);
    FirstUnique(m, h);
  }

  /** A client whose project tree is well formed and whose manifest is the walk of it. */
  ghost predicate Honest(x: Session) {
    Valid(x.tree) && exists opts :: Walk.ManifestOf(x.tree, opts, x.manifest)
  }

  ghost predicate Initial(s: State) {
    && Addressed(s.store.dir) && s.store.puts == []
    && forall i :: 0 <= i < |s.sessions| ==>
         && Honest(s.sessions[i])
         && s.sessions[i] == Session(s.sessions[i].tree, s.sessions[i].project, s.sessions[i].manifest,
              Starting, [], None, Reading, None, None, false)
  }

  ghost predicate RunsAt(run: seq<State>, labels: seq<Label>, k: nat)
    requires k < |labels| < |run|
  {
    Enabled(run[k], labels[k]) && run[k + 1] == Step(run[k], labels[k])
  }

  ghost predicate Linked(run: seq<State>, labels: seq<Label>) {
    |run| == |labels| + 1 && forall k :: 0 <= k < |labels| ==> RunsAt(run, labels, k)
  }

  ghost predicate IsRun(run: seq<State>, labels: seq<Label>) {
    Linked(run, labels) && Initial(run[0])
  }

  // ---- The invariant ----

  ghost predicate GoodBlob(m: UpMsg) {
    m.Blob? && ValidHash(m.hash) && HashContent(m.content) == m.hash
  }

  ghost predicate Blobs(up: seq<UpMsg>) {
    forall k :: 0 <= k < |up| ==> GoodBlob(up[k])
  }

  ghost function Sent(up: seq<UpMsg>): set<string> {
    set m | m in up && m.Blob? :: m.hash
  }

  predicate Like(f: File, e: FileEntry, umask: Mode) {
    HashContent(f.content) == e.hash && f.mode == EffectiveMode(e.mode) & !umask
  }

  ghost predicate HoldsHashes(files: map<string, File>, idx: map<string, FileEntry>, umask: Mode) {
    files.Keys == idx.Keys && forall p :: p in idx ==> Like(files[p], idx[p], umask)
  }

  /** A workspace made from a manifest: its paths, content of its hashes, its modes under the umask. */
  ghost predicate Faithful(ws: Tree, m: Manifest, umask: Mode) {
    Valid(ws) && "" in ws.dirs && HoldsHashes(ws.files, Index(m), umask)
  }

  /** Faithful to an index, and with no other directories than its paths need. */
  ghost predicate Partly(ws: Tree, idx: map<string, FileEntry>, umask: Mode) {
    Valid(ws) && Workspace.NeededDirs(ws.dirs, idx.Keys) && HoldsHashes(ws.files, idx, umask)
  }

  predicate Fits(x: Session) {
    StartFits(x.project, x.manifest)
  }

  /** Every hash the client's manifest mentions is stored, on its way, or still to be uploaded. */
  ghost predicate Provided(x: Session, keys: set<string>, more: set<string>) {
    Hashes(x.manifest) <= keys + Sent(x.up) + more
  }

  ghost predicate Uploads(x: Session, keys: set<string>, missing: seq<string>) {
    && x.received == Some(x.manifest) && x.ws == None
    && (forall h :: h in missing ==> h in Hashes(x.manifest))
    && Blobs(x.up) && Provided(x, keys, set h | h in missing)
  }

  /** The hashes of the entries asked about so far are stored or listed as missing. */
  ghost predicate AskInv(m: Manifest, k: nat, missing: seq<string>, seen: set<string>, keys: set<string>) {
    && k <= |m| && seen == Hashes(m[..k]) && Distinct(missing)
    && (forall h :: h in missing ==> h in seen)
    && (forall h :: h in seen ==> h in keys || h in missing)
  }

  ghost predicate PhaseInv(x: Session, keys: set<string>, umask: Mode) {
    match x.client
    case Starting => x.up == [] && x.request == None && x.server == Reading && x.ws == None
    case Refused => false
    case AwaitRequest =>
      && Fits(x) && x.ws == None
      && (if x.request.Some? then x.server == Reading && x.up == [] && Uploads(x, keys, x.request.value)
          else if x.server.Asking? then
            && x.up == [] && x.received == Some(x.manifest)
            && AskInv(x.manifest, x.server.k, x.server.missing, x.server.seen, keys)
          else x.server == Reading && x.up == [Start(x.manifest)])
    case Uploading(missing) =>
      Fits(x) && x.request == None && (x.server == Reading || x.server.Putting?) && Uploads(x, keys, missing)
    case AwaitReady =>
      && Fits(x) && x.request == None && x.received == Some(x.manifest)
      && (if x.up == [] then x.server == Reading && x.ws.Some? && Faithful(x.ws.value, x.manifest, umask)
          else
            && x.ws == None && !x.server.Asking? && x.up[|x.up| - 1] == SyncDone && Blobs(x.up[..|x.up| - 1])
            && Provided(x, keys, {}))
    case Stopped => false
  }

  ghost predicate ServerInv(x: Session, puts: seq<Put>, umask: Mode) {
    match x.server
    case Putting(k) =>
      && x.up != [] && GoodBlob(x.up[0])
      && k < |puts| && puts[k].hash == x.up[0].hash && puts[k].content == x.up[0].content
    case Materializing(k, partial) =>
      && x.client == AwaitReady && x.up == [SyncDone]
      && k <= |x.manifest| && Partly(partial, Index(x.manifest[..k]), umask)
    case _ => true
  }

  /** A session turned away at its start: nothing of it has reached the server. */
  ghost predicate TurnedAway(x: Session) {
    && x.client == Refused && x.failed && !Fits(x)
    && x.up == [] && x.request == None && x.server == Reading && x.ws == None
  }

  ghost predicate SessionInv(x: Session, store: Puts, umask: Mode) {
    && Honest(x)
    && (TurnedAway(x)
        || (!x.failed && PhaseInv(x, Keys(store.dir), umask) && ServerInv(x, store.puts, umask)))
  }

  ghost predicate Inv(s: State) {
    && PutsInv(s.store)
    && forall i :: 0 <= i < |s.sessions| ==> SessionInv(s.sessions[i], s.store, s.umask)
  }

  /** Puts only get further. */
  ghost predicate PutsGrow(puts: seq<Put>, puts': seq<Put>) {
    && |puts| <= |puts'|
    && forall k :: 0 <= k < |puts| ==> puts'[k].hash == puts[k].hash && puts'[k].content == puts[k].content
  }

  lemma PhaseGrows(x: Session, keys: set<string>, keys': set<string>, umask: Mode)
    requires PhaseInv(x, keys, umask) && keys <= keys'
    ensures PhaseInv(x, keys', umask)
  {
  }

  lemma ServerGrows(x: Session, puts: seq<Put>, puts': seq<Put>, umask: Mode)
    requires ServerInv(x, puts, umask) && PutsGrow(puts, puts')
    ensures ServerInv(x, puts', umask)
  {
  }

  /** The store growing under a session does it no harm. */
  lemma StoreGrows(x: Session, store: Puts, store': Puts, umask: Mode)
    requires SessionInv(x, store, umask) && Keys(store.dir) <= Keys(store'.dir) && PutsGrow(store.puts, store'.puts)
    ensures SessionInv(x, store', umask)
  {
    if !TurnedAway(x) {
      PhaseGrows(x, Keys(store.dir), Keys(store'.dir), umask);
      ServerGrows(x, store.puts, store'.puts, umask);
    }
  }

  // ---- Each step of one session ----

  lemma HonestHashes(x: Session, h: string)
    requires Honest(x) && h in Hashes(x.manifest)
    ensures ValidHash(h) && h in FirstByHash(x.manifest)
    ensures var p := FirstByHash(x.manifest)[h]; p in x.tree.files && HashContent(x.tree.files[p].content) == h
  {
    FirstByHashExact(x.manifest);
    var opts :| Walk.ManifestOf(x.tree, opts, x.manifest);
    var e :| e in x.manifest && e.hash == h && e.path == FirstByHash(x.manifest)[h];
    assert e in Walk.EntrySet(x.tree, opts);
    HashValid(x.tree.files[e.path].content, []);
  }

  lemma HonestConsistent(x: Session)
    requires Honest(x)
    ensures LocalFs.Consistent(x.manifest)
  {
    var opts :| Walk.ManifestOf(x.tree, opts, x.manifest);
    Workspace.ManifestConsistent(x.tree, opts, x.manifest);
  }

  lemma PrefixHashes(m: Manifest, k: nat)
    requires k < |m|
    ensures Hashes(m[..k + 1]) == Hashes(m[..k]) + {m[k].hash} && m[k].hash in Hashes(m)
  {
    assert m[..k + 1] == m[..k] + [m[k]];
    assert m[k] in m;
  }

  lemma AskNext(m: Manifest, k: nat, missing: seq<string>, seen: set<string>, keys: set<string>)
    requires AskInv(m, k, missing, seen, keys) && k < |m|
    ensures var h := m[k].hash;
      if h in seen then AskInv(m, k + 1, missing, seen, keys)
      else AskInv(m, k + 1, missing + if h in keys then [] else [h], seen + {h}, keys)
  {
    PrefixHashes(m, k);
    var h := m[k].hash;
    var more := missing + if h in keys then [] else [h];
    if h in seen {
      assert seen + {h} == seen;
    } else {
      assert h !in missing;
      forall g | g in seen + {h} ensures g in keys || g in more {
      }
    }
  }

  lemma AskStep(x: Session, store: Puts, umask: Mode)
    requires SessionInv(x, store, umask) && ActEnabled(x, store, Ask)
    ensures SessionInv(DoAct(x, store, umask, Ask), store, umask)
  {
    var m, pc := x.manifest, x.server;
    PrefixHashes(m, pc.k);
    HonestHashes(x, m[pc.k].hash);
    AskNext(m, pc.k, pc.missing, pc.seen, Keys(store.dir));
    assert m[pc.k].hash in store.dir <==> m[pc.k].hash in Keys(store.dir);
  }

  lemma AskedStep(x: Session, store: Puts, umask: Mode)
    requires SessionInv(x, store, umask) && ActEnabled(x, store, Asked)
    ensures SessionInv(DoAct(x, store, umask, Asked), store, umask)
  {
    assert x.manifest[..|x.manifest|] == x.manifest;
    RequestAnswersFit(x.project, x.manifest, x.server.missing);
  }

  lemma ClientStartStep(x: Session, store: Puts, umask: Mode)
    requires SessionInv(x, store, umask) && ActEnabled(x, store, ClientStart)
    ensures SessionInv(DoAct(x, store, umask, ClientStart), store, umask)
  {
  }

  lemma ServerStartStep(x: Session, store: Puts, umask: Mode)
    requires SessionInv(x, store, umask) && ActEnabled(x, store, ServerStart)
    ensures SessionInv(DoAct(x, store, umask, ServerStart), store, umask)
  {
    assert x.manifest[..0] == [];
  }

  lemma RequestStep(x: Session, store: Puts, umask: Mode)
    requires SessionInv(x, store, umask) && ActEnabled(x, store, ClientRequest)
    ensures SessionInv(DoAct(x, store, umask, ClientRequest), store, umask)
  {
  }

  lemma UploadPhase(x: Session, keys: set<string>, umask: Mode, b: UpMsg)
    requires PhaseInv(x, keys, umask) && x.client.Uploading? && x.client.missing != []
    requires GoodBlob(b) && b.hash == x.client.missing[0]
    ensures PhaseInv(x.(client := Uploading(x.client.missing[1..]), up := x.up + [b]), keys, umask)
  {
    SentSnoc(x.up, b);
    HeadTail(x.client.missing);
  }

  lemma UploadServer(x: Session, puts: seq<Put>, umask: Mode, client: ClientPc, m: UpMsg)
    requires ServerInv(x, puts, umask) && !x.server.Materializing?
    ensures ServerInv(x.(client := client, up := x.up + [m]), puts, umask)
  {
  }

  lemma UploadStep(x: Session, store: Puts, umask: Mode)
    requires SessionInv(x, store, umask) && ActEnabled(x, store, ClientUpload)
    ensures SessionInv(DoAct(x, store, umask, ClientUpload), store, umask)
  {
    var ms := x.client.missing;
    assert ms[0] in ms;
    HonestHashes(x, ms[0]);
    var b := Blob(ms[0], x.tree.files[FirstByHash(x.manifest)[ms[0]]].content);
    UploadPhase(x, Keys(store.dir), umask, b);
    UploadServer(x, store.puts, umask, Uploading(ms[1..]), b);
  }

  lemma SentSnoc(up: seq<UpMsg>, b: UpMsg)
    requires Blobs(up) && GoodBlob(b)
    ensures Blobs(up + [b]) && Sent(up + [b]) == Sent(up) + {b.hash}
  {
  }

  lemma HeadTail(hs: seq<string>)
    requires hs != []
    ensures (set h | h in hs) == {hs[0]} + set h | h in hs[1..]
    ensures forall h :: h in hs[1..] ==> h in hs
  {
    assert hs == [hs[0]] + hs[1..];
  }

  lemma SentTail(up: seq<UpMsg>)
    requires up != [] && up[0].Blob?
    ensures Sent(up) == {up[0].hash} + Sent(up[1..])
  {
    assert up == [up[0]] + up[1..];
  }

  lemma DonePhase(x: Session, keys: set<string>, umask: Mode)
    requires PhaseInv(x, keys, umask) && x.client == Uploading([])
    ensures PhaseInv(x.(client := AwaitReady, up := x.up + [SyncDone]), keys, umask)
  {
    var up := x.up + [SyncDone];
    assert up[..|up| - 1] == x.up;
    assert Sent(up) == Sent(x.up);
    assert (set h | h in x.client.missing) == {};
  }

  lemma DoneStep(x: Session, store: Puts, umask: Mode)
    requires SessionInv(x, store, umask) && ActEnabled(x, store, ClientDone)
    ensures SessionInv(DoAct(x, store, umask, ClientDone), store, umask)
  {
    DonePhase(x, Keys(store.dir), umask);
    UploadServer(x, store.puts, umask, AwaitReady, SyncDone);
  }

  lemma BlobsPrefix(up: seq<UpMsg>, n: nat)
    requires n <= |up| && Blobs(up[..n])
    ensures forall k :: 0 <= k < n ==> GoodBlob(up[k])
  {
    forall k | 0 <= k < n ensures GoodBlob(up[k]) {
      assert up[..n][k] == up[k];
    }
  }

  /** A blob at the head of the uplink is a good one. */
  lemma HeadBlob(x: Session, keys: set<string>, umask: Mode)
    requires PhaseInv(x, keys, umask) && x.up != [] && x.up[0].Blob?
    ensures GoodBlob(x.up[0]) && (x.client.Uploading? || (x.client == AwaitReady && |x.up| > 1))
  {
    if x.client == AwaitReady {
      BlobsPrefix(x.up, |x.up| - 1);
    }
  }

  /** A put is begun for the blob at the head of the uplink. */
  lemma PutBegun(x: Session, store: Puts, umask: Mode)
    requires SessionInv(x, store, umask) && ActEnabled(x, store, ServerPut)
    ensures SessionInv(DoAct(x, store, umask, ServerPut), DoPut(store, Begin(x.up[0].hash, x.up[0].content)), umask)
  {
    HeadBlob(x, Keys(store.dir), umask);
  }

  lemma PutDonePhase(x: Session, keys: set<string>, umask: Mode)
    requires PhaseInv(x, keys, umask) && x.up != [] && x.up[0].Blob? && x.up[0].hash in keys
    ensures PhaseInv(x.(server := Reading, up := x.up[1..]), keys, umask)
  {
    HeadBlob(x, keys, umask);
    SentTail(x.up);
    if x.client == AwaitReady {
      var up' := x.up[1..];
      assert up'[..|up'| - 1] == x.up[..|x.up| - 1][1..];
    }
  }

  /** The put of an honest client's blob cannot have failed. */
  lemma PutDoneStep(x: Session, store: Puts, umask: Mode)
    requires SessionInv(x, store, umask) && PutsInv(store) && ActEnabled(x, store, PutDone)
    ensures SessionInv(DoAct(x, store, umask, PutDone), store, umask)
  {
    PutIsDone(x, store, umask);
    PutDonePhase(x, Keys(store.dir), umask);
  }

  lemma PutIsDone(x: Session, store: Puts, umask: Mode)
    requires ServerInv(x, store.puts, umask) && PutsInv(store) && ActEnabled(x, store, PutDone)
    ensures store.puts[x.server.put].pc == Finished(true) && x.up[0].hash in Keys(store.dir)
  {
    assert PutInv(store.puts[x.server.put], store.dir);
  }

  /** When SyncDone is read, nothing is left in flight: every hash is in the store. */
  lemma AllStored(x: Session, keys: set<string>, umask: Mode)
    requires PhaseInv(x, keys, umask) && x.up != [] && x.up[0].SyncDone?
    ensures x.client == AwaitReady && x.up == [SyncDone] && x.received == Some(x.manifest)
    ensures Hashes(x.manifest) <= keys
  {
    if x.client == AwaitReady {
      BlobsPrefix(x.up, |x.up| - 1);
    }
    assert Sent(x.up) == {};
  }

  lemma EmptyPartly(umask: Mode)
    ensures Partly(Workspace.EMPTY, map[], umask)
  {
  }

  lemma SyncStep(x: Session, store: Puts, umask: Mode)
    requires SessionInv(x, store, umask) && ActEnabled(x, store, ServerSync)
    ensures SessionInv(DoAct(x, store, umask, ServerSync), store, umask)
  {
    AllStored(x, Keys(store.dir), umask);
    EmptyPartly(umask);
    assert Index(x.manifest[..0]) == map[];
  }

  lemma PointwiseNext(files: map<string, File>, idx: map<string, FileEntry>, like: (File, FileEntry) -> bool,
      f: File, e: FileEntry, files': map<string, File>, idx': map<string, FileEntry>)
    requires files.Keys == idx.Keys && (forall p :: p in idx ==> like(files[p], idx[p])) && like(f, e)
    requires files' == files[e.path := f] && idx' == idx[e.path := e]
    ensures files'.Keys == idx'.Keys && forall p :: p in idx' ==> like(files'[p], idx'[p])
  {
  }

  lemma HashesNext(files: map<string, File>, idx: map<string, FileEntry>, e: FileEntry, f: File, umask: Mode)
    requires HoldsHashes(files, idx, umask) && Like(f, e, umask)
    ensures HoldsHashes(files[e.path := f], idx[e.path := e], umask)
  {
    PointwiseNext(files, idx, (g, d) => Like(g, d, umask), f, e, files[e.path := f], idx[e.path := e]);
  }

  /** One file of a consistent manifest is written without fail, whatever the store holds besides. */
  lemma PartlyNext(t: Tree, m: Manifest, k: nat, dir: Dir, umask: Mode)
    requires LocalFs.Consistent(m) && k < |m| && Partly(t, Index(m[..k]), umask)
    requires m[k].hash in Keys(dir) && Addressed(dir)
    ensures var r := Workspace.WriteEntry(t, m[k], dir, umask); r.ok && Partly(r.tree, Index(m[..k + 1]), umask)
  {
    var e, idx := m[k], Index(m[..k]);
    Workspace.PrefixIndex(m, k);
    EntryFree(t, m, k);
    Workspace.EntryWritten(t, e, dir, umask);
    HashesNext(t.files, idx, e, File(dir[e.hash], EffectiveMode(e.mode) & !umask), umask);
    Workspace.NeededDirsNext(t.dirs, idx.Keys, e.path);
    assert Index(m[..k + 1]).Keys == idx.Keys + {e.path};
  }

  /** The next path of a consistent manifest is free where only those before it have been written. */
  lemma EntryFree(t: Tree, m: Manifest, k: nat)
    requires LocalFs.Consistent(m) && k < |m|
    requires t.files.Keys == Index(m[..k]).Keys && Workspace.NeededDirs(t.dirs, Index(m[..k]).Keys)
    ensures var p := m[k].path; Paths.CleanPath(p) && p !in t.files && p !in t.dirs && !Blocked(t, p)
  {
    var e, paths := m[k], Index(m[..k]).Keys;
    Workspace.PrefixIndex(m, k);
    IndexDistinct(m);
    IndexDistinct(m[..k]);
    assert e in m;
    Paths.CleanPathStays(e.path);
    forall q | q in paths ensures q in Index(m) {
      assert Index(m[..k])[q] in m[..k];
      assert Index(m[..k])[q] in m;
    }
    Workspace.HeldFree(t, paths, e.path);
  }

  lemma WriteServer(x: Session, store: Puts, umask: Mode)
    requires LocalFs.Consistent(x.manifest) && ServerInv(x, store.puts, umask) && x.received == Some(x.manifest)
    requires x.server.Materializing? && x.server.k < |x.manifest|
    requires Hashes(x.manifest) <= Keys(store.dir) && Addressed(store.dir)
    ensures ServerInv(WriteOne(x, store.dir, umask), store.puts, umask)
    ensures WriteOne(x, store.dir, umask) == x.(server := WriteOne(x, store.dir, umask).server)
    ensures WriteOne(x, store.dir, umask).server.Materializing?
  {
    PrefixHashes(x.manifest, x.server.k);
    PartlyNext(x.server.partial, x.manifest, x.server.k, store.dir, umask);
  }

  lemma WriteStep(x: Session, store: Puts, umask: Mode)
    requires SessionInv(x, store, umask) && Addressed(store.dir) && ActEnabled(x, store, WriteFile)
    ensures SessionInv(DoAct(x, store, umask, WriteFile), store, umask)
  {
    AllStored(x, Keys(store.dir), umask);
    HonestConsistent(x);
    WriteServer(x, store, umask);
    PhaseOf(x, WriteOne(x, store.dir, umask), Keys(store.dir), umask);
  }

  /** A phase of waiting for ready does not depend on how far materializing has got. */
  lemma PhaseOf(x: Session, x': Session, keys: set<string>, umask: Mode)
    requires PhaseInv(x, keys, umask) && x.client == AwaitReady && x.up != []
    requires x' == x.(server := x'.server) && !x'.server.Asking?
    ensures PhaseInv(x', keys, umask)
  {
  }

  lemma PartlyFaithful(t: Tree, m: Manifest, k: nat, umask: Mode)
    requires k <= |m| && Partly(t, Index(m[..k]), umask)
    ensures k == |m| ==> Faithful(t, m, umask)
  {
    assert m[..|m|] == m;
  }

  lemma SyncedStep(x: Session, store: Puts, umask: Mode)
    requires SessionInv(x, store, umask) && ActEnabled(x, store, Synced)
    ensures SessionInv(DoAct(x, store, umask, Synced), store, umask)
  {
    PartlyFaithful(x.server.partial, x.manifest, x.server.k, umask);
  }

  // ---- Every step keeps the invariant ----

  lemma ActInv(x: Session, store: Puts, umask: Mode, act: Act)
    requires SessionInv(x, store, umask) && PutsInv(store) && ActEnabled(x, store, act) && act != ServerPut
    ensures SessionInv(DoAct(x, store, umask, act), store, umask)
  {
    match act {
      case Ask => AskStep(x, store, umask);
      case Asked => AskedStep(x, store, umask);
      case ClientUpload => UploadStep(x, store, umask);
      case ClientDone => DoneStep(x, store, umask);
      case PutDone => PutDoneStep(x, store, umask);
      case ServerSync => SyncStep(x, store, umask);
      case WriteFile => WriteStep(x, store, umask);
      case Synced => SyncedStep(x, store, umask);
      case ClientStart => ClientStartStep(x, store, umask);
      case ServerStart => ServerStartStep(x, store, umask);
      case _ => RequestStep(x, store, umask);
    }
  }

  lemma StoreStep(s: State, step: PutStep)
    requires Inv(s) && Enabled(s, Store(step))
    ensures Inv(Step(s, Store(step)))
  {
    var store' := DoPut(s.store, step);
    PutStepExtends(s.store, step);
    forall i | 0 <= i < |s.sessions| ensures SessionInv(s.sessions[i], store', s.umask) {
      StoreGrows(s.sessions[i], s.store, store', s.umask);
    }
  }

  lemma SessionStep(s: State, i: nat, act: Act)
    requires Inv(s) && Enabled(s, Of(i, act)) && act != ServerPut
    ensures Inv(Step(s, Of(i, act)))
  {
    ActInv(s.sessions[i], s.store, s.umask, act);
  }

  lemma BeginStep(s: State, i: nat)
    requires Inv(s) && Enabled(s, Of(i, ServerPut))
    ensures Inv(Step(s, Of(i, ServerPut)))
  {
    var x := s.sessions[i];
    var begin := Begin(x.up[0].hash, x.up[0].content);
    PutStepExtends(s.store, begin);
    PutBegun(x, s.store, s.umask);
    forall j | 0 <= j < |s.sessions| && j != i ensures SessionInv(s.sessions[j], DoPut(s.store, begin), s.umask) {
      StoreGrows(s.sessions[j], s.store, DoPut(s.store, begin), s.umask);
    }
  }

  lemma StepInv(s: State, l: Label)
    requires Inv(s) && Enabled(s, l)
    ensures Inv(Step(s, l))
  {
    match l
    case Store(step) => StoreStep(s, step);
    case Of(i, act) =>
      if act == ServerPut { BeginStep(s, i); } else { SessionStep(s, i, act); }
  }

  lemma {:induction false} LinkedInv(run: seq<State>, labels: seq<Label>, k: nat)
    requires Linked(run, labels) && k <= |labels| && Inv(run[0])
    ensures Inv(run[k])
  {
    if k > 0 {
      LinkedInv(run, labels, k - 1);
      InvAdvances(run, labels, k - 1);
    }
  }

  lemma InvAdvances(run: seq<State>, labels: seq<Label>, k: nat)
    requires Linked(run, labels) && k < |labels| && Inv(run[k])
    ensures Inv(run[k + 1])
  {
    assert RunsAt(run, labels, k);
    StepInv(run[k], labels[k]);
  }

  lemma RunInv(run: seq<State>, labels: seq<Label>, k: nat)
    requires IsRun(run, labels) && k <= |labels|
    ensures Inv(run[k])
  {
    LinkedInv(run, labels, k);
  }

  // ---- Results ----

  /**
   Handshake safety: in every reachable state of any number of sessions on one store, however their steps and
   anyone else's puts interleave, a session has failed only if its own session.start did not fit a record: no
   hash is rejected, none requested is unknown to its client, no request is too large, no upload is refused,
   no materialization fails. While a session materializes, every hash of its manifest is stored; a finished
   workspace has exactly the manifest's paths, with content of the manifest's hashes.
   */
  lemma HandshakeSafe(run: seq<State>, labels: seq<Label>, k: nat, i: nat)
    requires IsRun(run, labels) && k < |run| && i < |run[k].sessions|
    ensures var (s, x) := (run[k], run[k].sessions[i]);
      && (x.failed ==> x.client == Refused && !Fits(x)) && x.client != Stopped
      && (x.up != [] && x.up[0].SyncDone? ==>
            Hashes(x.manifest) <= Keys(s.store.dir) && x.received == Some(x.manifest))
      && (x.ws.Some? ==> Faithful(x.ws.value, x.manifest, s.umask))
      && (forall h :: h in Keys(s.store.dir) ==> HashContent(s.store.dir[h]) == h)
  {
    RunInv(run, labels, k);
    var s, x := run[k], run[k].sessions[i];
    assert SessionInv(x, s.store, s.umask);
    if !TurnedAway(x) && x.up != [] && x.up[0].SyncDone? {
      AllStored(x, Keys(s.store.dir), s.umask);
    }
  }
}
