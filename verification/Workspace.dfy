/** Writing a manifest out and reading it back (internal/adapters/workspace/fsstore/workspace.go). */
module Workspace {
  import opened Prelude
  import opened Domain
  import opened Trees
  import opened Hashing
  import opened Walk
  import Blobs = BlobStore
  import LocalFs
  import Paths

  /** Writing a new file honours the process umask; rewriting one keeps its mode. */
  function WrittenFile(t: Tree, p: string, content: Bytes, mode: Mode, umask: Mode): File {
    File(content, if p in t.files then t.files[p].mode else EffectiveMode(mode) & !umask)
  }

  /** What materializing one entry does: directories, then the blob, then the file. */
  function WriteEntry(t: Tree, e: FileEntry, dir: Blobs.Dir, umask: Mode): LocalFs.Outcome {
    if !Paths.StaysInside(e.path) then LocalFs.Outcome(t, false)
    else
      var p := Paths.Join(Paths.Components(e.path));
      match if p == "" then Ok(t) else MkdirAll(t, Parent(p))
      case Err(_) => LocalFs.Outcome(t, false)
      case Ok(made) =>
        if !(ValidHash(e.hash) && e.hash in dir) then LocalFs.Outcome(made, false)
        else
          match RenameOnto(made, WrittenFile(made, p, dir[e.hash], e.mode, umask), p)
          case Err(_) => LocalFs.Outcome(made, false)
          case Ok(written) => LocalFs.Outcome(written, true)
  }

  /** Entry after entry, stopping at the first failure. */
  function Materialized(t: Tree, m: Manifest, dir: Blobs.Dir, umask: Mode): LocalFs.Outcome
    decreases |m|
  {
    if m == [] then LocalFs.Outcome(t, true)
    else
      var first := WriteEntry(t, m[0], dir, umask);
      if first.ok then Materialized(first.tree, m[1..], dir, umask) else first
  }

  const EMPTY := Tree(map[], {""})

  class Workspace {
    const root: string
    ghost const names: seq<string>
    const umask: Mode
    var tree: Tree

    ghost predicate Rooted() {
      Paths.RootOf(root, names) && names != []
    }

    constructor (names: seq<string>, umask: Mode)
      requires Paths.Normal(names) && names != []
      ensures Rooted() && this.umask == umask && tree == EMPTY
    {
      this.root := "/" + Paths.Join(names);
      this.names := names;
      this.umask := umask;
      this.tree := EMPTY;
    }

    method Materialize(manifest: Manifest, blobs: Blobs.Store) returns (ok: bool)
      requires Rooted()
      modifies this`tree
      ensures LocalFs.Outcome(tree, ok) == Materialized(old(tree), manifest, blobs.dir, umask)
    {
      for i := 0 to |manifest|
        invariant Materialized(tree, manifest[i..], blobs.dir, umask) ==
          Materialized(old(tree), manifest, blobs.dir, umask)
      {
        var e := manifest[i];
        assert manifest[i..][0] == e && manifest[i..][1..] == manifest[i + 1..];
        Paths.SafeJoinCharacterised(root, names, e.path);
        var dst := Paths.SafeJoin(root, e.path);
        if dst.Err? {
          return false;
        }
        Paths.RelativeOfJoin(root, names, e.path);
        var p := Paths.Relative(root, dst.value);
        if p != "" {
          var made := MkdirAll(tree, Parent(p));
          if made.Err? {
            return false;
          }
          tree := made.value;
        }
        var content := blobs.Get(e.hash);
        if content.Err? {
          return false;
        }
        var written := RenameOnto(tree, WrittenFile(tree, p, content.value, e.mode, umask), p);
        if written.Err? {
          return false;
        }
        tree := written.value;
      }
      ok := true;
    }

    method Snapshot() returns (m: Manifest)
      requires Valid(tree) && "" in tree.dirs
      ensures m == SnapshotOf(tree)
    {
      UnlimitedWalk(tree, []);
      var r := WalkManifest(tree, UNLIMITED);
      m := r.value;
      UnlimitedWalk(tree, m);
    }

    method ReadFile(path: string) returns (r: Result<Bytes>)
      requires Rooted()
      ensures if r.Ok? then ReadAt(tree, path) == Some(r.value) else ReadAt(tree, path) == None
    {
      Paths.SafeJoinCharacterised(root, names, path);
      var abs := Paths.SafeJoin(root, path);
      if abs.Err? {
        return Err(abs.error);
      }
      Paths.RelativeOfJoin(root, names, path);
      var p := Paths.Relative(root, abs.value);
      if p !in tree.files {
        return Err(ENOENT);
      }
      r := Ok(tree.files[p].content);
    }
  }

  // ---- One entry, and where materializing stops ----

  /** When an entry can be written at a path. */
  ghost predicate Writable(t: Tree, e: FileEntry, dir: Blobs.Dir, p: string) {
    p !in t.dirs && !Blocked(t, p) && ValidHash(e.hash) && e.hash in dir
  }

  /** What writing an entry at a path does to the files. */
  ghost predicate WrittenAt(t: Tree, u: Tree, e: FileEntry, dir: Blobs.Dir, umask: Mode, p: string)
    requires e.hash in dir
  {
    && u.files.Keys == t.files.Keys + {p} && (forall q :: q in t.files && q != p ==> u.files[q] == t.files[q])
    && u.files[p].content == dir[e.hash]
    && u.files[p].mode ==
         if p in t.files then t.files[p].mode
         else (if e.mode % 0x200 == 0 then 0x1A4 else e.mode % 0x200) & !umask
  }

  lemma WrittenFileIs(t: Tree, e: FileEntry, dir: Blobs.Dir, umask: Mode, p: string)
    requires e.hash in dir
    ensures WrittenAt(t, t.(files := t.files[p := WrittenFile(t, p, dir[e.hash], e.mode, umask)]), e, dir, umask, p)
  {
    EffectiveModeExact(e.mode);
  }

  lemma WriteBelow(t: Tree, e: FileEntry, dir: Blobs.Dir, umask: Mode, p: string)
    requires Valid(t) && Paths.StaysInside(e.path) && p == Paths.Join(Paths.Components(e.path)) && p != ""
    requires e.hash in dir
    ensures var (r, f) := (WriteEntry(t, e, dir, umask), WrittenFile(t, p, dir[e.hash], e.mode, umask));
      && Valid(r.tree) && (r.ok <==> Writable(t, e, dir, p))
      && (r.ok ==> r.tree == Tree(t.files[p := f], t.dirs + Ancestors(p)))
      && (!r.ok ==> r.tree.files == t.files && t.dirs <= r.tree.dirs <= t.dirs + Ancestors(p))
  {
    Paths.StaysIsClean(e.path);
    Place(t, p, WrittenFile(t, p, dir[e.hash], e.mode, umask));
    DirsMade(t, p);
  }

  lemma DirsMade(t: Tree, p: string)
    requires Valid(t) && Paths.CleanPath(p)
    ensures p != "" && (Blocked(t, p) <==> MkdirAll(t, Parent(p)).Err?)
    ensures MkdirAll(t, Parent(p)).Ok? ==>
      var u := MkdirAll(t, Parent(p)).value;
      Valid(u) && u.files == t.files && t.dirs <= u.dirs <= t.dirs + Ancestors(p) && (p in u.dirs <==> p in t.dirs)
  {
    Paths.CleanPathStays(p);
    BlockedByParent(t, p);
    if MkdirAll(t, Parent(p)).Ok? {
      ParentDirs(t, p);
      CleanParent(p);
      MkdirAllValid(t, Parent(p));
    }
  }

  lemma WriteWithoutBlob(t: Tree, e: FileEntry, dir: Blobs.Dir, umask: Mode, p: string)
    requires Valid(t) && Paths.StaysInside(e.path) && p == Paths.Join(Paths.Components(e.path)) && p != ""
    requires e.hash !in dir
    ensures var r := WriteEntry(t, e, dir, umask);
      !r.ok && Valid(r.tree) && r.tree.files == t.files && t.dirs <= r.tree.dirs <= t.dirs + Ancestors(p)
  {
    Paths.StaysIsClean(e.path);
    DirsMade(t, p);
  }

  /**
   Writing one entry, whatever it says: it succeeds exactly for a path inside, at which no directory stands and above
   which no file does, and a stored blob; a new file gets the entry's permissions, 0644 for none, less the umask; a
   file already there keeps its own. A failure leaves all files as they were.
   */
  lemma WriteEntryExact(t: Tree, e: FileEntry, dir: Blobs.Dir, umask: Mode)
    requires Valid(t) && "" in t.dirs
    ensures var (r, p) := (WriteEntry(t, e, dir, umask), Paths.Join(Paths.Components(e.path)));
      && Valid(r.tree) && (r.ok <==> Paths.StaysInside(e.path) && Writable(t, e, dir, p))
      && (r.ok ==> r.tree.dirs == t.dirs + Ancestors(p) && WrittenAt(t, r.tree, e, dir, umask, p))
      && (!r.ok ==> r.tree.files == t.files && t.dirs <= r.tree.dirs <= t.dirs + Ancestors(p))
  {
    var p := Paths.Join(Paths.Components(e.path));
    if Paths.StaysInside(e.path) && p != "" {
      if e.hash in dir {
        WriteBelow(t, e, dir, umask, p);
        WrittenFileIs(t, e, dir, umask, p);
      } else {
        WriteWithoutBlob(t, e, dir, umask, p);
      }
    }
  }

  /** The tree after the first k entries, one after the other. */
  function WrittenTo(t: Tree, m: Manifest, dir: Blobs.Dir, umask: Mode, k: nat): Tree
    requires k <= |m|
  {
    if k == 0 then t else WriteEntry(WrittenTo(t, m, dir, umask, k - 1), m[k - 1], dir, umask).tree
  }

  predicate Writes(t: Tree, m: Manifest, dir: Blobs.Dir, umask: Mode, k: nat)
    requires k < |m|
  {
    WriteEntry(WrittenTo(t, m, dir, umask, k), m[k], dir, umask).ok
  }

  lemma {:induction false} WrittenTail(t: Tree, m: Manifest, dir: Blobs.Dir, umask: Mode, k: nat)
    requires 0 < k <= |m|
    ensures WrittenTo(t, m, dir, umask, k) == WrittenTo(WriteEntry(t, m[0], dir, umask).tree, m[1..], dir, umask, k - 1)
  {
    if k > 1 {
      WrittenTail(t, m, dir, umask, k - 1);
      assert m[1..][k - 2] == m[k - 1];
    }
  }

  /** Entry after entry in order, up to and including the first that fails, and no further. */
  lemma {:induction false} MaterializedExact(t: Tree, m: Manifest, dir: Blobs.Dir, umask: Mode) returns (n: nat)
    ensures n <= |m| && (forall k :: 0 <= k < n ==> Writes(t, m, dir, umask, k))
    ensures Materialized(t, m, dir, umask).ok <==> n == |m|
    ensures n < |m| ==> !Writes(t, m, dir, umask, n)
    ensures Materialized(t, m, dir, umask).tree == WrittenTo(t, m, dir, umask, if n < |m| then n + 1 else n)
    decreases |m|
  {
    n := 0;
    if m != [] && WriteEntry(t, m[0], dir, umask).ok {
      var u := WriteEntry(t, m[0], dir, umask).tree;
      n := MaterializedExact(u, m[1..], dir, umask);
      forall k | 0 <= k < |m| - 1 ensures Writes(t, m, dir, umask, k + 1) <==> Writes(u, m[1..], dir, umask, k) {
        WrittenTail(t, m, dir, umask, k + 1);
      }
      forall k | 0 <= k < n + 1 ensures Writes(t, m, dir, umask, k) {
        if k > 0 { assert Writes(u, m[1..], dir, umask, k - 1); }
      }
      n := n + 1;
      WrittenTail(t, m, dir, umask, if n < |m| then n + 1 else n);
    } else if m != [] {
      WrittenTail(t, m, dir, umask, 1);
    }
  }

  // ---- Round trip ----

  /** A manifest taken from a well-formed tree has ordinary paths, none below another. */
  lemma ManifestConsistent(t: Tree, opts: Options, m: Manifest)
    requires Valid(t) && ManifestOf(t, opts, m)
    ensures LocalFs.Consistent(m) && LocalFs.Covers(t, m)
  {
    ManifestIndex(t, opts, m);
  }

  /** One entry of such a manifest is written without fail where nothing stands in its way. */
  lemma EntryWritten(t: Tree, e: FileEntry, dir: Blobs.Dir, umask: Mode)
    requires Valid(t) && Paths.CleanPath(e.path) && e.path !in t.files && e.path !in t.dirs && !Blocked(t, e.path)
    requires ValidHash(e.hash) && e.hash in dir
    ensures var r := WriteEntry(t, e, dir, umask);
      && r.ok && Valid(r.tree)
      && r.tree ==
           Tree(t.files[e.path := File(dir[e.hash], EffectiveMode(e.mode) & !umask)], t.dirs + Ancestors(e.path))
  {
    Paths.CleanPathStays(e.path);
    Place(t, e.path, File(dir[e.hash], EffectiveMode(e.mode) & !umask));
    BlockedByParent(t, e.path);
    ParentDirs(t, e.path);
  }

  function FileFor(e: FileEntry, dir: Blobs.Dir, umask: Mode): File
    requires e.hash in dir
  {
    File(dir[e.hash], EffectiveMode(e.mode) & !umask)
  }

  ghost predicate Stored(idx: map<string, FileEntry>, dir: Blobs.Dir) {
    forall p :: p in idx ==> ValidHash(idx[p].hash) && idx[p].hash in dir
  }

  ghost predicate HoldsFiles(t: Tree, idx: map<string, FileEntry>, dir: Blobs.Dir, umask: Mode)
    requires Stored(idx, dir)
  {
    t.files.Keys == idx.Keys && forall p :: p in idx ==> t.files[p] == FileFor(idx[p], dir, umask)
  }

  ghost predicate NeededDirs(dirs: set<string>, paths: set<string>) {
    "" in dirs && forall d :: d in dirs ==> d == "" || exists p :: p in paths && Ancestor(d, p)
  }

  /** The tree whose files are exactly those of an index, with no other directories than they need. */
  ghost predicate Holds(t: Tree, idx: map<string, FileEntry>, dir: Blobs.Dir, umask: Mode)
    requires Stored(idx, dir)
  {
    Valid(t) && HoldsFiles(t, idx, dir, umask) && NeededDirs(t.dirs, idx.Keys)
  }

  lemma NeededDirsNext(dirs: set<string>, paths: set<string>, p: string)
    requires NeededDirs(dirs, paths)
    ensures NeededDirs(dirs + Ancestors(p), paths + {p})
  {
    forall d | d in dirs + Ancestors(p) ensures d == "" || exists q :: q in paths + {p} && Ancestor(d, q) {
      AncestorsAre(p, d);
      if d in dirs && d != "" {
        var q :| q in paths && Ancestor(d, q);
        assert q in paths + {p};
      }
    }
  }

  /** A path unrelated to those held is free. */
  lemma HeldFree(t: Tree, paths: set<string>, p: string)
    requires t.files.Keys == paths && NeededDirs(t.dirs, paths) && p !in paths && p != ""
    requires forall q :: q in paths ==> !Ancestor(q, p) && !Ancestor(p, q)
    ensures p !in t.files && p !in t.dirs && !Blocked(t, p)
  {
  }

  lemma HoldsNext(t: Tree, u: Tree, idx: map<string, FileEntry>, e: FileEntry, dir: Blobs.Dir, umask: Mode)
    requires Stored(idx[e.path := e], dir) && Stored(idx, dir) && HoldsFiles(t, idx, dir, umask)
    requires NeededDirs(t.dirs, idx.Keys) && e.hash in dir
    requires u == Tree(t.files[e.path := FileFor(e, dir, umask)], t.dirs + Ancestors(e.path))
    ensures HoldsFiles(u, idx[e.path := e], dir, umask) && NeededDirs(u.dirs, idx[e.path := e].Keys)
  {
    NeededDirsNext(t.dirs, idx.Keys, e.path);
    assert idx[e.path := e].Keys == idx.Keys + {e.path};
  }

  /** The index of a prefix is part of the index of the whole. */
  lemma PrefixIndex(m: Manifest, k: nat)
    requires DistinctPaths(m) && k < |m|
    ensures Index(m[..k + 1]) == Index(m[..k])[m[k].path := m[k]]
    ensures m[k].path !in Index(m[..k])
  {
    assert m[..k + 1][..k] == m[..k];
    IndexIsLast(m[..k], m[k].path);
  }

  lemma PrefixStored(m: Manifest, k: nat, dir: Blobs.Dir)
    requires LocalFs.Consistent(m) && Stored(Index(m), dir) && k <= |m|
    ensures Stored(Index(m[..k]), dir) && Index(m[..k]).Keys <= Index(m).Keys
  {
    IndexDistinct(m);
    IndexDistinct(m[..k]);
    forall p | p in Index(m[..k])
      ensures p in Index(m) && ValidHash(Index(m[..k])[p].hash) && Index(m[..k])[p].hash in dir
    {
      var e := Index(m[..k])[p];
      assert e in m[..k];
      assert e in m;
    }
  }

  lemma NextWritten(t: Tree, m: Manifest, dir: Blobs.Dir, umask: Mode, k: nat)
    requires LocalFs.Consistent(m) && Stored(Index(m), dir) && k < |m|
    requires Stored(Index(m[..k]), dir) && Holds(t, Index(m[..k]), dir, umask) && Stored(Index(m[..k + 1]), dir)
    ensures var r := WriteEntry(t, m[k], dir, umask); r.ok && Holds(r.tree, Index(m[..k + 1]), dir, umask)
  {
    var e, paths := m[k], Index(m[..k]).Keys;
    PrefixIndex(m, k);
    PrefixStored(m, k, dir);
    IndexDistinct(m);
    assert e in m;
    assert Paths.CleanPath(e.path);
    Paths.CleanPathStays(e.path);
    HeldFree(t, paths, e.path);
    EntryWritten(t, e, dir, umask);
    HoldsNext(t, WriteEntry(t, e, dir, umask).tree, Index(m[..k]), e, dir, umask);
  }

  lemma {:induction false} MaterializedFrom(t: Tree, m: Manifest, dir: Blobs.Dir, umask: Mode, k: nat)
    requires LocalFs.Consistent(m) && Stored(Index(m), dir) && k <= |m|
    requires Stored(Index(m[..k]), dir) && Holds(t, Index(m[..k]), dir, umask)
    ensures var r := Materialized(t, m[k..], dir, umask); r.ok && Holds(r.tree, Index(m), dir, umask)
    decreases |m| - k
  {
    if k < |m| {
      assert m[k..][0] == m[k] && m[k..][1..] == m[k + 1..];
      PrefixStored(m, k + 1, dir);
      NextWritten(t, m, dir, umask, k);
      MaterializedFrom(WriteEntry(t, m[k], dir, umask).tree, m, dir, umask, k + 1);
    } else {
      assert m[..k] == m;
    }
  }

  /** Materializing a tree's manifest into an empty workspace succeeds when the store has every hash. */
  lemma MaterializeSucceeds(m: Manifest, dir: Blobs.Dir, umask: Mode)
    requires LocalFs.Consistent(m) && Stored(Index(m), dir)
    ensures var r := Materialized(EMPTY, m, dir, umask); r.ok && Holds(r.tree, Index(m), dir, umask)
  {
    assert m[0..] == m && m[..0] == [];
    MaterializedFrom(EMPTY, m, dir, umask, 0);
  }

  /** The entry a materialized file snapshots to. */
  function Rewritten(e: FileEntry, dir: Blobs.Dir, umask: Mode): FileEntry
    requires e.hash in dir
  {
    FileEntry(e.path, e.hash, |dir[e.hash]|, EffectiveMode(e.mode) & !umask)
  }

  lemma MaskedPerm(mode: Mode, umask: Mode)
    ensures Perm(EffectiveMode(mode) & !umask) == EffectiveMode(mode) & !umask
  {
  }

  /** No entry lies under a directory that every walk prunes. */
  ghost predicate NothingPruned(m: Manifest) {
    forall p :: p in Index(m) ==> Reached(UNLIMITED, p)
  }

  lemma WalkedNotPruned(t: Tree, opts: Options, m: Manifest)
    requires ManifestOf(t, opts, m)
    ensures NothingPruned(m)
  {
    ManifestIndex(t, opts, m);
  }

  /**
   Snapshot after Materialize: the same paths and hashes, sizes of the stored blobs, and modes equal
   up to the rule for permissions 0 and the umask.
   */
  lemma SnapshotAfterMaterialize(m: Manifest, dir: Blobs.Dir, umask: Mode)
    requires LocalFs.Consistent(m) && NothingPruned(m) && Stored(Index(m), dir) && Blobs.Addressed(dir)
    ensures var r := Materialized(EMPTY, m, dir, umask);
      && r.ok && Valid(r.tree) && "" in r.tree.dirs
      && Index(SnapshotOf(r.tree)).Keys == Index(m).Keys
      && forall p :: p in Index(m) ==> Index(SnapshotOf(r.tree))[p] == Rewritten(Index(m)[p], dir, umask)
  {
    MaterializeSucceeds(m, dir, umask);
    HeldSnapshot(Materialized(EMPTY, m, dir, umask).tree, m, dir, umask);
  }

  lemma HeldEntry(t: Tree, m: Manifest, dir: Blobs.Dir, umask: Mode, p: string)
    requires LocalFs.Consistent(m) && NothingPruned(m) && Stored(Index(m), dir) && Blobs.Addressed(dir)
    requires HoldsFiles(t, Index(m), dir, umask) && p in t.files
    ensures p in Kept(t, UNLIMITED) && EntryOf(t, p) == Rewritten(Index(m)[p], dir, umask)
  {
    Paths.CleanPathStays(p);
    IndexDistinct(m);
    EntryOfFile(t, p, Index(m)[p], dir, umask);
  }

  lemma EntryOfFile(t: Tree, p: string, e: FileEntry, dir: Blobs.Dir, umask: Mode)
    requires p in t.files && e.path == p && e.hash in dir && t.files[p] == FileFor(e, dir, umask)
    requires HashContent(dir[e.hash]) == e.hash
    ensures EntryOf(t, p) == Rewritten(e, dir, umask)
  {
    MaskedPerm(e.mode, umask);
  }

  lemma HeldSnapshot(t: Tree, m: Manifest, dir: Blobs.Dir, umask: Mode)
    requires LocalFs.Consistent(m) && NothingPruned(m) && Stored(Index(m), dir) && Blobs.Addressed(dir)
    requires Holds(t, Index(m), dir, umask)
    ensures Index(SnapshotOf(t)).Keys == Index(m).Keys
    ensures forall p :: p in Index(m) ==> Index(SnapshotOf(t))[p] == Rewritten(Index(m)[p], dir, umask)
  {
    SnapshotIsManifest(t);
    ManifestIndex(t, UNLIMITED, SnapshotOf(t));
    forall p | p in t.files
      ensures p in Kept(t, UNLIMITED) && EntryOf(t, p) == Rewritten(Index(m)[p], dir, umask)
    {
      HeldEntry(t, m, dir, umask, p);
    }
    assert Kept(t, UNLIMITED) == Index(m).Keys;
  }

  lemma SameContent(t: Tree, opts: Options, m: Manifest, dir: Blobs.Dir, umask: Mode, p: string)
    requires ManifestOf(t, opts, m) && Stored(Index(m), dir) && Blobs.Addressed(dir) && p in Index(m)
    requires p in t.files && NoCollision(dir[Index(m)[p].hash], t.files[p].content)
    ensures dir[Index(m)[p].hash] == t.files[p].content
    ensures Rewritten(Index(m)[p], dir, umask) == Index(m)[p].(mode := EffectiveMode(Index(m)[p].mode) & !umask)
  {
    ManifestIndex(t, opts, m);
    HashValid(dir[Index(m)[p].hash], t.files[p].content);
  }

  /**
   The same for the manifest of a tree, where SHA-256 does not confuse its files with the blobs: the workspace holds
   the tree's files byte for byte, and its snapshot differs from the manifest in modes only.
   */
  lemma SnapshotGivesBack(t: Tree, opts: Options, m: Manifest, dir: Blobs.Dir, umask: Mode)
    requires Valid(t) && ManifestOf(t, opts, m) && Stored(Index(m), dir) && Blobs.Addressed(dir)
    requires forall p :: p in Index(m) && p in t.files ==> NoCollision(dir[Index(m)[p].hash], t.files[p].content)
    ensures var r := Materialized(EMPTY, m, dir, umask);
      && r.ok && r.tree.files.Keys == Kept(t, opts) == Index(m).Keys == Index(SnapshotOf(r.tree)).Keys
      && forall p :: p in Index(m) ==>
           && r.tree.files[p].content == t.files[p].content
           && Index(SnapshotOf(r.tree))[p] == Index(m)[p].(mode := EffectiveMode(Index(m)[p].mode) & !umask)
  {
    ManifestIndex(t, opts, m);
    ManifestConsistent(t, opts, m);
    WalkedNotPruned(t, opts, m);
    MaterializeSucceeds(m, dir, umask);
    SnapshotAfterMaterialize(m, dir, umask);
    var r := Materialized(EMPTY, m, dir, umask);
    forall p | p in Index(m)
      ensures r.tree.files[p].content == t.files[p].content
      ensures Index(SnapshotOf(r.tree))[p] == Index(m)[p].(mode := EffectiveMode(Index(m)[p].mode) & !umask)
    {
      SameContent(t, opts, m, dir, umask, p);
    }
  }
}
