/** Applying the server's changes to the client's project tree (internal/adapters/localfs/localfs.go). */
module LocalFs {
  import opened Prelude
  import opened Domain
  import opened Trees
  import opened Order
  import Paths
  import Diff

  /** The tree after a change, and whether it was applied without error. */
  datatype Outcome = Outcome(tree: Tree, ok: bool)

  /** Applying one change at a path already resolved below the root. */
  function ApplyAt(t: Tree, p: string, ch: FileChange, content: Bytes): Outcome {
    if ch.op == Delete then
      match Remove(t, p)
      case Ok(t') => Outcome(t', true)
      case Err(e) => Outcome(t, e == ENOENT)
    else
      match if p == "" then Ok(t) else MkdirAll(t, Parent(p))
      case Err(_) => Outcome(t, false)
      case Ok(t') =>
        match RenameOnto(t', File(content, EffectiveMode(ch.mode)), p)
        case Ok(t'') => Outcome(t'', true)
        case Err(_) => Outcome(t', false)
  }

  function ApplyChange(t: Tree, ch: FileChange, content: Bytes): Outcome {
    if Paths.StaysInside(ch.path) then ApplyAt(t, Paths.Join(Paths.Components(ch.path)), ch, content)
    else Outcome(t, false)
  }

  class Project {
    const root: string
    ghost const names: seq<string>
    var tree: Tree

    ghost predicate Rooted() {
      Paths.RootOf(root, names) && names != []
    }

    constructor (names: seq<string>, tree: Tree)
      requires Paths.Normal(names) && names != []
      ensures Rooted() && this.tree == tree
    {
      this.root := "/" + Paths.Join(names);
      this.names := names;
      this.tree := tree;
    }

    method Apply(ch: FileChange, content: Bytes) returns (ok: bool)
      requires Rooted()
      modifies this`tree
      ensures Outcome(tree, ok) == ApplyChange(old(tree), ch, content)
    {
      Paths.SafeJoinCharacterised(root, names, ch.path);
      var abs := Paths.SafeJoin(root, ch.path);
      if abs.Err? {
        return false;
      }
      Paths.RelativeOfJoin(root, names, ch.path);
      var p := Paths.Relative(root, abs.value);
      if ch.op == Delete {
        var r := Remove(tree, p);
        if r.Err? {
          return r.error == ENOENT;
        }
        tree := r.value;
        return true;
      }
      if p != "" {
        var made := MkdirAll(tree, Parent(p));
        if made.Err? {
          return false;
        }
        tree := made.value;
      }
      var mode := Perm(ch.mode);
      if mode == 0 {
        mode := 0x1A4;
      }
      var renamed := RenameOnto(tree, File(content, mode), p);
      if renamed.Err? {
        return false;
      }
      tree := renamed.value;
      ok := true;
    }

    method ReadFile(path: string) returns (r: Result<Bytes>)
      requires Rooted()
      ensures if r.Ok? then ReadAt(tree, path) == Some(r.value) else ReadAt(tree, path) == None
    {
      Paths.SafeJoinCharacterised(root, names, path);
      var abs := Paths.SafeJoin(root, path);
      if abs.Err? {
        return Err(abs.error);
      }
      Paths.RelativeOfJoin(root, names, path);
      var p := Paths.Relative(root, abs.value);
      if p !in tree.files {
        return Err(ENOENT);
      }
      r := Ok(tree.files[p].content);
    }
  }

  // ---- One change on a well-formed tree ----

  /** A file can be put exactly where no directory stands and no file stands above. */
  lemma PutFile(t: Tree, ch: FileChange, content: Bytes)
    requires Valid(t) && ch.op != Delete && Paths.CleanPath(ch.path)
    ensures var (p, r) := (ch.path, ApplyChange(t, ch, content));
      && Valid(r.tree)
      && (r.ok <==> p !in t.dirs && !Blocked(t, p))
      && (r.ok ==> r.tree == Tree(t.files[p := File(content, EffectiveMode(ch.mode))], t.dirs + Ancestors(p)))
      && (!r.ok ==> r.tree == t)
  {
    Paths.CleanPathStays(ch.path);
    Place(t, ch.path, File(content, EffectiveMode(ch.mode)));
  }

  ghost predicate Untouched(t: Tree, t': Tree, p: string) {
    (p in t'.files <==> p in t.files) && (p in t.files ==> t'.files[p] == t.files[p])
  }

  /** A change at `p` leaves every other path alone. */
  ghost predicate OnlyAt(t: Tree, t': Tree, p: string) {
    forall q :: q != p ==> Untouched(t, t', q)
  }

  /** Directories only appear, and only above `p`. */
  ghost predicate DirsAbove(t: Tree, t': Tree, p: string) {
    t.dirs <= t'.dirs && forall d :: d in t'.dirs ==> d in t.dirs || Ancestor(d, p)
  }

  /** What one change at an ordinary path does to a well-formed tree. */
  ghost predicate Effect(t: Tree, r: Outcome, c: FileChange, content: Bytes) {
    && Valid(r.tree) && OnlyAt(t, r.tree, c.path)
    && (if c.op == Delete then
          && c.path !in r.tree.files && r.tree.dirs <= t.dirs <= r.tree.dirs + {c.path}
          && (c.path in t.files ==> r.ok)
        else
          && DirsAbove(t, r.tree, c.path)
          && (r.ok <==> c.path !in t.dirs && !Blocked(t, c.path))
          && (r.ok ==> c.path in r.tree.files && r.tree.files[c.path] == File(content, EffectiveMode(c.mode)))
          && (!r.ok ==> r.tree == t))
  }

  lemma PutEffect(t: Tree, u: Tree, p: string, f: File)
    requires u == Tree(t.files[p := f], t.dirs + Ancestors(p))
    ensures OnlyAt(t, u, p) && DirsAbove(t, u, p)
  {
    forall d ensures d in Ancestors(p) <==> Ancestor(d, p) { AncestorsAre(p, d); }
  }

  lemma ChangeEffect(t: Tree, c: FileChange, content: Bytes)
    requires Valid(t) && Paths.CleanPath(c.path)
    ensures Effect(t, ApplyChange(t, c, content), c, content)
  {
    if c.op == Delete {
      Paths.CleanPathStays(c.path);
      DeleteExact(t, c, content, c.path);
      FileUnblocked(t, c.path);
    } else {
      PutFile(t, c, content);
      if ApplyChange(t, c, content).ok {
        PutEffect(t, ApplyChange(t, c, content).tree, c.path, File(content, EffectiveMode(c.mode)));
      }
    }
  }

  /** A file has directories above it and is none itself. */
  lemma FileUnblocked(t: Tree, p: string)
    requires Valid(t)
    ensures p in t.files ==> p !in t.dirs && !Blocked(t, p)
    ensures p in t.dirs || Blocked(t, p) ==> p !in t.files
  {
  }

  /** Something is below directory `p`. */
  ghost predicate Occupied(t: Tree, p: string) {
    (exists q :: q in t.files && Ancestor(p, q)) || (exists q :: q in t.dirs && Ancestor(p, q))
  }

  /**
   When a change at `p` succeeds: a delete of a file, of an empty directory, or of nothing at all unless a
   file stands above; anything else unless a directory stands there or a file above.
   */
  ghost predicate Applies(t: Tree, op: ChangeOp, p: string) {
    if op != Delete then p !in t.dirs && !Blocked(t, p)
    else if p in t.dirs then !Occupied(t, p)
    else p in t.files || !Blocked(t, p)
  }

  lemma RemoveValid(t: Tree, p: string)
    requires Valid(t) && Remove(t, p).Ok?
    ensures Valid(Remove(t, p).value)
  {
  }

  /** Deleting whatever is or is not at a path. */
  lemma DeleteExact(t: Tree, c: FileChange, content: Bytes, p: string)
    requires Valid(t) && c.op == Delete && Paths.StaysInside(c.path) && p == Paths.Join(Paths.Components(c.path))
    ensures var r := ApplyChange(t, c, content);
      && Valid(r.tree) && OnlyAt(t, r.tree, p) && (!r.ok ==> r.tree == t)
      && (r.ok <==> Applies(t, c.op, p))
      && p !in r.tree.files && (r.ok ==> r.tree.dirs == t.dirs - {p})
  {
    FileUnblocked(t, p);
    if Remove(t, p).Ok? { RemoveValid(t, p); }
  }

  /** Creating or modifying at any path below an existing root. */
  lemma PutExact(t: Tree, c: FileChange, content: Bytes, p: string)
    requires Valid(t) && "" in t.dirs && c.op != Delete
    requires Paths.StaysInside(c.path) && p == Paths.Join(Paths.Components(c.path))
    ensures var (r, f) := (ApplyChange(t, c, content), File(content, EffectiveMode(c.mode)));
      && Valid(r.tree) && OnlyAt(t, r.tree, p) && (!r.ok ==> r.tree == t)
      && (r.ok <==> Applies(t, c.op, p))
      && (r.ok ==> r.tree == Tree(t.files[p := f], t.dirs + Ancestors(p)))
  {
    Paths.StaysIsClean(c.path);
    if p != "" {
      Place(t, p, File(content, EffectiveMode(c.mode)));
      PutEffect(t, Tree(t.files[p := File(content, EffectiveMode(c.mode))], t.dirs + Ancestors(p)), p,
        File(content, EffectiveMode(c.mode)));
    }
  }

  /**
   One change of any kind at any path: a path that leaves the root is refused; otherwise only the path it
   stands for can change, a failed change changes nothing, and when it succeeds is known from the tree.
   */
  lemma ApplyExact(t: Tree, c: FileChange, content: Bytes)
    requires Valid(t) && "" in t.dirs
    ensures var (r, p) := (ApplyChange(t, c, content), Paths.Join(Paths.Components(c.path)));
      && Valid(r.tree) && OnlyAt(t, r.tree, p) && (!r.ok ==> r.tree == t)
      && (r.ok <==> Paths.StaysInside(c.path) && Applies(t, c.op, p))
      && (r.ok && c.op == Delete ==> p !in r.tree.files && r.tree.dirs == t.dirs - {p})
      && (r.ok && c.op != Delete ==>
            r.tree == Tree(t.files[p := File(content, EffectiveMode(c.mode))], t.dirs + Ancestors(p)))
  {
    if Paths.StaysInside(c.path) {
      var p := Paths.Join(Paths.Components(c.path));
      if c.op == Delete { DeleteExact(t, c, content, p); } else { PutExact(t, c, content, p); }
    }
  }

  /** The file a change leaves has the content sent with it and the permissions asked for, 0644 if none are. */
  lemma AppliedFile(t: Tree, c: FileChange, content: Bytes)
    requires Valid(t) && "" in t.dirs && c.op != Delete && ApplyChange(t, c, content).ok
    ensures var (u, p) := (ApplyChange(t, c, content).tree, Paths.Join(Paths.Components(c.path)));
      && p in u.files && u.files[p].content == content
      && u.files[p].mode == (if c.mode % 0x200 == 0 then 0x1A4 else c.mode % 0x200)
      && (0 < c.mode <= 0x1FF ==> u.files[p].mode == c.mode)
  {
    ApplyExact(t, c, content);
    EffectiveModeExact(c.mode);
  }

  // ---- A whole change list ----

  /** A change with the content that travels with it. */
  datatype Push = Push(change: FileChange, content: Bytes)

  /** The client applies each change as it arrives; an error is reported and the next change goes ahead. */
  function ApplyAll(t: Tree, ps: seq<Push>): Outcome
    decreases |ps|
  {
    if ps == [] then Outcome(t, true)
    else
      var first := ApplyChange(t, ps[0].change, ps[0].content);
      var rest := ApplyAll(first.tree, ps[1..]);
      Outcome(rest.tree, first.ok && rest.ok)
  }

  lemma {:induction false} ApplyAllConcat(t: Tree, a: seq<Push>, b: seq<Push>)
    ensures var (x, y) := (ApplyAll(t, a), ApplyAll(ApplyAll(t, a).tree, b));
      ApplyAll(t, a + b) == Outcome(y.tree, x.ok && y.ok)
    decreases |a|
  {
    if a == [] {
      assert a + b == b;
    } else {
      assert (a + b)[1..] == a[1..] + b;
      ApplyAllConcat(ApplyChange(t, a[0].change, a[0].content).tree, a[1..], b);
    }
  }

  lemma ApplyAllSnoc(t: Tree, ps: seq<Push>, x: Push)
    ensures var (a, y) := (ApplyAll(t, ps), ApplyChange(ApplyAll(t, ps).tree, x.change, x.content));
      ApplyAll(t, ps + [x]) == Outcome(y.tree, a.ok && y.ok)
  {
    ApplyAllConcat(t, ps, [x]);
    assert [x][1..] == [];
  }

  function ContentAt(w: Tree, p: string): Bytes {
    if p in w.files then w.files[p].content else []
  }

  function Content(c: FileChange, w: Tree): Bytes {
    if c.op == Delete then [] else ContentAt(w, c.path)
  }

  /** The changes as finishTurn sends them: content read from the workspace except for deletes. */
  function Pushes(cs: seq<FileChange>, w: Tree): (ps: seq<Push>)
    ensures |ps| == |cs|
    ensures forall i :: 0 <= i < |cs| ==> ps[i].change == cs[i]
  {
    if cs == [] then []
    else
      Pushes(cs[..|cs| - 1], w) +
      [Push(cs[|cs| - 1], Content(cs[|cs| - 1], w))]
  }

  lemma {:induction false} PushesAt(cs: seq<FileChange>, w: Tree, k: nat)
    requires k < |cs|
    ensures Pushes(cs, w)[k] == Push(cs[k], Content(cs[k], w))
  {
    if k < |cs| - 1 {
      PushesAt(cs[..|cs| - 1], w, k);
    }
  }

  /** The paths of a manifest taken from a tree: ordinary, and none below another. */
  ghost predicate Consistent(m: Manifest) {
    && DistinctPaths(m)
    && (forall p :: p in Index(m) ==> Paths.CleanPath(p))
    && (forall p, q :: p in Index(m) && q in Index(m) ==> !Ancestor(p, q))
  }

  /** Every path of the manifest is a file of the tree. */
  ghost predicate Covers(t: Tree, m: Manifest) {
    Valid(t) && forall p :: p in Index(m) ==> p in t.files && p != ""
  }

  /**
   The condition under which the new manifest can be reached: no new path is a directory here, and
   no file that is not itself about to be deleted stands above a new path.
   */
  ghost predicate NoConflict(t: Tree, a: Manifest, b: Manifest) {
    forall p :: p in Index(b) && p !in Index(a) ==>
      p !in t.dirs && forall q :: q in t.files && Ancestor(q, p) ==> q in Index(a)
  }

  /** A well-formed client and two snapshots; the client need not have all of the old one. */
  ghost predicate Turn(t: Tree, a: Manifest, b: Manifest) {
    Valid(t) && DistinctPaths(a) && (forall p :: p in Index(a) ==> Paths.CleanPath(p)) && Consistent(b)
  }

  /** The outcome of the first k changes. */
  function After(t: Tree, a: Manifest, b: Manifest, w: Tree, k: nat): Outcome
    requires k <= |Diff.Changes(a, b)|
  {
    ApplyAll(t, Pushes(Diff.Changes(a, b)[..k], w))
  }

  lemma AfterNone(t: Tree, a: Manifest, b: Manifest, w: Tree)
    ensures After(t, a, b, w, 0) == Outcome(t, true)
  {
  }

  /** The outcome of the k-th change alone, on the tree the first k changes left. */
  function Next(t: Tree, a: Manifest, b: Manifest, w: Tree, k: nat): Outcome
    requires k < |Diff.Changes(a, b)|
  {
    ApplyChange(After(t, a, b, w, k).tree, Diff.Changes(a, b)[k], Content(Diff.Changes(a, b)[k], w))
  }

  lemma AfterNext(t: Tree, a: Manifest, b: Manifest, w: Tree, k: nat)
    requires k < |Diff.Changes(a, b)|
    ensures var r := Next(t, a, b, w, k);
      After(t, a, b, w, k + 1) == Outcome(r.tree, After(t, a, b, w, k).ok && r.ok)
  {
    var cs := Diff.Changes(a, b)[..k + 1];
    assert cs[..k] == Diff.Changes(a, b)[..k];
    var x := Push(cs[k], Content(cs[k], w));
    assert Pushes(cs, w) == Pushes(cs[..k], w) + [x];
    ApplyAllSnoc(t, Pushes(cs[..k], w), x);
  }

  /** What the paths of the first k changes look like when nothing has failed. */
  ghost predicate Done(t': Tree, w: Tree, c: FileChange) {
    if c.op == Delete then c.path !in t'.files
    else c.path in t'.files && t'.files[c.path] == File(ContentAt(w, c.path), EffectiveMode(c.mode))
  }

  ghost predicate DirsFrom(t: Tree, t': Tree, b: Manifest, cs: seq<FileChange>, k: nat)
    requires k <= |cs|
  {
    && (forall d :: d in t.dirs ==> d in t'.dirs || exists i :: 0 <= i < k && cs[i].op == Delete && cs[i].path == d)
    && (forall d :: d in t'.dirs ==> d in t.dirs || exists p :: p in Index(b) && Ancestor(d, p))
  }

  ghost predicate FilesFrom(t: Tree, t': Tree, cs: seq<FileChange>, k: nat)
    requires k <= |cs|
  {
    && (forall p :: (forall i :: 0 <= i < k ==> cs[i].path != p) ==> Untouched(t, t', p))
    && (forall i :: 0 <= i < k && cs[i].op == Delete ==> cs[i].path !in t'.files)
  }

  /** Whatever fails, directories vanish only by a delete, untouched paths stay, and the tree stays well formed. */
  ghost predicate Progress(t: Tree, t': Tree, b: Manifest, cs: seq<FileChange>, k: nat)
    requires k <= |cs|
  {
    Valid(t') && DirsFrom(t, t', b, cs, k) && FilesFrom(t, t', cs, k)
  }

  /** The k-th change meets a path no earlier change has touched, as the old manifest left it. */
  lemma Fresh(t: Tree, a: Manifest, b: Manifest, t': Tree, k: nat)
    requires Turn(t, a, b) && k < |Diff.Changes(a, b)| && Progress(t, t', b, Diff.Changes(a, b), k)
    ensures var (cs, c) := (Diff.Changes(a, b), Diff.Changes(a, b)[k]);
      && Diff.Calls(Index(a), Index(b), c) && Untouched(t, t', c.path)
      && (forall i :: 0 <= i < k ==> cs[i].path != c.path)
      && Paths.CleanPath(c.path)
  {
    var cs := Diff.Changes(a, b);
    Diff.ChangesExact(a, b);
    SortedDistinct(cs, ChangePath);
    assert cs[k] in cs;
    forall i | 0 <= i < k ensures cs[i].path != cs[k].path {
      assert ChangePath(cs[i]) != ChangePath(cs[k]);
    }
  }

  lemma FilesKept(t: Tree, t': Tree, u: Tree, cs: seq<FileChange>, k: nat)
    requires k < |cs| && FilesFrom(t, t', cs, k) && OnlyAt(t', u, cs[k].path)
    requires cs[k].op == Delete ==> cs[k].path !in u.files
    requires forall i :: 0 <= i < k ==> cs[i].path != cs[k].path
    ensures FilesFrom(t, u, cs, k + 1)
  {
    forall p | forall i :: 0 <= i < k + 1 ==> cs[i].path != p ensures Untouched(t, u, p) {
      assert cs[k].path != p;
      assert Untouched(t, t', p) && Untouched(t', u, p);
    }
    forall i | 0 <= i < k && cs[i].op == Delete ensures cs[i].path !in u.files {
      assert Untouched(t', u, cs[i].path);
    }
  }

  lemma DirsKept(t: Tree, t': Tree, u: Tree, b: Manifest, cs: seq<FileChange>, k: nat)
    requires k < |cs| && DirsFrom(t, t', b, cs, k)
    requires if cs[k].op == Delete then u.dirs <= t'.dirs <= u.dirs + {cs[k].path}
      else cs[k].path in Index(b) && DirsAbove(t', u, cs[k].path)
    ensures DirsFrom(t, u, b, cs, k + 1)
  {
    forall d | d in t.dirs && d !in u.dirs ensures exists i :: 0 <= i < k + 1 && cs[i].op == Delete && cs[i].path == d {
      if d in t'.dirs {
        assert cs[k].op == Delete && cs[k].path == d;
      } else {
        var i :| 0 <= i < k && cs[i].op == Delete && cs[i].path == d;
        assert i < k + 1;
      }
    }
  }

  lemma ProgressStep(t: Tree, a: Manifest, b: Manifest, w: Tree, k: nat)
    requires Turn(t, a, b) && k < |Diff.Changes(a, b)|
    requires Progress(t, After(t, a, b, w, k).tree, b, Diff.Changes(a, b), k)
    ensures Effect(After(t, a, b, w, k).tree, Next(t, a, b, w, k), Diff.Changes(a, b)[k],
      Content(Diff.Changes(a, b)[k], w))
    ensures Progress(t, After(t, a, b, w, k + 1).tree, b, Diff.Changes(a, b), k + 1)
  {
    var c, t' := Diff.Changes(a, b)[k], After(t, a, b, w, k).tree;
    Fresh(t, a, b, t', k);
    ChangeEffect(t', c, Content(c, w));
    AfterNext(t, a, b, w, k);
    FilesKept(t, t', Next(t, a, b, w, k).tree, Diff.Changes(a, b), k);
    DirsKept(t, t', Next(t, a, b, w, k).tree, b, Diff.Changes(a, b), k);
  }

  lemma ProgressNext(t: Tree, a: Manifest, b: Manifest, w: Tree, k: nat)
    requires Turn(t, a, b) && k < |Diff.Changes(a, b)|
    requires Progress(t, After(t, a, b, w, k).tree, b, Diff.Changes(a, b), k)
    ensures Progress(t, After(t, a, b, w, k + 1).tree, b, Diff.Changes(a, b), k + 1)
  {
    ProgressStep(t, a, b, w, k);
  }

  lemma {:induction false} ProgressAt(t: Tree, a: Manifest, b: Manifest, w: Tree, k: nat)
    requires Turn(t, a, b) && k <= |Diff.Changes(a, b)|
    ensures Progress(t, After(t, a, b, w, k).tree, b, Diff.Changes(a, b), k)
  {
    if k == 0 {
      AfterNone(t, a, b, w);
    } else {
      ProgressAt(t, a, b, w, k - 1);
      ProgressNext(t, a, b, w, k - 1);
    }
  }

  // ---- Which changes succeed ----

  /** What keeps a file from being written: its path is a directory, or a file not of the old manifest is above it. */
  ghost predicate Obstacle(t: Tree, a: Manifest, p: string) {
    p in t.dirs || exists q :: q in t.files && Ancestor(q, p) && q !in Index(a)
  }

  /** The change finds the client as it expects: a new path without obstacle, or a file to change or delete. */
  ghost predicate Meets(t: Tree, a: Manifest, c: FileChange) {
    if c.op == Create then !Obstacle(t, a, c.path) else c.path in t.files
  }

  /** The change will have its effect: a delete always, anything else unless there is an obstacle. */
  ghost predicate Takes(t: Tree, a: Manifest, c: FileChange) {
    c.op == Delete || !Obstacle(t, a, c.path)
  }

  lemma MeetsTakes(t: Tree, a: Manifest, c: FileChange)
    requires Valid(t) && Meets(t, a, c)
    ensures Takes(t, a, c)
  {
  }

  /** The step the sort order is for: a file above a path to be written has been deleted before the write. */
  lemma NoFileAbove(t: Tree, a: Manifest, b: Manifest, w: Tree, k: nat, q: string)
    requires Turn(t, a, b) && k < |Diff.Changes(a, b)| && Takes(t, a, Diff.Changes(a, b)[k])
    requires Diff.Changes(a, b)[k].op != Delete && Ancestor(q, Diff.Changes(a, b)[k].path)
    ensures q !in After(t, a, b, w, k).tree.files
  {
    var c, t' := Diff.Changes(a, b)[k], After(t, a, b, w, k).tree;
    ProgressAt(t, a, b, w, k);
    Fresh(t, a, b, t', k);
    if q in Index(a) {
      DeletedBefore(t, a, b, k, q);
    } else {
      Unmentioned(t, a, b, w, k, q);
    }
  }

  /** A path of neither manifest is never touched. */
  lemma Unmentioned(t: Tree, a: Manifest, b: Manifest, w: Tree, k: nat, q: string)
    requires Turn(t, a, b) && k <= |Diff.Changes(a, b)| && q !in Index(a) && q !in Index(b)
    ensures Untouched(t, After(t, a, b, w, k).tree, q)
  {
    var cs := Diff.Changes(a, b);
    ProgressAt(t, a, b, w, k);
    Diff.ChangesExact(a, b);
    forall i | 0 <= i < k ensures cs[i].path != q {
      assert cs[i] in cs;
    }
  }

  /** A vanished path above the k-th path has its delete among the first k changes. */
  lemma DeletedBefore(t: Tree, a: Manifest, b: Manifest, k: nat, q: string)
    requires DistinctPaths(a) && DistinctPaths(b) && k < |Diff.Changes(a, b)|
    requires q in Index(a) && q !in Index(b) && Ancestor(q, Diff.Changes(a, b)[k].path)
    ensures exists i :: 0 <= i < k && Diff.Changes(a, b)[i] == FileChange(Delete, q, "", 0)
  {
    var i := VanishedHasDelete(a, b, q);
    AncestorLess(q, Diff.Changes(a, b)[k].path);
    Diff.ChangesSorted(a, b);
    LesserFirst(Diff.Changes(a, b), i, k);
  }

  lemma VanishedHasDelete(a: Manifest, b: Manifest, q: string) returns (i: nat)
    requires DistinctPaths(a) && DistinctPaths(b) && q in Index(a) && q !in Index(b)
    ensures i < |Diff.Changes(a, b)| && Diff.Changes(a, b)[i] == FileChange(Delete, q, "", 0)
  {
    Diff.ChangesExact(a, b);
    var d := FileChange(Delete, q, "", 0);
    assert Diff.Calls(Index(a), Index(b), d);
    i :| 0 <= i < |Diff.Changes(a, b)| && Diff.Changes(a, b)[i] == d;
  }

  lemma LesserFirst(cs: seq<FileChange>, i: nat, k: nat)
    requires StrictlySorted(cs, ChangePath) && i < |cs| && k < |cs| && cs[i].path != cs[k].path
    requires Less(cs[i].path, cs[k].path)
    ensures i < k
  {
    if k < i {
      assert Less(ChangePath(cs[k]), ChangePath(cs[i]));
      LessAsymmetric(cs[k].path, cs[i].path);
    }
  }

  lemma NoDirThere(t: Tree, a: Manifest, b: Manifest, w: Tree, k: nat)
    requires Turn(t, a, b) && k < |Diff.Changes(a, b)| && Takes(t, a, Diff.Changes(a, b)[k])
    requires Diff.Changes(a, b)[k].op != Delete
    ensures Diff.Changes(a, b)[k].path !in After(t, a, b, w, k).tree.dirs
  {
    var t' := After(t, a, b, w, k).tree;
    ProgressAt(t, a, b, w, k);
    Fresh(t, a, b, t', k);
    FileUnblocked(t', Diff.Changes(a, b)[k].path);
  }

  /** A change that takes has its effect, and, if it is no delete or has a file to delete, without error. */
  lemma TakesEffect(t: Tree, a: Manifest, b: Manifest, w: Tree, k: nat)
    requires Turn(t, a, b) && k < |Diff.Changes(a, b)| && Takes(t, a, Diff.Changes(a, b)[k])
    ensures Done(Next(t, a, b, w, k).tree, w, Diff.Changes(a, b)[k])
    ensures Diff.Changes(a, b)[k].op != Delete || Diff.Changes(a, b)[k].path in t.files ==> Next(t, a, b, w, k).ok
  {
    var t', c := After(t, a, b, w, k).tree, Diff.Changes(a, b)[k];
    ProgressAt(t, a, b, w, k);
    ProgressStep(t, a, b, w, k);
    Fresh(t, a, b, t', k);
    if c.op != Delete {
      NoDirThere(t, a, b, w, k);
      if Blocked(t', c.path) {
        var q :| q in t'.files && Ancestor(q, c.path);
        NoFileAbove(t, a, b, w, k, q);
      }
    }
  }

  /** A change that finds what it expects succeeds, whatever became of the others. */
  lemma MeetsSucceeds(t: Tree, a: Manifest, b: Manifest, w: Tree, k: nat)
    requires Turn(t, a, b) && k < |Diff.Changes(a, b)| && Meets(t, a, Diff.Changes(a, b)[k])
    ensures Next(t, a, b, w, k).ok
  {
    MeetsTakes(t, a, Diff.Changes(a, b)[k]);
    TakesEffect(t, a, b, w, k);
  }

  lemma StaysDone(t: Tree, a: Manifest, b: Manifest, w: Tree, k: nat, n: nat)
    requires Turn(t, a, b) && k < n < |Diff.Changes(a, b)|
    requires Done(After(t, a, b, w, n).tree, w, Diff.Changes(a, b)[k])
    ensures Done(After(t, a, b, w, n + 1).tree, w, Diff.Changes(a, b)[k])
  {
    ProgressAt(t, a, b, w, n);
    ProgressStep(t, a, b, w, n);
    AfterNext(t, a, b, w, n);
    Fresh(t, a, b, After(t, a, b, w, n).tree, n);
    assert Untouched(After(t, a, b, w, n).tree, Next(t, a, b, w, n).tree, Diff.Changes(a, b)[k].path);
  }

  lemma {:induction false} DoneFrom(t: Tree, a: Manifest, b: Manifest, w: Tree, k: nat, n: nat)
    requires Turn(t, a, b) && k < n <= |Diff.Changes(a, b)| && Takes(t, a, Diff.Changes(a, b)[k])
    ensures Done(After(t, a, b, w, n).tree, w, Diff.Changes(a, b)[k])
    decreases n
  {
    if n == k + 1 {
      TakesEffect(t, a, b, w, k);
      AfterNext(t, a, b, w, k);
    } else {
      DoneFrom(t, a, b, w, k, n - 1);
      StaysDone(t, a, b, w, k, n - 1);
    }
  }

  lemma {:induction false} AllMeetOk(t: Tree, a: Manifest, b: Manifest, w: Tree, k: nat)
    requires Turn(t, a, b) && k <= |Diff.Changes(a, b)| && forall c :: c in Diff.Changes(a, b) ==> Meets(t, a, c)
    ensures After(t, a, b, w, k).ok
  {
    if k == 0 {
      AfterNone(t, a, b, w);
    } else {
      AllMeetOk(t, a, b, w, k - 1);
      assert Diff.Changes(a, b)[k - 1] in Diff.Changes(a, b);
      MeetsSucceeds(t, a, b, w, k - 1);
      AfterNext(t, a, b, w, k - 1);
    }
  }

  lemma OkBefore(t: Tree, a: Manifest, b: Manifest, w: Tree, k: nat)
    requires k < |Diff.Changes(a, b)| && After(t, a, b, w, k + 1).ok
    ensures After(t, a, b, w, k).ok
  {
    AfterNext(t, a, b, w, k);
  }

  lemma {:induction false} OkSoFar(t: Tree, a: Manifest, b: Manifest, w: Tree, k: nat, n: nat)
    requires k <= n <= |Diff.Changes(a, b)| && After(t, a, b, w, n).ok
    ensures After(t, a, b, w, k).ok
  {
    if k < n {
      OkBefore(t, a, b, w, n - 1);
      OkSoFar(t, a, b, w, k, n - 1);
    }
  }

  lemma NewPathHasChange(a: Manifest, b: Manifest, p: string) returns (k: nat)
    requires DistinctPaths(a) && DistinctPaths(b) && p in Index(b) && p !in Index(a)
    ensures k < |Diff.Changes(a, b)| && Diff.Changes(a, b)[k].path == p && Diff.Changes(a, b)[k].op != Delete
  {
    Diff.ChangesExact(a, b);
    var c := Diff.Candidate(Index(a), Index(b), p);
    assert Diff.Calls(Index(a), Index(b), c);
    k :| 0 <= k < |Diff.Changes(a, b)| && Diff.Changes(a, b)[k] == c;
  }

  lemma ObstructedFails(t: Tree, a: Manifest, b: Manifest, w: Tree, p: string, k: nat)
    requires Turn(t, a, b) && p in Index(b) && Obstacle(t, a, p)
    requires k < |Diff.Changes(a, b)| && Diff.Changes(a, b)[k].path == p && Diff.Changes(a, b)[k].op != Delete
    ensures !After(t, a, b, w, k + 1).ok
  {
    ObstacleStays(t, a, b, w, p, k);
    AfterNext(t, a, b, w, k);
    ProgressAt(t, a, b, w, k);
    ProgressStep(t, a, b, w, k);
  }

  lemma ObstructedStaysOut(t: Tree, a: Manifest, b: Manifest, w: Tree, p: string)
    requires Turn(t, a, b) && p in Index(b) && Obstacle(t, a, p)
    ensures p !in After(t, a, b, w, |Diff.Changes(a, b)|).tree.files
  {
    var n := |Diff.Changes(a, b)|;
    ObstacleStays(t, a, b, w, p, n);
    ProgressAt(t, a, b, w, n);
    FileUnblocked(After(t, a, b, w, n).tree, p);
  }

  /** An obstacle survives every change, so the path is never created and its change fails. */
  lemma ConflictFails(t: Tree, a: Manifest, b: Manifest, w: Tree, p: string)
    requires Turn(t, a, b) && p in Index(b) && p !in Index(a) && Obstacle(t, a, p)
    ensures var o := After(t, a, b, w, |Diff.Changes(a, b)|);
      !o.ok && p !in o.tree.files
  {
    var k := NewPathHasChange(a, b, p);
    ObstructedFails(t, a, b, w, p, k);
    ObstructedStaysOut(t, a, b, w, p);
    if After(t, a, b, w, |Diff.Changes(a, b)|).ok {
      OkSoFar(t, a, b, w, k + 1, |Diff.Changes(a, b)|);
    }
  }

  lemma ObstacleStays(t: Tree, a: Manifest, b: Manifest, w: Tree, p: string, k: nat)
    requires Turn(t, a, b) && p in Index(b) && Obstacle(t, a, p) && k <= |Diff.Changes(a, b)|
    ensures p in After(t, a, b, w, k).tree.dirs || Blocked(After(t, a, b, w, k).tree, p)
  {
    ProgressAt(t, a, b, w, k);
    if p in t.dirs {
      NotDeleted(a, b, p, k);
    } else {
      var q :| q in t.files && Ancestor(q, p) && q !in Index(a);
      Unmentioned(t, a, b, w, k, q);
    }
  }

  lemma NotDeleted(a: Manifest, b: Manifest, p: string, k: nat)
    requires DistinctPaths(a) && DistinctPaths(b) && p in Index(b) && k <= |Diff.Changes(a, b)|
    ensures forall i :: 0 <= i < k ==> !(Diff.Changes(a, b)[i].op == Delete && Diff.Changes(a, b)[i].path == p)
  {
    Diff.ChangesExact(a, b);
    forall i | 0 <= i < k ensures !(Diff.Changes(a, b)[i].op == Delete && Diff.Changes(a, b)[i].path == p) {
      assert Diff.Changes(a, b)[i] in Diff.Changes(a, b);
    }
  }

  /** A change with an obstacle in its way is of a path of the new manifest, and that is not written. */
  lemma TakesExactly(t: Tree, a: Manifest, b: Manifest, w: Tree, c: FileChange)
    requires Turn(t, a, b) && c in Diff.Changes(a, b)
    ensures var u := After(t, a, b, w, |Diff.Changes(a, b)|).tree;
      (Done(u, w, c) <==> Takes(t, a, c)) && (!Takes(t, a, c) ==> c.path in Index(b) && c.path !in u.files)
  {
    var cs := Diff.Changes(a, b);
    Diff.ChangesExact(a, b);
    if Takes(t, a, c) {
      var k :| 0 <= k < |cs| && cs[k] == c;
      DoneFrom(t, a, b, w, k, |cs|);
    } else {
      ObstructedStaysOut(t, a, b, w, c.path);
    }
  }

  /**
   Path by path, on any well-formed client, whatever it is missing: a path without a change is as it was; a
   change has its effect, whatever becomes of the others, if and only if it is a delete or has no obstacle in
   its way; and a path of the new manifest with an obstacle is not there.
   */
  lemma PathByPath(t: Tree, a: Manifest, b: Manifest, w: Tree)
    requires Turn(t, a, b)
    ensures var (cs, u) := (Diff.Changes(a, b), ApplyAll(t, Pushes(Diff.Changes(a, b), w)).tree);
      && Valid(u)
      && (forall p :: (forall c :: c in cs ==> c.path != p) ==> Untouched(t, u, p))
      && (forall c :: c in cs ==> (Done(u, w, c) <==> Takes(t, a, c)))
      && (forall p :: p in Index(b) && Obstacle(t, a, p) ==> p !in u.files)
  {
    var cs, n := Diff.Changes(a, b), |Diff.Changes(a, b)|;
    var u := After(t, a, b, w, n).tree;
    assert cs[..n] == cs;
    ProgressAt(t, a, b, w, n);
    forall p | forall c :: c in cs ==> c.path != p ensures Untouched(t, u, p) {
      assert forall i :: 0 <= i < n ==> cs[i] in cs;
    }
    forall c | c in cs ensures Done(u, w, c) <==> Takes(t, a, c) {
      TakesExactly(t, a, b, w, c);
    }
    forall p | p in Index(b) && Obstacle(t, a, p) ensures p !in u.files {
      ObstructedStaysOut(t, a, b, w, p);
    }
  }

  lemma NoConflictMeets(t: Tree, a: Manifest, b: Manifest, c: FileChange)
    requires Covers(t, a) && DistinctPaths(a) && DistinctPaths(b) && c in Diff.Changes(a, b)
    requires forall p :: p in Index(b) && p !in Index(a) ==> !Obstacle(t, a, p)
    ensures Meets(t, a, c)
  {
    Diff.ChangesExact(a, b);
  }

  lemma ConflictIsObstacle(t: Tree, a: Manifest, b: Manifest)
    ensures NoConflict(t, a, b) <==> forall p :: p in Index(b) && p !in Index(a) ==> !Obstacle(t, a, p)
  {
    forall p ensures Obstacle(t, a, p) <==>
      !(p !in t.dirs && forall q :: q in t.files && Ancestor(q, p) ==> q in Index(a))
    {
    }
    if forall p :: p in Index(b) && p !in Index(a) ==> !Obstacle(t, a, p) {
      forall p | p in Index(b) && p !in Index(a)
        ensures p !in t.dirs && forall q :: q in t.files && Ancestor(q, p) ==> q in Index(a)
      {
        assert !Obstacle(t, a, p);
      }
    }
  }

  lemma CoversTurn(t: Tree, a: Manifest, b: Manifest)
    requires Covers(t, a) && DistinctPaths(a) && Consistent(b)
    ensures Turn(t, a, b)
  {
  }

  /**
   Tree-level apply: applied one at a time in list order, every change succeeds exactly when there
   is no conflict; and without a conflict each changed path ends as its change says, every other path
   is as it was. With one, some path of the new manifest is missing.
   */
  lemma ApplySucceedsIff(t: Tree, a: Manifest, b: Manifest, w: Tree)
    requires Covers(t, a) && DistinctPaths(a) && Consistent(b)
    ensures var cs := Diff.Changes(a, b);
      var o := ApplyAll(t, Pushes(cs, w));
      && Valid(o.tree)
      && (o.ok <==> NoConflict(t, a, b))
      && (NoConflict(t, a, b) ==>
            && (forall c :: c in cs ==> Done(o.tree, w, c))
            && (forall p :: (forall c :: c in cs ==> c.path != p) ==> Untouched(t, o.tree, p)))
      && (!NoConflict(t, a, b) ==> exists p :: p in Index(b) && p !in o.tree.files)
  {
    var cs := Diff.Changes(a, b);
    assert cs[..|cs|] == cs;
    CoversTurn(t, a, b);
    ConflictIsObstacle(t, a, b);
    PathByPath(t, a, b, w);
    if NoConflict(t, a, b) {
      forall c | c in cs ensures Meets(t, a, c) && Takes(t, a, c) {
        NoConflictMeets(t, a, b, c);
        MeetsTakes(t, a, c);
      }
      AllMeetOk(t, a, b, w, |cs|);
    } else {
      var p :| p in Index(b) && p !in Index(a) && Obstacle(t, a, p);
      ConflictFails(t, a, b, w, p);
    }
  }

  // ---- A file becoming a directory, and the other way round ----

  /** A directory of synced files that becomes a file always conflicts: deleting the files leaves the directory. */
  lemma DirectoryToFileConflicts(t: Tree, a: Manifest, b: Manifest, p: string, q: string)
    requires Covers(t, a) && Consistent(a) && p in Index(b) && q in Index(a) && Ancestor(p, q)
    ensures !NoConflict(t, a, b)
  {
    assert q in t.files;
    assert p in t.dirs;
  }

  /**
   The manifests alone decide where the client holds nothing but the old manifest's files and the
   directories they need: the turn applies exactly when no new path was a directory of an old one.
   In particular a file may become a directory.
   */
  lemma ManifestsDecide(t: Tree, a: Manifest, b: Manifest)
    requires Covers(t, a) && t.files.Keys == Index(a).Keys && Consistent(b)
    requires forall d :: d in t.dirs && d != "" ==> exists q :: q in Index(a) && Ancestor(d, q)
    ensures NoConflict(t, a, b) <==> forall p, q :: p in Index(b) && p !in Index(a) && q in Index(a) ==> !Ancestor(p, q)
  {
    forall p | p in Index(b) && p !in Index(a)
      ensures p in t.dirs <==> exists q :: q in Index(a) && Ancestor(p, q)
    {
      Paths.CleanPathStays(p);
      if q :| q in Index(a) && Ancestor(p, q) {
        assert q in t.files;
      }
    }
  }

  lemma TwoNames()
    ensures Paths.Split("p") == ["p"] && Paths.CleanPath("p") && Paths.CleanPath("p/x")
  {
    Paths.SplitName("p");
    Paths.SplitName("x");
    assert "p/x" == "p" + "/" + "x";
    Paths.SplitConcat("p", "x");
  }

  /** The smallest instance: `p/x` is replaced by `p`, which the client does not get. */
  lemma ReplacedDirectory(f: File, h: string, g: string, w: Tree)
    ensures var t := Tree(map["p/x" := f], {"", "p"});
      var (a, b) := ([FileEntry("p/x", h, 0, 0x1A4)], [FileEntry("p", g, 0, 0x1A4)]);
      var o := ApplyAll(t, Pushes(Diff.Changes(a, b), w));
      Valid(t) && !o.ok && "p" !in o.tree.files
  {
    var t := Tree(map["p/x" := f], {"", "p"});
    var a, b := [FileEntry("p/x", h, 0, 0x1A4)], [FileEntry("p", g, 0, 0x1A4)];
    TwoNames();
    assert Valid(t) by {
      forall q, r | (r in t.files || r in t.dirs) && Ancestor(q, r) ensures q in t.dirs {
        if q != "" { assert q == r[..|q|] == "p"; }
      }
    }
    assert Index(a[..0]) == map[] && Index(b[..0]) == map[];
    assert "p" in Index(b) && "p/x" in Index(a);
    assert !NoConflict(t, a, b);
    ApplySucceedsIff(t, a, b, w);
  }
}
