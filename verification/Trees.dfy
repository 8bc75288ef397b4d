/** Directory trees of regular files, and the operating-system calls that change them. */
module Trees {
  import opened Prelude
  import opened Domain
  import Paths
  import Order

  datatype File = File(content: Bytes, mode: Mode)

  /** Files and directories by slash-separated path below the root; the root itself is "". */
  datatype Tree = Tree(files: map<string, File>, dirs: set<string>)

  predicate Ancestor(q: string, p: string) {
    if q == "" then p != "" else |q| < |p| && p[|q|] == '/' && p[..|q|] == q
  }

  /** No path is both file and directory, names are ordinary, and everything lies in directories. */
  ghost predicate Valid(t: Tree) {
    && t.files.Keys !! t.dirs
    && (forall p :: p in t.files || p in t.dirs ==> p == "" || Paths.CleanPath(p))
    && (forall p, q :: (p in t.files || p in t.dirs) && Ancestor(q, p) ==> q in t.dirs)
  }

  lemma AncestorLess(q: string, p: string)
    requires Ancestor(q, p)
    ensures Order.Less(q, p) && q != p && !Ancestor(p, q)
  {
    Order.PrefixLess(q, p);
  }

  lemma AncestorTransitive(a: string, b: string, c: string)
    requires Ancestor(a, b) && Ancestor(b, c)
    ensures Ancestor(a, c)
  {
    if a != "" {
      assert c[..|b|] == b;
      assert c[|a|] == b[|a|];
      assert c[..|a|] == b[..|a|];
    }
  }

  // ---- Parents ----

  function LastSlash(p: string): (i: int)
    ensures -1 <= i < |p| && (i >= 0 ==> p[i] == '/')
    ensures forall j :: i < j < |p| ==> p[j] != '/'
  {
    if p == "" then -1
    else if p[|p| - 1] == '/' then |p| - 1
    else LastSlash(p[..|p| - 1])
  }

  /** `filepath.Dir`, below the root. */
  function Parent(p: string): string {
    if LastSlash(p) < 0 then "" else p[..LastSlash(p)]
  }

  function Ancestors(p: string): set<string> {
    if p == "" then {} else {""} + set i | 0 < i < |p| && p[i] == '/' :: p[..i]
  }

  lemma AncestorsAre(p: string, q: string)
    ensures q in Ancestors(p) <==> Ancestor(q, p)
  {
    if Ancestor(q, p) && q != "" {
      assert p[..|q|] == q;
    }
  }

  lemma ParentIsNearest(p: string, q: string)
    requires p != ""
    ensures Ancestor(q, p) <==> q == Parent(p) || Ancestor(q, Parent(p))
  {
    var i := LastSlash(p);
    if Ancestor(q, p) && q != "" && |q| < i {
      assert Parent(p)[..|q|] == q;
    }
    if i >= 0 && Ancestor(q, Parent(p)) && q != "" {
      assert p[..|q|] == Parent(p)[..|q|];
    }
  }

  // ---- System calls ----

  const EISDIR := "is a directory"
  const ENOTDIR := "not a directory"
  const ENOENT := "no such file or directory"
  const ENOTEMPTY := "directory not empty"

  /** Some file stands where `p` needs a directory. */
  predicate Blocked(t: Tree, p: string) {
    exists q :: q in t.files && Ancestor(q, p)
  }

  /** `os.MkdirAll` */
  function MkdirAll(t: Tree, d: string): Result<Tree> {
    if d in t.dirs then Ok(t)
    else if d in t.files || Blocked(t, d) then Err(ENOTDIR)
    else Ok(t.(dirs := t.dirs + {d} + Ancestors(d)))
  }

  /** `os.Remove`: a file, or an empty directory. */
  function Remove(t: Tree, p: string): Result<Tree> {
    if p in t.files then Ok(t.(files := t.files - {p}))
    else if p in t.dirs then
      if (exists q :: q in t.files && Ancestor(p, q)) || (exists q :: q in t.dirs && Ancestor(p, q)) then Err(ENOTEMPTY)
      else Ok(t.(dirs := t.dirs - {p}))
    else if Blocked(t, p) then Err(ENOTDIR)
    else Err(ENOENT)
  }

  /** `os.Rename` of a finished temporary file onto `p`, whose directory exists. */
  function RenameOnto(t: Tree, f: File, p: string): Result<Tree> {
    if p in t.dirs then Err(EISDIR) else Ok(t.(files := t.files[p := f]))
  }

  /** `os.ReadFile` of a path joined below the root; paths that leave the root read nothing. */
  function ReadAt(t: Tree, path: string): Option<Bytes> {
    if !Paths.StaysInside(path) then None
    else
      var p := Paths.Join(Paths.Components(path));
      if p in t.files then Some(t.files[p].content) else None
  }

  /** An ordinary path reads the file of that name. */
  lemma ReadClean(t: Tree, p: string)
    requires Paths.CleanPath(p)
    ensures ReadAt(t, p) == if p in t.files then Some(t.files[p].content) else None
  {
    Paths.CleanPathStays(p);
  }

  lemma MkdirAllValid(t: Tree, d: string)
    requires Valid(t) && (d == "" || Paths.CleanPath(d)) && MkdirAll(t, d).Ok?
    ensures Valid(MkdirAll(t, d).value)
  {
    var t' := MkdirAll(t, d).value;
    if d !in t.dirs {
      forall p | p in t'.dirs ensures p == "" || Paths.CleanPath(p) {
        AncestorsAre(d, p);
        if Ancestor(p, d) && p != "" { CleanAncestor(p, d); }
      }
      forall p | p in t'.dirs ensures p !in t.files {
        AncestorsAre(d, p);
      }
      forall p, q | (p in t'.files || p in t'.dirs) && Ancestor(q, p) ensures q in t'.dirs {
        AncestorsAre(d, p);
        AncestorsAre(d, q);
        if Ancestor(p, d) { AncestorTransitive(q, p, d); }
      }
    }
  }

  lemma CleanAncestor(q: string, p: string)
    requires Ancestor(q, p) && q != "" && Paths.CleanPath(p)
    ensures Paths.CleanPath(q)
  {
    assert p == q + "/" + p[|q| + 1..];
    Paths.SplitConcat(q, p[|q| + 1..]);
    var cs, qs := Paths.Split(p), Paths.Split(q);
    forall i | 0 <= i < |qs| ensures Paths.NormalName(qs[i]) {
      assert cs[i] == qs[i];
    }
  }

  lemma CleanParent(p: string)
    requires p != "" && Paths.CleanPath(p)
    ensures Parent(p) == "" || Paths.CleanPath(Parent(p))
  {
    ParentIsNearest(p, Parent(p));
    if Parent(p) != "" { CleanAncestor(Parent(p), p); }
  }

  // ---- Making the directories of a path, then the file ----

  lemma BlockedByParent(t: Tree, p: string)
    requires Valid(t) && p != ""
    ensures Blocked(t, p) <==> MkdirAll(t, Parent(p)).Err?
  {
    forall q | q in t.files ensures Ancestor(q, p) <==> q == Parent(p) || Ancestor(q, Parent(p)) {
      ParentIsNearest(p, q);
    }
  }

  lemma ParentDirs(t: Tree, p: string)
    requires Valid(t) && p != "" && MkdirAll(t, Parent(p)).Ok?
    ensures MkdirAll(t, Parent(p)).value == Tree(t.files, t.dirs + Ancestors(p))
    ensures p in t.dirs ==> MkdirAll(t, Parent(p)).value == t
    ensures p !in Ancestors(p)
  {
    forall q ensures q in Ancestors(p) <==> q == Parent(p) || q in Ancestors(Parent(p)) {
      ParentIsNearest(p, q);
      AncestorsAre(p, q);
      AncestorsAre(Parent(p), q);
    }
    AncestorsAre(p, p);
    ParentIsNearest(p, Parent(p));
    if Parent(p) in t.dirs {
      forall q | q in Ancestors(p) ensures q in t.dirs {
        AncestorsAre(p, q);
        ParentIsNearest(p, q);
      }
    }
  }

  /** A file can be placed exactly where no directory stands and no file stands above. */
  lemma Place(t: Tree, p: string, f: File)
    requires Valid(t) && Paths.CleanPath(p)
    ensures p != ""
    ensures var made := MkdirAll(t, Parent(p));
      && (made.Ok? && RenameOnto(made.value, f, p).Ok? <==> p !in t.dirs && !Blocked(t, p))
      && (made.Ok? && RenameOnto(made.value, f, p).Ok? ==>
            && RenameOnto(made.value, f, p).value == Tree(t.files[p := f], t.dirs + Ancestors(p))
            && Valid(RenameOnto(made.value, f, p).value))
      && (made.Ok? && RenameOnto(made.value, f, p).Err? ==> made.value == t)
  {
    Paths.CleanPathStays(p);
    BlockedByParent(t, p);
    if MkdirAll(t, Parent(p)).Ok? {
      ParentDirs(t, p);
      CleanParent(p);
      MkdirAllValid(t, Parent(p));
      var made := MkdirAll(t, Parent(p)).value;
      if p !in t.dirs {
        forall q | Ancestor(q, p) ensures q in made.dirs { AncestorsAre(p, q); }
        PutValid(made, p, f);
      }
    }
  }

  lemma PutValid(t: Tree, p: string, f: File)
    requires Valid(t) && Paths.CleanPath(p) && p !in t.dirs && forall q :: Ancestor(q, p) ==> q in t.dirs
    ensures Valid(t.(files := t.files[p := f]))
  {
  }
}
