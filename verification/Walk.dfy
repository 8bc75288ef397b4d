/** Building a manifest by walking a tree (internal/fsutil/fsutil.go, `WalkManifest`). */
module Walk {
  import opened Prelude
  import opened Domain
  import opened Trees
  import opened Hashing
  import opened Order
  import Paths

  /** Limits of 0 mean unlimited. */
  datatype Options = Options(ignore: (string, bool) -> bool, maxFileSize: nat, maxTotalSize: nat)

  function IgnoreNothing(p: string, isDir: bool): bool {
    false
  }

  const UNLIMITED := Options(IgnoreNothing, 0, 0)

  function Base(p: string): string {
    p[LastSlash(p) + 1..]
  }

  predicate DefaultIgnored(name: string) {
    name == ".git" || name == "node_modules" || name == ".claude"
  }

  predicate SkipDir(opts: Options, d: string) {
    DefaultIgnored(Base(d)) || opts.ignore(d + "/", true)
  }

  function EntryOf(t: Tree, p: string): FileEntry
    requires p in t.files
  {
    FileEntry(p, HashContent(t.files[p].content), |t.files[p].content|, Perm(t.files[p].mode))
  }

  // ---- The flat specification ----

  /** No directory strictly above `p` is pruned. */
  predicate Reached(opts: Options, p: string) {
    forall q :: q in Ancestors(p) && q != "" ==> !SkipDir(opts, q)
  }

  ghost function Kept(t: Tree, opts: Options): set<string> {
    set p | p in t.files && p != "" && Reached(opts, p) && !opts.ignore(p, false)
  }

  // ---- Which files are kept, name by name ----

  /** The part of a path up to its k-th name. */
  function Prefix(p: string, k: nat): string
    requires k <= |Paths.Split(p)|
  {
    Paths.Join(Paths.Split(p)[..k])
  }

  lemma BaseOf(d: string, n: string)
    requires '/' !in n
    ensures Base(n) == n && Base(d + "/" + n) == n
  {
    var p := d + "/" + n;
    assert p[|d|] == '/' && p[|d| + 1..] == n;
    assert forall i :: |d| < i < |p| ==> p[i] == n[i - |d| - 1] && p[i] in n;
  }

  /** The directories above a path end at its names but the last. */
  lemma AboveIsPrefix(q: string, p: string) returns (k: nat)
    requires Ancestor(q, p) && q != ""
    ensures 0 < k < |Paths.Split(p)| && q == Prefix(p, k)
  {
    var r := p[|q| + 1..];
    assert p == q + "/" + r;
    Paths.SplitConcat(q, r);
    k := |Paths.Split(q)|;
    assert Paths.Split(p)[..k] == Paths.Split(q);
    Paths.JoinSplit(q);
  }

  lemma PrefixIsAbove(p: string, k: nat)
    requires Paths.CleanPath(p) && 0 < k < |Paths.Split(p)|
    ensures Ancestor(Prefix(p, k), p) && Prefix(p, k) != "" && Base(Prefix(p, k)) == Paths.Split(p)[k - 1]
  {
    var cs := Paths.Split(p);
    var a, b := cs[..k], cs[k..];
    assert cs == a + b;
    Paths.JoinSplit(p);
    Paths.JoinAppend(a, b);
    assert Paths.NormalName(cs[0]) && Paths.NormalName(cs[k - 1]);
    if k == 1 {
      BaseOf("", cs[0]);
    } else {
      assert a == a[..k - 1] + [cs[k - 1]];
      Paths.JoinAppend(a[..k - 1], [cs[k - 1]]);
      BaseOf(Paths.Join(a[..k - 1]), cs[k - 1]);
    }
  }

  /** A directory the walk does not descend into, by its name and by its path with a slash after it. */
  ghost predicate Pruned(opts: Options, p: string, k: nat)
    requires 0 < k <= |Paths.Split(p)|
  {
    var name := Paths.Split(p)[k - 1];
    name == ".git" || name == "node_modules" || name == ".claude" || opts.ignore(Prefix(p, k) + "/", true)
  }

  /**
   Which files a manifest lists: those of which no directory above, at any depth, is called .git, node_modules or
   .claude or is ignored as a directory, and which are not ignored themselves.
   */
  lemma KeptExact(t: Tree, opts: Options, p: string)
    requires Valid(t)
    ensures p in Kept(t, opts) <==>
      && p in t.files && p != "" && !opts.ignore(p, false)
      && forall k :: 0 < k < |Paths.Split(p)| ==> !Pruned(opts, p, k)
  {
    if p in t.files && p != "" {
      if Reached(opts, p) {
        forall k | 0 < k < |Paths.Split(p)| ensures !Pruned(opts, p, k) {
          PrefixIsAbove(p, k);
          AncestorsAre(p, Prefix(p, k));
        }
      }
      if forall k :: 0 < k < |Paths.Split(p)| ==> !Pruned(opts, p, k) {
        forall q | q in Ancestors(p) && q != "" ensures !SkipDir(opts, q) {
          AncestorsAre(p, q);
          var k := AboveIsPrefix(q, p);
          PrefixIsAbove(p, k);
          assert !Pruned(opts, p, k);
        }
      }
    }
  }

  /** A snapshot, which ignores nothing, leaves out only what is below the three names. */
  lemma SnapshotKeeps(t: Tree, p: string)
    requires Valid(t)
    ensures p in Kept(t, UNLIMITED) <==>
      && p in t.files && p != ""
      && forall k :: 0 <= k < |Paths.Split(p)| - 1 ==> Paths.Split(p)[k] !in {".git", "node_modules", ".claude"}
  {
    KeptExact(t, UNLIMITED, p);
    forall k | 0 < k < |Paths.Split(p)|
      ensures Pruned(UNLIMITED, p, k) <==> Paths.Split(p)[k - 1] in {".git", "node_modules", ".claude"}
    {
    }
    forall k | 0 <= k < |Paths.Split(p)| - 1
      ensures Pruned(UNLIMITED, p, k + 1) <==> Paths.Split(p)[k] in {".git", "node_modules", ".claude"}
    {
    }
  }

  ghost function TotalSize(t: Tree, s: set<string>): nat
    requires s <= t.files.Keys
  {
    if s == {} then 0
    else
      var p :| p in s;
      |t.files[p].content| + TotalSize(t, s - {p})
  }

  lemma TotalSizeAdd(t: Tree, s: set<string>, p: string)
    requires s <= t.files.Keys && p in t.files && p !in s
    ensures TotalSize(t, s + {p}) == TotalSize(t, s) + |t.files[p].content|
    decreases |s|
  {
    var s' := s + {p};
    var q :| q in s' && TotalSize(t, s') == |t.files[q].content| + TotalSize(t, s' - {q});
    if q == p {
      assert s' - {q} == s;
    } else {
      TotalSizeAdd(t, s - {q}, p);
      assert s' - {q} == (s - {q}) + {p};
      TotalSizeAdd(t, s - {q}, q);
      assert (s - {q}) + {q} == s;
    }
  }

  lemma TotalSizeMonotone(t: Tree, a: set<string>, b: set<string>)
    requires a <= b <= t.files.Keys
    ensures TotalSize(t, a) <= TotalSize(t, b)
    decreases |b - a|
  {
    if a != b {
      var p :| p in b && p !in a;
      TotalSizeAdd(t, a, p);
      assert b - (a + {p}) < b - a;
      SubsetCard(b - (a + {p}), b - a);
      TotalSizeMonotone(t, a + {p}, b);
    }
  }

  lemma SubsetCard(a: set<string>, b: set<string>)
    requires a < b
    ensures |a| < |b|
  {
    var c := b - a;
    assert b == a + c && c != {};
  }

  ghost predicate Oversize(t: Tree, opts: Options, p: string) {
    p in t.files && opts.maxFileSize > 0 && |t.files[p].content| > opts.maxFileSize
  }

  /** Some kept file is too large, or the kept files are together. */
  ghost predicate TooLarge(t: Tree, opts: Options) {
    || (exists p :: p in Kept(t, opts) && Oversize(t, opts, p))
    || (opts.maxTotalSize > 0 && TotalSize(t, Kept(t, opts)) > opts.maxTotalSize)
  }

  ghost function EntrySet(t: Tree, opts: Options): set<FileEntry> {
    set p | p in Kept(t, opts) :: EntryOf(t, p)
  }

  /** The manifest of a tree: the kept files, each once, strictly sorted by path. */
  ghost predicate ManifestOf(t: Tree, opts: Options, m: Manifest) {
    StrictlySorted(m, EntryPath) && Elements(m) == EntrySet(t, opts)
  }

  /** A manifest is determined by the tree, and is indexed by exactly the kept paths. */
  lemma ManifestUnique(t: Tree, opts: Options, m: Manifest, n: Manifest)
    requires ManifestOf(t, opts, m) && ManifestOf(t, opts, n)
    ensures m == n
  {
    SortedUnique(m, n, EntryPath);
  }

  lemma ManifestIndex(t: Tree, opts: Options, m: Manifest)
    requires ManifestOf(t, opts, m)
    ensures DistinctPaths(m) && Index(m).Keys == Kept(t, opts)
    ensures forall p :: p in Kept(t, opts) ==> Index(m)[p] == EntryOf(t, p)
  {
    SortedDistinct(m, EntryPath);
    forall i, j | 0 <= i < j < |m| ensures m[i].path != m[j].path {
      assert EntryPath(m[i]) != EntryPath(m[j]);
    }
    IndexDistinct(m);
    forall p | p in Kept(t, opts) ensures p in Index(m) && Index(m)[p] == EntryOf(t, p) {
      assert EntryOf(t, p) in EntrySet(t, opts);
      assert EntryOf(t, p) in Elements(m);
    }
    forall p | p in Index(m) ensures p in Kept(t, opts) {
      assert Index(m)[p] in Elements(m);
      assert Index(m)[p] in EntrySet(t, opts);
    }
  }

  /** What a manifest says of a file: its content's hash and length, and its nine permission bits. */
  lemma ManifestEntries(t: Tree, opts: Options, m: Manifest, p: string)
    requires ManifestOf(t, opts, m) && p in Kept(t, opts)
    ensures p in Index(m)
    ensures var f := t.files[p];
      Index(m)[p] == FileEntry(p, HexEncode(Sum256(f.content)), |f.content|, f.mode % 0x200)
  {
    ManifestIndex(t, opts, m);
  }

  /** The limits: a file may have as many bytes as its limit, all together as many as theirs, and 0 is no limit. */
  lemma LimitsExact(t: Tree, opts: Options)
    ensures !TooLarge(t, opts) <==>
      && (forall p :: p in Kept(t, opts) ==> opts.maxFileSize == 0 || |t.files[p].content| <= opts.maxFileSize)
      && (opts.maxTotalSize == 0 || TotalSize(t, Kept(t, opts)) <= opts.maxTotalSize)
  {
    forall p | p in Kept(t, opts)
      ensures Oversize(t, opts, p) <==> opts.maxFileSize != 0 && |t.files[p].content| > opts.maxFileSize
    {
    }
  }

  // ---- Directory reading ----

  function Children(t: Tree, d: string): set<string> {
    set p | p in t.files.Keys + t.dirs && p != "" && Parent(p) == d
  }

  function Identity(s: string): string {
    s
  }

  lemma InsertElements(p: string, names: seq<string>)
    ensures Elements(Insert(p, names, Identity)) == Elements(names) + {p}
  {
    var more := Insert(p, names, Identity);
    forall x ensures x in more <==> x == p || x in names {
      assert x in more <==> x in multiset(more);
    }
  }

  /** `os.ReadDir`: the entries of a directory in name order. */
  method ReadDir(t: Tree, d: string) returns (names: seq<string>)
    ensures StrictlySorted(names, Identity) && Elements(names) == Children(t, d)
  {
    names := SortedNames(Children(t, d));
  }

  method SortedNames(s: set<string>) returns (names: seq<string>)
    ensures StrictlySorted(names, Identity) && Elements(names) == s
  {
    names := [];
    var todo := s;
    while todo != {}
      invariant StrictlySorted(names, Identity)
      invariant Elements(names) + todo == s && Elements(names) !! todo
      decreases |todo|
    {
      var p :| p in todo;
      NewName(p, names);
      InsertSorted(p, names, Identity);
      InsertElements(p, names);
      names := Insert(p, names, Identity);
      todo := todo - {p};
    }
  }

  lemma NewName(p: string, names: seq<string>)
    requires p !in Elements(names)
    ensures forall y :: y in names ==> Identity(y) != Identity(p)
  {
  }

  /** Everything below `d` is a child of `d` or below one. */
  lemma {:induction false} ChildToward(d: string, p: string) returns (c: string)
    requires Ancestor(d, p)
    ensures c != "" && Parent(c) == d && (c == p || Ancestor(c, p))
    decreases |p|
  {
    ParentIsNearest(p, d);
    if Parent(p) == d {
      c := p;
    } else {
      c := ChildToward(d, Parent(p));
      ParentIsNearest(p, c);
    }
  }

  lemma ParentIsAbove(c: string)
    requires c != ""
    ensures Ancestor(Parent(c), c)
  {
    ParentIsNearest(c, Parent(c));
  }

  lemma BelowBoth(a: string, b: string, p: string)
    requires (p == a || Ancestor(a, p)) && (p == b || Ancestor(b, p)) && a != "" && b != "" && |a| <= |b|
    ensures a == b || Ancestor(a, b)
  {
    assert p[..|a|] == a && p[..|b|] == b;
    assert b[..|a|] == a;
  }

  /** Nothing is at or below two different children of one directory. */
  lemma SameChild(a: string, b: string, p: string)
    requires a != "" && b != "" && Parent(a) == Parent(b)
    requires (p == a || Ancestor(a, p)) && (p == b || Ancestor(b, p))
    ensures a == b
  {
    if |a| <= |b| {
      BelowBoth(a, b, p);
      ParentIsNearest(b, a);
    } else {
      BelowBoth(b, a, p);
      ParentIsNearest(a, b);
    }
  }

  // ---- The walk ----

  /** What the walk's callback accumulates. */
  datatype Acc = Acc(entries: seq<FileEntry>, total: nat)

  ghost predicate Collected(t: Tree, opts: Options, acc: Acc, seen: set<string>) {
    && seen <= Kept(t, opts) && DistinctPaths(acc.entries)
    && Elements(acc.entries) == (set p | p in seen :: EntryOf(t, p))
    && acc.total == TotalSize(t, seen)
    && (forall p :: p in seen ==> !Oversize(t, opts, p))
    && (opts.maxTotalSize > 0 ==> acc.total <= opts.maxTotalSize)
  }

  lemma CollectOne(t: Tree, opts: Options, acc: Acc, seen: set<string>, p: string)
    requires Collected(t, opts, acc, seen) && p in Kept(t, opts) && p !in seen && !Oversize(t, opts, p)
    requires opts.maxTotalSize > 0 ==> acc.total + |t.files[p].content| <= opts.maxTotalSize
    ensures Collected(t, opts, Acc(acc.entries + [EntryOf(t, p)], acc.total + |t.files[p].content|), seen + {p})
  {
    TotalSizeAdd(t, seen, p);
    var es := acc.entries + [EntryOf(t, p)];
    assert Elements(es) == Elements(acc.entries) + {EntryOf(t, p)};
    forall i, j | 0 <= i < j < |es| ensures es[i].path != es[j].path {
      assert acc.entries[i] in Elements(acc.entries);
    }
  }

  /** Running over the total limit on a part of the kept files means they are over it together. */
  lemma OverTotal(t: Tree, opts: Options, seen: set<string>, p: string)
    requires seen <= Kept(t, opts) && p in Kept(t, opts) && p !in seen
    requires opts.maxTotalSize > 0 && TotalSize(t, seen) + |t.files[p].content| > opts.maxTotalSize
    ensures TooLarge(t, opts)
  {
    TotalSizeAdd(t, seen, p);
    TotalSizeMonotone(t, seen + {p}, Kept(t, opts));
  }

  predicate AtOrBelow(c: string, p: string) {
    p == c || Ancestor(c, p)
  }

  ghost function Below(t: Tree, opts: Options, d: string): set<string> {
    set p | p in Kept(t, opts) && Ancestor(d, p)
  }

  ghost function BelowAny(t: Tree, opts: Options, cs: seq<string>): set<string> {
    set p | p in Kept(t, opts) && exists c :: c in cs && AtOrBelow(c, p)
  }

  ghost function Part(t: Tree, opts: Options, c: string): set<string> {
    set p | p in Kept(t, opts) && AtOrBelow(c, p)
  }

  ghost function DirsUnder(t: Tree, d: string): set<string> {
    set q | q in t.dirs && AtOrBelow(d, q)
  }

  lemma ChildShrinks(t: Tree, d: string, c: string)
    requires d in t.dirs && c != "" && Parent(c) == d
    ensures DirsUnder(t, c) < DirsUnder(t, d)
  {
    ParentIsAbove(c);
    forall q | q in DirsUnder(t, c) ensures q in DirsUnder(t, d) && q != d {
      if Ancestor(c, q) { AncestorTransitive(d, c, q); }
    }
    assert d in DirsUnder(t, d);
  }

  lemma BelowIsChildren(t: Tree, opts: Options, d: string, names: seq<string>)
    requires Valid(t) && Elements(names) == Children(t, d)
    ensures BelowAny(t, opts, names) == Below(t, opts, d)
  {
    forall p | p in Kept(t, opts) ensures p in BelowAny(t, opts, names) <==> Ancestor(d, p) {
      if p in BelowAny(t, opts, names) {
        var c :| c in names && AtOrBelow(c, p);
        assert c in Elements(names);
        ParentIsAbove(c);
        if c != p { AncestorTransitive(d, c, p); }
      }
      if Ancestor(d, p) {
        var c := ChildToward(d, p);
        assert c in Elements(names);
      }
    }
  }

  lemma BelowAnyNext(t: Tree, opts: Options, names: seq<string>, i: nat)
    requires i < |names|
    ensures BelowAny(t, opts, names[..i + 1]) == BelowAny(t, opts, names[..i]) + Part(t, opts, names[i])
  {
    assert names[..i + 1] == names[..i] + [names[i]];
  }

  /** Nothing at or below the next child has been seen yet. */
  lemma ChildFresh(t: Tree, opts: Options, d: string, names: seq<string>, i: nat, seen: set<string>, p: string)
    requires i < |names| && StrictlySorted(names, Identity) && Elements(names) == Children(t, d)
    requires forall q :: q in seen ==> !Ancestor(d, q)
    requires p in seen + BelowAny(t, opts, names[..i])
    ensures !AtOrBelow(names[i], p)
  {
    var c := names[i];
    assert c in Elements(names);
    ParentIsAbove(c);
    if AtOrBelow(c, p) {
      if p != c { AncestorTransitive(d, c, p); }
      var b :| b in names[..i] && AtOrBelow(b, p);
      var j :| 0 <= j < i && names[j] == b;
      assert b in Elements(names);
      SortedDistinct(names, Identity);
      assert Identity(names[j]) != Identity(names[i]);
      SameChild(b, c, p);
    }
  }

  lemma PrunedPart(t: Tree, opts: Options, c: string)
    requires Valid(t) && c in t.dirs && c != "" && SkipDir(opts, c)
    ensures Part(t, opts, c) == {}
  {
    forall p | p in Part(t, opts, c) ensures false {
      AncestorsAre(p, c);
    }
  }

  lemma DirPart(t: Tree, opts: Options, c: string)
    requires Valid(t) && c in t.dirs
    ensures Part(t, opts, c) == Below(t, opts, c)
  {
  }

  lemma FilePart(t: Tree, opts: Options, c: string)
    requires Valid(t) && c in t.files && c != "" && Reached(opts, c)
    ensures Part(t, opts, c) == if opts.ignore(c, false) then {} else {c}
  {
  }

  lemma ReachedChild(opts: Options, d: string, c: string)
    requires Reached(opts, d) && (d == "" || !SkipDir(opts, d)) && c != "" && Parent(c) == d
    ensures Reached(opts, c)
  {
    forall q | q in Ancestors(c) && q != "" ensures !SkipDir(opts, q) {
      AncestorsAre(c, q);
      ParentIsNearest(c, q);
      AncestorsAre(d, q);
    }
  }

  /** What has been collected once everything of a part has been visited, or why the walk stopped. */
  ghost predicate Visited(t: Tree, opts: Options, r: Result<Acc>, seen: set<string>, part: set<string>,
      seen': set<string>)
  {
    if r.Ok? then seen' == seen + part && Collected(t, opts, r.value, seen') else TooLarge(t, opts)
  }

  /** The walk's callback on a regular file. */
  method VisitFile(t: Tree, opts: Options, c: string, acc: Acc, ghost seen: set<string>)
    returns (r: Result<Acc>, ghost seen': set<string>)
    requires Valid(t) && c in t.files && c != "" && Reached(opts, c)
    requires Collected(t, opts, acc, seen) && c !in seen
    ensures Visited(t, opts, r, seen, Part(t, opts, c), seen')
  {
    seen' := seen;
    FilePart(t, opts, c);
    if opts.ignore(c, false) {
      return Ok(acc), seen;
    }
    assert c in Part(t, opts, c);
    var size := |t.files[c].content|;
    if opts.maxFileSize > 0 && size > opts.maxFileSize {
      assert Oversize(t, opts, c);
      return Err("fsutil: exceeds max file size"), seen;
    }
    var total := acc.total + size;
    if opts.maxTotalSize > 0 && total > opts.maxTotalSize {
      OverTotal(t, opts, seen, c);
      return Err("fsutil: project exceeds max total size"), seen;
    }
    CollectOne(t, opts, acc, seen, c);
    return Ok(Acc(acc.entries + [EntryOf(t, c)], total)), seen + {c};
  }

  /** The walk's callback on a directory, and what follows: skip it, or descend. */
  method VisitDir(t: Tree, opts: Options, c: string, acc: Acc, ghost seen: set<string>)
    returns (r: Result<Acc>, ghost seen': set<string>)
    requires Valid(t) && c in t.dirs && c != "" && Reached(opts, c)
    requires Collected(t, opts, acc, seen) && forall p :: p in seen ==> !AtOrBelow(c, p)
    ensures Visited(t, opts, r, seen, Part(t, opts, c), seen')
    decreases DirsUnder(t, c), 1
  {
    if SkipDir(opts, c) {
      PrunedPart(t, opts, c);
      return Ok(acc), seen;
    }
    DirPart(t, opts, c);
    r, seen' := WalkDir(t, opts, c, acc, seen);
  }

  lemma AllFresh(t: Tree, opts: Options, d: string, names: seq<string>, i: nat, seen: set<string>)
    requires i < |names| && StrictlySorted(names, Identity) && Elements(names) == Children(t, d)
    requires forall q :: q in seen ==> !Ancestor(d, q)
    ensures forall p :: p in seen + BelowAny(t, opts, names[..i]) ==> !AtOrBelow(names[i], p)
  {
    forall p | p in seen + BelowAny(t, opts, names[..i]) ensures !AtOrBelow(names[i], p) {
      ChildFresh(t, opts, d, names, i, seen, p);
    }
  }

  /** The recursive descent below a directory that is not pruned. */
  method WalkDir(t: Tree, opts: Options, d: string, acc: Acc, ghost seen: set<string>)
    returns (r: Result<Acc>, ghost seen': set<string>)
    requires Valid(t) && d in t.dirs && Reached(opts, d) && (d == "" || !SkipDir(opts, d))
    requires Collected(t, opts, acc, seen) && forall q :: q in seen ==> !Ancestor(d, q)
    ensures Visited(t, opts, r, seen, Below(t, opts, d), seen')
    decreases DirsUnder(t, d), 0
  {
    var names := ReadDir(t, d);
    r := Ok(acc);
    seen' := seen;
    for i := 0 to |names|
      invariant r.Ok? && Visited(t, opts, r, seen, BelowAny(t, opts, names[..i]), seen')
    {
      var c := names[i];
      assert c in Elements(names);
      ReachedChild(opts, d, c);
      BelowAnyNext(t, opts, names, i);
      AllFresh(t, opts, d, names, i, seen);
      if c in t.dirs {
        ChildShrinks(t, d, c);
        r, seen' := VisitDir(t, opts, c, r.value, seen');
      } else {
        r, seen' := VisitFile(t, opts, c, r.value, seen');
      }
      if r.Err? {
        return;
      }
    }
    assert names[..|names|] == names;
    BelowIsChildren(t, opts, d, names);
  }

  lemma CollectedAll(t: Tree, opts: Options, acc: Acc)
    requires Collected(t, opts, acc, Kept(t, opts))
    ensures !TooLarge(t, opts) && ManifestOf(t, opts, SortBy(acc.entries, EntryPath))
  {
    var es := acc.entries;
    forall i, j | 0 <= i < j < |es| ensures EntryPath(es[i]) != EntryPath(es[j]) {
    }
    SortBySorted(es, EntryPath);
    MultisetElements(SortBy(es, EntryPath), es);
  }

  /** The manifest of the flat specification, or an error exactly when the kept files are too large. */
  method WalkManifest(t: Tree, opts: Options) returns (r: Result<Manifest>)
    requires Valid(t) && "" in t.dirs
    ensures r.Ok? <==> !TooLarge(t, opts)
    ensures r.Ok? ==> ManifestOf(t, opts, r.value)
  {
    assert Below(t, opts, "") == Kept(t, opts);
    ghost var seen;
    var walked;
    walked, seen := WalkDir(t, opts, "", Acc([], 0), {});
    if walked.Err? {
      return Err(walked.error);
    }
    assert {} + Kept(t, opts) == Kept(t, opts);
    CollectedAll(t, opts, walked.value);
    r := Ok(SortBy(walked.value.entries, EntryPath));
  }

  /** The manifest a walk without limits returns. */
  ghost function SnapshotOf(t: Tree): Manifest {
    SortBy(Entries(t, Enumerate(Kept(t, UNLIMITED))), EntryPath)
  }

  ghost function Enumerate(s: set<string>): seq<string>
    decreases |s|
  {
    if s == {} then []
    else
      var p :| p in s;
      [p] + Enumerate(s - {p})
  }

  ghost function Entries(t: Tree, ps: seq<string>): seq<FileEntry> {
    if ps == [] then [] else (if ps[0] in t.files then [EntryOf(t, ps[0])] else []) + Entries(t, ps[1..])
  }

  lemma {:induction false} EntriesAre(t: Tree, s: set<string>)
    requires s <= t.files.Keys
    ensures Elements(Entries(t, Enumerate(s))) == (set p | p in s :: EntryOf(t, p))
    ensures DistinctKeys(Entries(t, Enumerate(s)), EntryPath)
    decreases |s|
  {
    if s != {} {
      var p := Enumerate(s)[0];
      var rest := Entries(t, Enumerate(s - {p}));
      assert Enumerate(s)[1..] == Enumerate(s - {p});
      EntriesAre(t, s - {p});
      assert Entries(t, Enumerate(s)) == [EntryOf(t, p)] + rest;
      assert Elements([EntryOf(t, p)] + rest) == {EntryOf(t, p)} + Elements(rest);
      assert (set q | q in s :: EntryOf(t, q)) == {EntryOf(t, p)} + (set q | q in s - {p} :: EntryOf(t, q));
      forall e | e in rest ensures EntryPath(e) != p {
        assert e in Elements(rest);
      }
    }
  }

  lemma SnapshotIsManifest(t: Tree)
    ensures ManifestOf(t, UNLIMITED, SnapshotOf(t))
  {
    var es := Entries(t, Enumerate(Kept(t, UNLIMITED)));
    EntriesAre(t, Kept(t, UNLIMITED));
    SortBySorted(es, EntryPath);
    MultisetElements(SnapshotOf(t), es);
  }

  /** A walk without limits never fails and returns the snapshot. */
  lemma UnlimitedWalk(t: Tree, m: Manifest)
    ensures !TooLarge(t, UNLIMITED)
    ensures ManifestOf(t, UNLIMITED, m) <==> m == SnapshotOf(t)
  {
    SnapshotIsManifest(t);
    if ManifestOf(t, UNLIMITED, m) {
      ManifestUnique(t, UNLIMITED, m, SnapshotOf(t));
    }
  }
}
