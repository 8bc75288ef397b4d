/** Business values shared by both sides: entries, manifests and changes (internal/core/domain/domain.go). */
module Domain {

  type Mode = bv32

  datatype FileEntry = FileEntry(path: string, hash: string, size: nat, mode: Mode)

  type Manifest = seq<FileEntry>

  datatype ChangeOp = Create | Modify | Delete

  datatype FileChange = FileChange(op: ChangeOp, path: string, hash: string, mode: Mode)

  function EntryPath(e: FileEntry): string {
    e.path
  }

  function ChangePath(c: FileChange): string {
    c.path
  }

  /** The permission bits a mode is reduced to before use. */
  function Perm(m: Mode): Mode {
    m & 0x1FF
  }

  /** Permissions 0 are replaced by 0644 when a file is written. */
  function EffectiveMode(m: Mode): Mode {
    if Perm(m) == 0 then 0x1A4 else Perm(m)
  }

  /** The low nine bits, rwxrwxrwx, are kept as they are, and nothing else is. */
  lemma PermExact(m: Mode)
    ensures Perm(m) == m % 0x200
    ensures m <= 0x1FF ==> Perm(m) == m
  {
  }

  /** A file is written with the permissions asked for, or with rw-r--r-- if none are. */
  lemma EffectiveModeExact(m: Mode)
    ensures EffectiveMode(m) == if m % 0x200 == 0 then 0x1A4 else m % 0x200
    ensures 0 < m <= 0x1FF ==> EffectiveMode(m) == m
  {
  }

  /** The path index of a manifest; a later entry for a path replaces an earlier one. */
  function Index(m: Manifest): map<string, FileEntry> {
    if m == [] then map[]
    else Index(m[..|m| - 1])[m[|m| - 1].path := m[|m| - 1]]
  }

  method ByPath(m: Manifest) returns (idx: map<string, FileEntry>)
    ensures idx == Index(m)
  {
    idx := map[];
    for i := 0 to |m|
      invariant idx == Index(m[..i])
    {
      assert m[..i + 1][..i] == m[..i];
      idx := idx[m[i].path := m[i]];
    }
    assert m[..|m|] == m;
  }

  /** The index maps each path to its last entry, and nothing else. */
  lemma {:induction false} IndexIsLast(m: Manifest, p: string)
    ensures p in Index(m) <==> exists i :: 0 <= i < |m| && m[i].path == p
    ensures p in Index(m) ==>
      exists i :: 0 <= i < |m| && m[i].path == p && m[i] == Index(m)[p] && forall j :: i < j < |m| ==> m[j].path != p
  {
    if m != [] {
      var n := |m| - 1;
      IndexIsLast(m[..n], p);
      if m[n].path != p && p in Index(m[..n]) {
        var i :| 0 <= i < n && m[..n][i].path == p && m[..n][i] == Index(m[..n])[p]
          && forall j :: i < j < n ==> m[..n][j].path != p;
        assert m[i] == m[..n][i];
        forall j | i < j < |m| ensures m[j].path != p {
          if j < n { assert m[j] == m[..n][j]; }
        }
      } else if m[n].path != p {
        forall i | 0 <= i < |m| ensures m[i].path != p {
          if i < n { assert m[i] == m[..n][i]; }
        }
      }
    }
  }

  /** The content hashes a manifest mentions. */
  ghost function Hashes(m: Manifest): set<string> {
    set e | e in m :: e.hash
  }

  ghost predicate DistinctPaths(m: Manifest) {
    forall i, j :: 0 <= i < j < |m| ==> m[i].path != m[j].path
  }

  lemma IndexDistinct(m: Manifest)
    requires DistinctPaths(m)
    ensures forall e :: e in m ==> e.path in Index(m) && Index(m)[e.path] == e
    ensures forall p :: p in Index(m) ==> Index(m)[p] in m && Index(m)[p].path == p
  {
    forall e | e in m ensures e.path in Index(m) && Index(m)[e.path] == e {
      IndexIsLast(m, e.path);
    }
    forall p | p in Index(m) ensures Index(m)[p] in m && Index(m)[p].path == p {
      IndexIsLast(m, p);
    }
  }
}
