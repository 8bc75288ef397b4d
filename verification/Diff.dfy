/** The difference of two manifests (internal/fsutil/fsutil.go, `Diff`). */
module Diff {
  import opened Domain
  import opened Order

  /** The change a new entry calls for, if any. */
  function Upsert(oldIdx: map<string, FileEntry>, e: FileEntry): seq<FileChange> {
    if e.path !in oldIdx then [FileChange(Create, e.path, e.hash, e.mode)]
    else if oldIdx[e.path].hash != e.hash || oldIdx[e.path].mode != e.mode then
      [FileChange(Modify, e.path, e.hash, e.mode)]
    else []
  }

  function Upserts(oldIdx: map<string, FileEntry>, m: Manifest): seq<FileChange> {
    if m == [] then [] else Upserts(oldIdx, m[..|m| - 1]) + Upsert(oldIdx, m[|m| - 1])
  }

  function Removal(newIdx: map<string, FileEntry>, e: FileEntry): seq<FileChange> {
    if e.path in newIdx then [] else [FileChange(Delete, e.path, "", 0)]
  }

  function Removals(newIdx: map<string, FileEntry>, m: Manifest): seq<FileChange> {
    if m == [] then [] else Removals(newIdx, m[..|m| - 1]) + Removal(newIdx, m[|m| - 1])
  }

  function Changes(a: Manifest, b: Manifest): seq<FileChange> {
    SortBy(Upserts(Index(a), b) + Removals(Index(b), a), ChangePath)
  }

  lemma PrefixNext(idx: map<string, FileEntry>, m: Manifest, i: nat)
    requires i < |m|
    ensures Upserts(idx, m[..i + 1]) == Upserts(idx, m[..i]) + Upsert(idx, m[i])
    ensures Removals(idx, m[..i + 1]) == Removals(idx, m[..i]) + Removal(idx, m[i])
  {
    assert m[..i + 1][..i] == m[..i];
  }

  method Diff(oldM: Manifest, newM: Manifest) returns (changes: seq<FileChange>)
    ensures changes == Changes(oldM, newM)
  {
    var oldIdx := ByPath(oldM);
    var newIdx := ByPath(newM);
    changes := [];
    for i := 0 to |newM|
      invariant changes == Upserts(oldIdx, newM[..i])
    {
      PrefixNext(oldIdx, newM, i);
      var e := newM[i];
      if e.path !in oldIdx {
        changes := changes + [FileChange(Create, e.path, e.hash, e.mode)];
      } else if oldIdx[e.path].hash != e.hash || oldIdx[e.path].mode != e.mode {
        changes := changes + [FileChange(Modify, e.path, e.hash, e.mode)];
      }
    }
    assert newM[..|newM|] == newM;
    ghost var upserts := changes;
    for i := 0 to |oldM|
      invariant changes == upserts + Removals(newIdx, oldM[..i])
    {
      PrefixNext(newIdx, oldM, i);
      var e := oldM[i];
      if e.path !in newIdx {
        changes := changes + [FileChange(Delete, e.path, "", 0)];
      }
    }
    assert oldM[..|oldM|] == oldM;
    changes := SortBy(changes, ChangePath);
  }

  // ---- What the list contains ----

  /** The one change a path calls for, given both indexes. */
  ghost predicate Calls(a: map<string, FileEntry>, b: map<string, FileEntry>, c: FileChange) {
    if c.path in b then
      && c.hash == b[c.path].hash && c.mode == b[c.path].mode
      && c.op == (if c.path in a then Modify else Create)
      && (c.path in a ==> a[c.path].hash != c.hash || a[c.path].mode != c.mode)
    else
      c.path in a && c == FileChange(Delete, c.path, "", 0)
  }

  lemma {:induction false} UpsertsMembers(oldIdx: map<string, FileEntry>, m: Manifest, c: FileChange)
    ensures c in Upserts(oldIdx, m) <==> exists i :: 0 <= i < |m| && c in Upsert(oldIdx, m[i])
  {
    if m != [] {
      var n := |m| - 1;
      UpsertsMembers(oldIdx, m[..n], c);
      assert forall i :: 0 <= i < n ==> m[..n][i] == m[i];
    }
  }

  lemma {:induction false} RemovalsMembers(newIdx: map<string, FileEntry>, m: Manifest, c: FileChange)
    ensures c in Removals(newIdx, m) <==> exists i :: 0 <= i < |m| && c in Removal(newIdx, m[i])
  {
    if m != [] {
      var n := |m| - 1;
      RemovalsMembers(newIdx, m[..n], c);
      assert forall i :: 0 <= i < n ==> m[..n][i] == m[i];
    }
  }

  lemma {:induction false} UpsertsDistinct(oldIdx: map<string, FileEntry>, m: Manifest)
    requires DistinctPaths(m)
    ensures DistinctKeys(Upserts(oldIdx, m), ChangePath)
  {
    if m != [] {
      var n := |m| - 1;
      UpsertsDistinct(oldIdx, m[..n]);
      var u := Upserts(oldIdx, m[..n]);
      forall k | 0 <= k < |u| ensures u[k].path != m[n].path {
        UpsertsMembers(oldIdx, m[..n], u[k]);
      }
    }
  }

  lemma {:induction false} RemovalsDistinct(newIdx: map<string, FileEntry>, m: Manifest)
    requires DistinctPaths(m)
    ensures DistinctKeys(Removals(newIdx, m), ChangePath)
  {
    if m != [] {
      var n := |m| - 1;
      RemovalsDistinct(newIdx, m[..n]);
      var u := Removals(newIdx, m[..n]);
      forall k | 0 <= k < |u| ensures u[k].path != m[n].path {
        RemovalsMembers(newIdx, m[..n], u[k]);
      }
    }
  }

  lemma ChangesSorted(a: Manifest, b: Manifest)
    requires DistinctPaths(a) && DistinctPaths(b)
    ensures StrictlySorted(Changes(a, b), ChangePath)
  {
    var us, rs := Upserts(Index(a), b), Removals(Index(b), a);
    UpsertsDistinct(Index(a), b);
    RemovalsDistinct(Index(b), a);
    IndexDistinct(b);
    forall i, j | 0 <= i < |us| && 0 <= j < |rs| ensures us[i].path != rs[j].path {
      UpsertsMembers(Index(a), b, us[i]);
      RemovalsMembers(Index(b), a, rs[j]);
    }
    SortBySorted(us + rs, ChangePath);
  }

  lemma ChangesMembers(a: Manifest, b: Manifest, c: FileChange)
    ensures c in Changes(a, b) <==> c in Upserts(Index(a), b) || c in Removals(Index(b), a)
  {
    var raw := Upserts(Index(a), b) + Removals(Index(b), a);
    assert c in Changes(a, b) <==> c in multiset(Changes(a, b));
    assert c in raw <==> c in multiset(raw);
  }

  lemma Shapes(idx: map<string, FileEntry>, e: FileEntry, c: FileChange)
    ensures c in Upsert(idx, e) ==> c.path == e.path && c.op != Delete
    ensures c in Removal(idx, e) ==> c.op == Delete
  {
  }

  /** Every change that is not a delete is for a path of the new manifest, even if the old one has duplicates. */
  lemma UpsertPaths(a: Manifest, b: Manifest, c: FileChange)
    requires c in Changes(a, b) && c.op != Delete
    ensures c.path in Index(b)
  {
    ChangesMembers(a, b, c);
    if c in Upserts(Index(a), b) {
      UpsertPath(Index(a), b, c);
    } else {
      RemovalIsDelete(Index(b), a, c);
    }
  }

  lemma RemovalIsDelete(idx: map<string, FileEntry>, m: Manifest, c: FileChange)
    requires c in Removals(idx, m)
    ensures c.op == Delete
  {
    RemovalsMembers(idx, m, c);
    var i :| 0 <= i < |m| && c in Removal(idx, m[i]);
    Shapes(idx, m[i], c);
  }

  lemma UpsertPath(idx: map<string, FileEntry>, m: Manifest, c: FileChange)
    requires c in Upserts(idx, m)
    ensures c.path in Index(m)
  {
    UpsertsMembers(idx, m, c);
    var i :| 0 <= i < |m| && c in Upsert(idx, m[i]);
    Shapes(idx, m[i], c);
    IndexIsLast(m, c.path);
  }

  lemma UpsertsCalled(a: Manifest, b: Manifest, c: FileChange)
    requires DistinctPaths(a) && DistinctPaths(b)
    ensures c in Upserts(Index(a), b) <==> Calls(Index(a), Index(b), c) && c.path in Index(b)
  {
    UpsertsMembers(Index(a), b, c);
    IndexDistinct(b);
    if c.path in Index(b) { assert Index(b)[c.path] in b; }
  }

  lemma RemovalsCalled(a: Manifest, b: Manifest, c: FileChange)
    requires DistinctPaths(a) && DistinctPaths(b)
    ensures c in Removals(Index(b), a) <==> Calls(Index(a), Index(b), c) && c.path !in Index(b)
  {
    RemovalsMembers(Index(b), a, c);
    IndexDistinct(a);
    if c.path in Index(a) { assert Index(a)[c.path] in a; }
  }

  /** For duplicate-free manifests the list is strictly sorted by path and holds exactly the changes called for. */
  lemma ChangesExact(a: Manifest, b: Manifest)
    requires DistinctPaths(a) && DistinctPaths(b)
    ensures StrictlySorted(Changes(a, b), ChangePath)
    ensures forall c :: c in Changes(a, b) <==> Calls(Index(a), Index(b), c)
  {
    ChangesSorted(a, b);
    var raw := Upserts(Index(a), b) + Removals(Index(b), a);
    forall c ensures c in Changes(a, b) <==> Calls(Index(a), Index(b), c) {
      assert c in Changes(a, b) <==> c in multiset(Changes(a, b));
      assert c in raw <==> c in multiset(raw);
      UpsertsCalled(a, b, c);
      RemovalsCalled(a, b, c);
    }
  }

  // ---- The algebra on path maps ----

  /** What a change list can see of a file: its hash and mode. */
  datatype Stamp = Stamp(hash: string, mode: Mode)

  function Stamps(m: Manifest): map<string, Stamp> {
    map p | p in Index(m) :: Stamp(Index(m)[p].hash, Index(m)[p].mode)
  }

  function ApplyOne(m: map<string, Stamp>, c: FileChange): map<string, Stamp> {
    if c.op == Delete then m - {c.path} else m[c.path := Stamp(c.hash, c.mode)]
  }

  function ApplyFlat(m: map<string, Stamp>, cs: seq<FileChange>): map<string, Stamp> {
    if cs == [] then m else ApplyOne(ApplyFlat(m, cs[..|cs| - 1]), cs[|cs| - 1])
  }

  /** With one change per path, each path ends as its own change says, or as it was. */
  lemma {:induction false} ApplyFlatAt(m: map<string, Stamp>, cs: seq<FileChange>, p: string)
    requires DistinctKeys(cs, ChangePath)
    ensures var r := ApplyFlat(m, cs);
      && (forall c :: c in cs && c.path == p ==>
            if c.op == Delete then p !in r else p in r && r[p] == Stamp(c.hash, c.mode))
      && ((forall c :: c in cs ==> c.path != p) ==> (p in r <==> p in m) && (p in m ==> r[p] == m[p]))
  {
    if cs != [] {
      var n := |cs| - 1;
      ApplyFlatAt(m, cs[..n], p);
      forall c | c in cs && c.path == p
        ensures var r := ApplyFlat(m, cs);
          if c.op == Delete then p !in r else p in r && r[p] == Stamp(c.hash, c.mode)
      {
        var k :| 0 <= k < |cs| && cs[k] == c;
        if k < n { assert cs[..n][k] == c && ChangePath(cs[k]) != ChangePath(cs[n]); }
      }
      if forall c :: c in cs ==> c.path != p {
        assert cs[n] in cs;
      }
    }
  }

  /** The change a path calls for, when it calls for one. */
  function Candidate(a: map<string, FileEntry>, b: map<string, FileEntry>, p: string): FileChange {
    if p in b then FileChange(if p in a then Modify else Create, p, b[p].hash, b[p].mode)
    else FileChange(Delete, p, "", 0)
  }

  lemma OnlyCandidate(a: map<string, FileEntry>, b: map<string, FileEntry>, c: FileChange)
    requires Calls(a, b, c)
    ensures c == Candidate(a, b, c.path)
  {
  }

  /** Any list of exactly the changes called for takes one map to the other, in any order. */
  lemma FlatAt(a: Manifest, b: Manifest, cs: seq<FileChange>, p: string)
    requires DistinctKeys(cs, ChangePath) && forall c :: c in cs <==> Calls(Index(a), Index(b), c)
    ensures var r := ApplyFlat(Stamps(a), cs);
      (p in r <==> p in Stamps(b)) && (p in Stamps(b) ==> r[p] == Stamps(b)[p])
  {
    ApplyFlatAt(Stamps(a), cs, p);
    var c := Candidate(Index(a), Index(b), p);
    if c !in cs {
      forall d | d in cs ensures d.path != p {
        OnlyCandidate(Index(a), Index(b), d);
      }
    }
  }

  lemma DiffAppliesAt(a: Manifest, b: Manifest, p: string)
    requires DistinctPaths(a) && DistinctPaths(b)
    ensures var r := ApplyFlat(Stamps(a), Changes(a, b));
      (p in r <==> p in Stamps(b)) && (p in Stamps(b) ==> r[p] == Stamps(b)[p])
  {
    ChangesExact(a, b);
    SortedDistinct(Changes(a, b), ChangePath);
    FlatAt(a, b, Changes(a, b), p);
  }

  /** Applying the difference of a and b to a's path map gives b's. */
  lemma DiffApplies(a: Manifest, b: Manifest)
    requires DistinctPaths(a) && DistinctPaths(b)
    ensures ApplyFlat(Stamps(a), Changes(a, b)) == Stamps(b)
  {
    var r := ApplyFlat(Stamps(a), Changes(a, b));
    forall p ensures (p in r <==> p in Stamps(b)) && (p in Stamps(b) ==> r[p] == Stamps(b)[p]) {
      DiffAppliesAt(a, b, p);
    }
  }

  /** The difference mentions exactly the paths whose stamps differ, so it is empty exactly when the maps agree. */
  lemma DiffMinimal(a: Manifest, b: Manifest, p: string)
    requires DistinctPaths(a) && DistinctPaths(b)
    ensures (exists c :: c in Changes(a, b) && c.path == p) <==>
      !((p in Stamps(a) <==> p in Stamps(b)) && (p in Stamps(a) && p in Stamps(b) ==> Stamps(a)[p] == Stamps(b)[p]))
    ensures Changes(a, b) == [] <==> Stamps(a) == Stamps(b)
  {
    ChangesExact(a, b);
    DiffApplies(a, b);
    assert Candidate(Index(a), Index(b), p).path == p;
    if Changes(a, b) != [] {
      CallsDiffer(a, b, Changes(a, b)[0]);
    }
  }

  lemma CallsDiffer(a: Manifest, b: Manifest, c: FileChange)
    requires Calls(Index(a), Index(b), c)
    ensures Stamps(a) != Stamps(b)
  {
    assert c.path in Stamps(a) && c.path in Stamps(b) ==> Stamps(a)[c.path] != Stamps(b)[c.path];
  }

  /** Two successive differences have the effect of the direct one. */
  lemma DiffComposes(a: Manifest, b: Manifest, c: Manifest)
    requires DistinctPaths(a) && DistinctPaths(b) && DistinctPaths(c)
    ensures ApplyFlat(ApplyFlat(Stamps(a), Changes(a, b)), Changes(b, c)) == ApplyFlat(Stamps(a), Changes(a, c))
  {
    DiffApplies(a, b);
    DiffApplies(b, c);
    DiffApplies(a, c);
  }
}
