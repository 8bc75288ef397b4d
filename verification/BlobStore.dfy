/** The content-addressed store: files named by hash (internal/adapters/workspace/fsstore/blobstore.go). */
module BlobStore {
  import opened Prelude
  import opened Hashing

  /** A store directory: file name to content, unfinished temporary files included. */
  type Dir = map<string, Bytes>

  function TempName(suffix: string): string {
    ".tmp-" + suffix
  }

  /** Every file whose name is a hash holds content with that hash. */
  ghost predicate Addressed(dir: Dir) {
    forall h :: h in dir && ValidHash(h) ==> HashContent(dir[h]) == h
  }

  /** The hashes the store can serve. */
  ghost function Keys(dir: Dir): set<string> {
    set h | h in dir && ValidHash(h)
  }

  /** `later` still serves every hash `earlier` did, with content of that hash. */
  ghost predicate Extends(earlier: Dir, later: Dir) {
    Keys(earlier) <= Keys(later) && (Addressed(earlier) ==> Addressed(later))
  }

  class Store {
    var dir: Dir

    constructor ()
      ensures dir == map[]
    {
      dir := map[];
    }

    method Has(hash: string) returns (r: Result<bool>)
      ensures r == if ValidHash(hash) then Ok(hash in Keys(dir)) else Err("blobstore: invalid hash")
    {
      if !ValidHash(hash) {
        return Err("blobstore: invalid hash");
      }
      r := Ok(hash in dir);
    }

    /** Writes a temporary file under an unused name, then renames it to the hash. */
    method Put(hash: string, content: Bytes, suffix: string) returns (ok: bool)
      requires TempName(suffix) !in dir
      modifies this
      ensures ok <==> ValidHash(hash) && HashContent(content) == hash
      ensures dir == if ok then old(dir)[hash := content] else old(dir)
      ensures Extends(old(dir), dir)
    {
      if !ValidHash(hash) {
        return false;
      }
      if HashContent(content) != hash {
        return false;
      }
      TempNeverHash(suffix);
      var tmpName := TempName(suffix);
      dir := dir[tmpName := content];
      dir := (dir - {tmpName})[hash := dir[tmpName]];
      dir := dir - {tmpName};  // deferred, and without effect here
      ok := true;
    }

    method Get(hash: string) returns (r: Result<Bytes>)
      ensures r.Ok? <==> hash in Keys(dir)
      ensures r.Ok? ==> r.value == dir[hash] && (Addressed(dir) ==> HashContent(r.value) == hash)
    {
      if !ValidHash(hash) {
        return Err("blobstore: invalid hash");
      }
      if hash !in dir {
        return Err("no such file or directory");
      }
      r := Ok(dir[hash]);
    }
  }

  /** A temporary name is never taken for a hash. */
  lemma TempNeverHash(suffix: string)
    ensures !ValidHash(TempName(suffix))
  {
    assert TempName(suffix)[0] == '.';
  }

  // ---- Concurrent puts ----

  /**
   Where a put is: its content checked, its temporary file written, renamed or not with the deferred removal
   of the temporary name still to run, or over.
   */
  datatype PutPc =
    | Fresh | Checked | Written(suffix: string) | Cleaning(suffix: string, ok: bool)
    | Finished(ok: bool) | Rejected

  datatype Put = Put(hash: string, content: Bytes, pc: PutPc)

  /** The store's directory and every put ever begun. */
  datatype Puts = Puts(dir: Dir, puts: seq<Put>)

  datatype PutStep =
    | Begin(hash: string, content: Bytes)
    | Check(k: nat) | WriteTemp(k: nat, suffix: string) | Rename(k: nat) | Cleanup(k: nat)

  /** A temporary file is created under a name that is free in the directory. */
  predicate PutEnabled(s: Puts, l: PutStep) {
    match l
    case Begin(_, _) => true
    case Check(k) => k < |s.puts| && s.puts[k].pc == Fresh
    case WriteTemp(k, suffix) => k < |s.puts| && s.puts[k].pc == Checked && TempName(suffix) !in s.dir
    case Rename(k) => k < |s.puts| && s.puts[k].pc.Written?
    case Cleanup(k) => k < |s.puts| && s.puts[k].pc.Cleaning?
  }

  function Matching(p: Put): bool {
    ValidHash(p.hash) && HashContent(p.content) == p.hash
  }

  function At(s: Puts, k: nat, dir: Dir, pc: PutPc): Puts
    requires k < |s.puts|
  {
    Puts(dir, s.puts[k := s.puts[k].(pc := pc)])
  }

  /** The check is made once, before the file is written; the rename moves whatever is then under the name. */
  function DoPut(s: Puts, l: PutStep): Puts
    requires PutEnabled(s, l)
  {
    match l
    case Begin(hash, content) => s.(puts := s.puts + [Put(hash, content, Fresh)])
    case Check(k) => At(s, k, s.dir, if Matching(s.puts[k]) then Checked else Rejected)
    case WriteTemp(k, suffix) => At(s, k, s.dir[TempName(suffix) := s.puts[k].content], Written(suffix))
    case Rename(k) =>
      var suffix := s.puts[k].pc.suffix;
      var temp := TempName(suffix);
      if temp in s.dir then At(s, k, (s.dir - {temp})[s.puts[k].hash := s.dir[temp]], Cleaning(suffix, true))
      else At(s, k, s.dir, Cleaning(suffix, false))
    case Cleanup(k) => At(s, k, s.dir - {TempName(s.puts[k].pc.suffix)}, Finished(s.puts[k].pc.ok))
  }

  /** The put still has a claim on a temporary name: it will rename or remove what is under it. */
  predicate Claims(p: Put, suffix: string) {
    (p.pc.Written? || p.pc.Cleaning?) && p.pc.suffix == suffix
  }

  predicate Claimed(s: Puts, suffix: string) {
    exists k :: 0 <= k < |s.puts| && Claims(s.puts[k], suffix)
  }

  /** No temporary name is taken that another unfinished put still has a claim on. */
  predicate Unshared(s: Puts, l: PutStep) {
    l.WriteTemp? ==> !Claimed(s, l.suffix)
  }

  ghost predicate PutInv(p: Put, dir: Dir) {
    match p.pc
    case Fresh => true
    case Rejected => !Matching(p)
    case Checked => Matching(p)
    case Written(suffix) => Matching(p) && TempName(suffix) in dir && dir[TempName(suffix)] == p.content
    case Cleaning(suffix, ok) => Matching(p) && ok && p.hash in dir && TempName(suffix) !in dir
    case Finished(ok) => Matching(p) && ok && p.hash in dir
  }

  ghost predicate OwnNames(puts: seq<Put>) {
    forall j, k :: 0 <= j < k < |puts| && (puts[j].pc.Written? || puts[j].pc.Cleaning?) ==>
      !Claims(puts[k], puts[j].pc.suffix)
  }

  ghost predicate PutsInv(s: Puts) {
    && Addressed(s.dir) && OwnNames(s.puts)
    && forall k :: 0 <= k < |s.puts| ==> PutInv(s.puts[k], s.dir)
  }

  lemma TempInjective(a: string, b: string)
    ensures TempName(a) == TempName(b) <==> a == b
  {
    assert a == TempName(a)[5..] && b == TempName(b)[5..];
  }

  /** What changes in the directory leave a put as it was. */
  lemma PutInvKept(p: Put, dir: Dir, dir': Dir)
    requires PutInv(p, dir)
    requires Matching(p) && p.hash in dir ==> p.hash in dir'
    requires p.pc.Written? ==>
      TempName(p.pc.suffix) in dir' && dir'[TempName(p.pc.suffix)] == dir[TempName(p.pc.suffix)]
    requires p.pc.Cleaning? ==> TempName(p.pc.suffix) !in dir'
    ensures PutInv(p, dir')
  {
  }

  lemma OwnName(s: Puts, j: nat, k: nat)
    requires PutsInv(s) && j < |s.puts| && k < |s.puts| && j != k
    requires (s.puts[j].pc.Written? || s.puts[j].pc.Cleaning?) && (s.puts[k].pc.Written? || s.puts[k].pc.Cleaning?)
    ensures TempName(s.puts[j].pc.suffix) != TempName(s.puts[k].pc.suffix)
  {
    TempInjective(s.puts[j].pc.suffix, s.puts[k].pc.suffix);
    assert !Claims(s.puts[k], s.puts[j].pc.suffix) || !Claims(s.puts[j], s.puts[k].pc.suffix);
  }

  lemma WriteTempInv(s: Puts, k: nat, suffix: string)
    requires PutsInv(s) && PutEnabled(s, WriteTemp(k, suffix)) && !Claimed(s, suffix)
    ensures PutsInv(DoPut(s, WriteTemp(k, suffix)))
  {
    var t := DoPut(s, WriteTemp(k, suffix));
    TempNeverHash(suffix);
    forall j | 0 <= j < |s.puts| && j != k ensures PutInv(s.puts[j], t.dir) {
      assert !Claims(s.puts[j], suffix);
      if s.puts[j].pc.Cleaning? { TempInjective(s.puts[j].pc.suffix, suffix); }
      PutInvKept(s.puts[j], s.dir, t.dir);
    }
    forall j | 0 <= j < |s.puts| ensures !Claims(s.puts[j], suffix) {
    }
  }

  lemma RenameInv(s: Puts, k: nat)
    requires PutsInv(s) && PutEnabled(s, Rename(k))
    ensures PutsInv(DoPut(s, Rename(k)))
  {
    var t, temp := DoPut(s, Rename(k)), TempName(s.puts[k].pc.suffix);
    assert PutInv(s.puts[k], s.dir);
    TempNeverHash(s.puts[k].pc.suffix);
    forall j | 0 <= j < |s.puts| && j != k ensures PutInv(s.puts[j], t.dir) {
      assert PutInv(s.puts[j], s.dir);
      if s.puts[j].pc.Written? || s.puts[j].pc.Cleaning? {
        TempNeverHash(s.puts[j].pc.suffix);
        OwnName(s, j, k);
      }
      PutInvKept(s.puts[j], s.dir, t.dir);
    }
  }

  lemma CleanupInv(s: Puts, k: nat)
    requires PutsInv(s) && PutEnabled(s, Cleanup(k))
    ensures PutsInv(DoPut(s, Cleanup(k))) && DoPut(s, Cleanup(k)).dir == s.dir
  {
    assert PutInv(s.puts[k], s.dir);
    assert s.dir - {TempName(s.puts[k].pc.suffix)} == s.dir;
  }

  lemma CheckInv(s: Puts, l: PutStep)
    requires PutsInv(s) && PutEnabled(s, l) && (l.Begin? || l.Check?)
    ensures PutsInv(DoPut(s, l))
  {
  }

  /** Whatever put steps, with names unshared: the store stays addressed and serves all it served. */
  lemma PutStepExtends(s: Puts, l: PutStep)
    requires PutsInv(s) && PutEnabled(s, l) && Unshared(s, l)
    ensures PutsInv(DoPut(s, l)) && Extends(s.dir, DoPut(s, l).dir)
    ensures Keys(DoPut(s, l).dir) == Keys(s.dir) + if l.Rename? then {s.puts[l.k].hash} else {}
  {
    match l {
      case WriteTemp(k, suffix) =>
        TempNeverHash(suffix);
        WriteTempInv(s, k, suffix);
      case Rename(k) =>
        assert PutInv(s.puts[k], s.dir);
        TempNeverHash(s.puts[k].pc.suffix);
        RenameInv(s, k);
      case Cleanup(k) => CleanupInv(s, k);
      case _ => CheckInv(s, l);
    }
  }

  ghost predicate StepsAt(states: seq<Puts>, steps: seq<PutStep>, k: nat)
    requires k < |steps| < |states|
  {
    PutEnabled(states[k], steps[k]) && Unshared(states[k], steps[k]) && states[k + 1] == DoPut(states[k], steps[k])
  }

  /** A run in which no temporary name is shared. */
  ghost predicate PutRun(states: seq<Puts>, steps: seq<PutStep>) {
    |states| == |steps| + 1 && forall k :: 0 <= k < |steps| ==> StepsAt(states, steps, k)
  }

  lemma {:induction false} PutRunInv(states: seq<Puts>, steps: seq<PutStep>, i: nat, j: nat)
    requires PutRun(states, steps) && i <= j < |states| && PutsInv(states[i])
    ensures PutsInv(states[j]) && Extends(states[i].dir, states[j].dir) && |states[i].puts| <= |states[j].puts|
    decreases j - i
  {
    if i < j {
      PutRunInv(states, steps, i, j - 1);
      assert StepsAt(states, steps, j - 1);
      PutStepExtends(states[j - 1], steps[j - 1]);
    }
  }

  /**
   Over any interleaving of any number of puts, with names unshared: a hash once served is always served,
   with content of that hash; a put succeeds exactly when its content matches its hash, and then the store
   serves it. No step but the first of each put looks at a hash.
   */
  lemma PutsOnlyExtend(states: seq<Puts>, steps: seq<PutStep>, i: nat, j: nat)
    requires PutRun(states, steps) && i <= j < |states| && Addressed(states[0].dir) && states[0].puts == []
    ensures forall h :: h in Keys(states[i].dir) ==>
      h in Keys(states[j].dir) && HashContent(states[j].dir[h]) == HashContent(states[i].dir[h]) == h
    ensures forall k :: 0 <= k < |states[j].puts| ==>
      var p := states[j].puts[k];
      && (p.pc.Rejected? ==> !Matching(p))
      && (p.pc.Finished? ==> Matching(p) && p.pc.ok && p.hash in Keys(states[j].dir))
  {
    PutRunInv(states, steps, 0, i);
    PutRunInv(states, steps, i, j);
    forall k | 0 <= k < |states[j].puts|
      ensures var p := states[j].puts[k];
        && (p.pc.Rejected? ==> !Matching(p))
        && (p.pc.Finished? ==> Matching(p) && p.pc.ok && p.hash in Keys(states[j].dir))
    {
      assert PutInv(states[j].puts[k], states[j].dir);
    }
  }

  // ---- Why names must not be shared ----

  ghost predicate AnyStepAt(states: seq<Puts>, steps: seq<PutStep>, k: nat)
    requires k < |steps| < |states|
  {
    PutEnabled(states[k], steps[k]) && states[k + 1] == DoPut(states[k], steps[k])
  }

  /** A run in which temporary names may be shared. */
  ghost predicate AnyRun(states: seq<Puts>, steps: seq<PutStep>) {
    |states| == |steps| + 1 && forall k :: 0 <= k < |steps| ==> AnyStepAt(states, steps, k)
  }

  predicate Failed(p: Put) {
    (p.pc.Cleaning? || p.pc.Finished?) && !p.pc.ok
  }

  ghost predicate FailsIn(s: Puts, k: nat, states: seq<Puts>, steps: seq<PutStep>, j: nat) {
    AnyRun(states, steps) && states[0] == s && j < |states| && k < |states[j].puts| && Failed(states[j].puts[k])
  }

  /** In no run whatever from `s` does put `k` fail. */
  ghost predicate NeverFails(s: Puts, k: nat) {
    forall states: seq<Puts>, steps: seq<PutStep>, j: nat :: !FailsIn(s, k, states, steps, j)
  }

  /** Put `k` alone has a claim on the name its file is under, or it has got past the rename. */
  ghost predicate Safe(s: Puts, k: nat) {
    && k < |s.puts|
    && match s.puts[k].pc
       case Written(suffix) =>
         TempName(suffix) in s.dir && forall j :: 0 <= j < |s.puts| && j != k ==> !Claims(s.puts[j], suffix)
       case Cleaning(_, ok) => ok
       case Finished(ok) => ok
       case _ => false
  }

  /** While the file is there nobody can take its name. */
  lemma SafeStep(s: Puts, l: PutStep, k: nat)
    requires Safe(s, k) && PutEnabled(s, l)
    ensures Safe(DoPut(s, l), k)
  {
    if s.puts[k].pc.Written? && !l.Begin? && !l.Check? && l.k != k {
      TempInjective(if l.WriteTemp? then l.suffix else s.puts[l.k].pc.suffix, s.puts[k].pc.suffix);
      assert !Claims(s.puts[l.k], s.puts[k].pc.suffix);
    }
  }

  lemma {:induction false} SafeFrom(states: seq<Puts>, steps: seq<PutStep>, j: nat, k: nat)
    requires AnyRun(states, steps) && j < |states| && Safe(states[0], k)
    ensures Safe(states[j], k)
  {
    if j > 0 {
      SafeFrom(states, steps, j - 1, k);
      assert AnyStepAt(states, steps, j - 1);
      SafeStep(states[j - 1], steps[j - 1], k);
    }
  }

  /** A put with another claim on its name: the other's removal, or its rename, leaves it without a file. */
  lemma LosesFile(t: Puts, a: nat, k: nat, suffix: string)
    requires a < |t.puts| && k < |t.puts| && a != k
    requires Claims(t.puts[a], suffix) && t.puts[k].pc == Written(suffix) && Matching(t.puts[a])
    ensures !NeverFails(t, k)
  {
    TempNeverHash(suffix);
    var l := if t.puts[a].pc.Written? then Rename(a) else Cleanup(a);
    var u := DoPut(t, l);
    var states, steps := [t, u, DoPut(u, Rename(k))], [l, Rename(k)];
    assert AnyStepAt(states, steps, 0) && AnyStepAt(states, steps, 1);
    assert FailsIn(t, k, states, steps, 2);
  }

  /** Every put past its check has matching content. */
  predicate AllChecked(s: Puts) {
    forall k :: 0 <= k < |s.puts| ==> s.puts[k].pc.Fresh? || s.puts[k].pc.Rejected? || Matching(s.puts[k])
  }

  lemma CheckedStep(s: Puts, l: PutStep)
    requires AllChecked(s) && PutEnabled(s, l)
    ensures AllChecked(DoPut(s, l))
  {
  }

  lemma {:induction false} CheckedFrom(states: seq<Puts>, steps: seq<PutStep>, j: nat)
    requires AnyRun(states, steps) && states[0].puts == [] && j < |states|
    ensures AllChecked(states[j])
  {
    if j > 0 {
      CheckedFrom(states, steps, j - 1);
      assert AnyStepAt(states, steps, j - 1);
      CheckedStep(states[j - 1], steps[j - 1]);
    }
  }

  lemma SharedCanFail(s: Puts, k: nat, suffix: string)
    requires AllChecked(s) && PutEnabled(s, WriteTemp(k, suffix)) && Claimed(s, suffix)
    ensures !NeverFails(DoPut(s, WriteTemp(k, suffix)), k)
  {
    var a :| 0 <= a < |s.puts| && Claims(s.puts[a], suffix);
    LosesFile(DoPut(s, WriteTemp(k, suffix)), a, k, suffix);
  }

  /**
   In any run of puts, names shared or not: a put that has just taken a free name can never fail, whatever
   the puts do from there on, if and only if no other unfinished put has a claim on the name.
   */
  lemma SharedNameFails(states: seq<Puts>, steps: seq<PutStep>, k: nat, suffix: string)
    requires AnyRun(states, steps) && states[0].puts == []
    requires PutEnabled(states[|steps|], WriteTemp(k, suffix))
    ensures NeverFails(DoPut(states[|steps|], WriteTemp(k, suffix)), k) <==> !Claimed(states[|steps|], suffix)
  {
    CheckedFrom(states, steps, |steps|);
    if Claimed(states[|steps|], suffix) {
      SharedCanFail(states[|steps|], k, suffix);
    } else {
      UnsharedIsSafe(states[|steps|], k, suffix);
    }
  }

  lemma UnsharedIsSafe(s: Puts, k: nat, suffix: string)
    requires PutEnabled(s, WriteTemp(k, suffix)) && !Claimed(s, suffix)
    ensures NeverFails(DoPut(s, WriteTemp(k, suffix)), k)
  {
    var t := DoPut(s, WriteTemp(k, suffix));
    forall j | 0 <= j < |s.puts| ensures !Claims(s.puts[j], suffix) {
    }
    assert Safe(t, k);
    forall states: seq<Puts>, steps: seq<PutStep>, j: nat ensures !FailsIn(t, k, states, steps, j) {
      if AnyRun(states, steps) && states[0] == t && j < |states| {
        SafeFrom(states, steps, j, k);
      }
    }
  }

  /** And with a third put taking the name in between, the store comes to serve content under another's hash. */
  lemma SharedNameCorrupts(s: Puts, a: nat, k: nat, c: nat, suffix: string)
    requires PutsInv(s) && PutEnabled(s, WriteTemp(k, suffix)) && a < |s.puts| && Claims(s.puts[a], suffix)
    requires c < |s.puts| && c != k && s.puts[c].pc == Checked && s.puts[c].hash != s.puts[k].hash
    ensures var t := DoPut(s, WriteTemp(k, suffix));
      && PutEnabled(t, Cleanup(a))
      && var u := DoPut(t, Cleanup(a));
      && PutEnabled(u, WriteTemp(c, suffix))
      && var v := DoPut(u, WriteTemp(c, suffix));
      && PutEnabled(v, Rename(k)) && !Addressed(DoPut(v, Rename(k)).dir)
  {
    assert PutInv(s.puts[a], s.dir) && PutInv(s.puts[k], s.dir) && PutInv(s.puts[c], s.dir);
    var t := DoPut(s, WriteTemp(k, suffix));
    var u := DoPut(t, Cleanup(a));
    var v := DoPut(u, WriteTemp(c, suffix));
    assert DoPut(v, Rename(k)).dir[s.puts[k].hash] == s.puts[c].content;
  }
}
