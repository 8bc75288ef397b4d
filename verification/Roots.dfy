/** `SafeJoin` below any root at all, relative and unclean ones included (internal/fsutil/fsutil.go). */
module Roots {
  import opened Prelude
  import opened Paths

  /** `filepath.Abs` in working directory `cwd`. */
  function Abs(cwd: string, p: string): string {
    if IsAbs(p) then Clean(p) else Clean(cwd + "/" + p)
  }

  /** `filepath.Join` of a root and a cleaned path: an empty root is left out. */
  function JoinRoot(root: string, clean: string): string {
    Clean(if root == "" then clean else root + "/" + clean)
  }

  function SafeJoinFrom(cwd: string, root: string, rel: string): Result<string> {
    if rel == "" then Err("fsutil: empty path")
    else
      var clean := Clean(rel);
      if IsAbs(clean) || clean == ".." || "../" <= clean then Err("fsutil: unsafe path")
      else
        var joined := JoinRoot(root, clean);
        var rootAbs, joinedAbs := Abs(cwd, root), Abs(cwd, joined);
        if joinedAbs != rootAbs && !(rootAbs + "/" <= joinedAbs) then Err("fsutil: path escapes root")
        else Ok(joined)
  }

  /** The names of the absolute form of a path. */
  function AbsNames(cwd: string, p: string): seq<string> {
    if IsAbs(p) then Normalise(Split(p), true, []) else Normalise(Split(cwd + "/" + p), true, [])
  }

  lemma {:induction false} NormaliseRooted(cs: seq<string>, stack: seq<string>)
    requires Normal(stack) && forall i :: 0 <= i < |cs| ==> '/' !in cs[i]
    ensures Normal(Normalise(cs, true, stack))
    decreases |cs|
  {
    if cs != [] {
      NormaliseRooted(cs[1..], Push(stack, cs[0], true));
    }
  }

  lemma AbsIs(cwd: string, p: string)
    requires IsAbs(cwd)
    ensures Normal(AbsNames(cwd, p)) && Abs(cwd, p) == "/" + Join(AbsNames(cwd, p))
  {
    var q := if IsAbs(p) then p else cwd + "/" + p;
    assert IsAbs(q);
    forall i | 0 <= i < |Split(q)| ensures '/' !in Split(q)[i] { SplitNoSlash(q, i); }
    NormaliseRooted(Split(q), []);
  }

  lemma AbsNamesOfClean(cwd: string, rs: seq<string>)
    requires Normal(rs)
    ensures AbsNames(cwd, "/" + Join(rs)) == rs
  {
    SplitRoot(rs);
    NormaliseTop(rs);
    var top := if rs == [] then [""] else rs;
    assert ([""] + top)[1..] == top;
  }

  // ---- Cleaning a relative path first changes nothing ----

  predicate Plain(cs: seq<string>) {
    forall i :: 0 <= i < |cs| ==> cs[i] != "" && cs[i] != "."
  }

  lemma OneThrough(base: seq<string>, c: string)
    ensures Normalise([c], true, base) == Push(base, c, true)
  {
    assert [c][1..] == [];
  }

  /** A cleaning step on the relative stack is the same step on the absolute one. */
  lemma PushThrough(stack: seq<string>, c: string, base: seq<string>)
    requires Plain(stack)
    ensures Normalise(Push(stack, c, false), true, base) == Push(Normalise(stack, true, base), c, true)
  {
    NormaliseAppend(stack, [c], true, base);
    OneThrough(Normalise(stack, true, base), c);
    if c == ".." && stack != [] && stack[|stack| - 1] != ".." {
      var n := |stack| - 1;
      assert stack == stack[..n] + [stack[n]];
      NormaliseAppend(stack[..n], [stack[n]], true, base);
      OneThrough(Normalise(stack[..n], true, base), stack[n]);
    }
  }

  lemma {:induction false} Renormalise(cs: seq<string>, stack: seq<string>, base: seq<string>)
    requires Plain(stack)
    ensures Normalise(Normalise(cs, false, stack), true, base) == Normalise(cs, true, Normalise(stack, true, base))
    decreases |cs|
  {
    if cs != [] {
      PushThrough(stack, cs[0], base);
      Renormalise(cs[1..], Push(stack, cs[0], false), base);
    }
  }

  /** The components of a cleaned relative path. */
  lemma SplitCleaned(q: seq<string>, base: seq<string>)
    requires Named(q)
    ensures var p := if q == [] then "." else Join(q);
      p != "" && !IsAbs(p) && Normalise(Split(p), true, base) == Normalise(q, true, base)
  {
    if q == [] {
      SplitName(".");
      OneThrough(base, ".");
    } else {
      EscapeTest(q);
      SplitJoin(q);
    }
  }

  lemma BelowCwd(cwd: string, p: string)
    requires !IsAbs(p)
    ensures AbsNames(cwd, p) == Normalise(Split(p), true, Normalise(Split(cwd), true, []))
  {
    SplitConcat(cwd, p);
    NormaliseAppend(Split(cwd), Split(p), true, []);
  }

  // ---- Where the joined path is ----

  lemma SplitJoined(root: string, tail: string, base: seq<string>)
    ensures var full := if root == "" then tail else root + "/" + tail;
      Normalise(Split(full), true, base) == Normalise(Split(tail), true, Normalise(Split(root), true, base))
  {
    if root == "" {
      OneThrough(base, "");
    } else {
      SplitConcat(root, tail);
      NormaliseAppend(Split(root), Split(tail), true, base);
    }
  }

  lemma CleanAbsolute(p: string)
    requires IsAbs(p)
    ensures Clean(p) == "/" + Join(Normalise(Split(p), true, []))
  {
  }

  lemma JoinBelowAbsolute(cwd: string, root: string, n: seq<string>)
    requires IsAbs(cwd) && IsAbs(root) && Normal(n)
    ensures AbsNames(cwd, JoinRoot(root, if n == [] then "." else Join(n))) == AbsNames(cwd, root) + n
  {
    var tail := if n == [] then "." else Join(n);
    var rs := AbsNames(cwd, root);
    AbsIs(cwd, root);
    SplitJoined(root, tail, []);
    NormaliseTail(rs, n);
    CleanAbsolute(root + "/" + tail);
    AbsNamesOfClean(cwd, rs + n);
  }

  lemma CleanedRelative(full: string, base: seq<string>)
    requires full != "" && !IsAbs(full)
    ensures !IsAbs(Clean(full)) && Normalise(Split(Clean(full)), true, base) == Normalise(Split(full), true, base)
  {
    var cs := Split(full);
    var q := Normalise(cs, false, []);
    forall i | 0 <= i < |cs| ensures '/' !in cs[i] { SplitNoSlash(full, i); }
    NormaliseNames(cs, []);
    SplitCleaned(q, base);
    Renormalise(cs, [], base);
    if q != [] { EscapeTest(q); }
    assert Clean(full) == if q == [] then "." else Join(q);
  }

  lemma JoinBelowRelative(cwd: string, root: string, n: seq<string>)
    requires IsAbs(cwd) && !IsAbs(root) && Normal(n)
    ensures AbsNames(cwd, JoinRoot(root, if n == [] then "." else Join(n))) == AbsNames(cwd, root) + n
  {
    var tail := if n == [] then "." else Join(n);
    var full := if root == "" then tail else root + "/" + tail;
    var base := Normalise(Split(cwd), true, []);
    if n != [] { EscapeTest(n); }
    assert full != "" && !IsAbs(full);
    CleanedRelative(full, base);
    SplitJoined(root, tail, base);
    BelowCwd(cwd, root);
    BelowCwd(cwd, Clean(full));
    NormaliseTail(AbsNames(cwd, root), n);
  }

  lemma Within(rs: seq<string>, n: seq<string>)
    requires Normal(rs) && Normal(n)
    ensures var (r, j) := ("/" + Join(rs), "/" + Join(rs + n));
      j == r || r + "/" <= j <==> rs != [] || n == []
  {
    if rs != [] {
      Contained("/" + Join(rs), rs, n);
      if n != [] { assert "/" + Join(rs) + ("/" + Join(n)) == "/" + Join(rs) + "/" + Join(n); }
    } else {
      assert rs + n == n;
      if n != [] {
        EscapeTest(n);
        assert ("/" + Join(n))[1] != '/';
      }
    }
  }

  /**
   For any root, relative or unclean, in any working directory: below a root other than the filesystem's a
   path is accepted exactly when it stays inside, and stands for the root's names followed by its
   normalised ones; below the filesystem's root only paths standing for the root itself are accepted. Where
   the root is absolute, the working directory does not matter.
   */
  lemma SafeJoinAnyRoot(cwd: string, root: string, rel: string)
    requires IsAbs(cwd)
    ensures SafeJoinFrom(cwd, root, rel).Ok? <==>
      StaysInside(rel) && (AbsNames(cwd, root) != [] || Components(rel) == [])
    ensures SafeJoinFrom(cwd, root, rel).Ok? ==>
      && Normal(AbsNames(cwd, root) + Components(rel))
      && Abs(cwd, SafeJoinFrom(cwd, root, rel).value) == "/" + Join(AbsNames(cwd, root) + Components(rel))
    ensures IsAbs(root) ==> SafeJoinFrom(cwd, root, rel) == SafeJoin(root, rel)
  {
    if rel != "" && rel[0] == '/' {
      CleanForm(rel);
    } else if rel != "" {
      CleanRelative(rel);
      if StaysInside(rel) {
        var n := Components(rel);
        AbsIs(cwd, root);
        if IsAbs(root) { JoinBelowAbsolute(cwd, root, n); } else { JoinBelowRelative(cwd, root, n); }
        AbsIs(cwd, JoinRoot(root, Clean(rel)));
        Within(AbsNames(cwd, root), n);
      }
    }
  }
}
