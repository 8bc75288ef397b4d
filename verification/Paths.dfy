/** Lexical paths: cleaning and the contained join (internal/fsutil/fsutil.go, `SafeJoin`). */
module Paths {
  import opened Prelude

  /** The components between slashes; always at least one. */
  function Split(s: string): (cs: seq<string>)
    ensures |cs| > 0
  {
    if s == "" then [""]
    else Prepend(s[0], Split(s[1..]))
  }

  function Prepend(c: char, t: seq<string>): (cs: seq<string>)
    requires |t| > 0
    ensures |cs| > 0
  {
    if c == '/' then [""] + t else [[c] + t[0]] + t[1..]
  }

  function Join(cs: seq<string>): string {
    if cs == [] then ""
    else if |cs| == 1 then cs[0]
    else cs[0] + "/" + Join(cs[1..])
  }

  /** One cleaning step: drop "" and ".", let ".." undo a name, keep a leading ".." unless rooted. */
  function Push(stack: seq<string>, c: string, rooted: bool): seq<string> {
    if c == "" || c == "." then stack
    else if c != ".." then stack + [c]
    else if stack != [] && stack[|stack| - 1] != ".." then stack[..|stack| - 1]
    else if rooted then stack
    else stack + [".."]
  }

  function Normalise(cs: seq<string>, rooted: bool, stack: seq<string>): seq<string>
    decreases |cs|
  {
    if cs == [] then stack else Normalise(cs[1..], rooted, Push(stack, cs[0], rooted))
  }

  predicate IsAbs(p: string) {
    p != "" && p[0] == '/'
  }

  /** The rules of `filepath.Clean` on a slash-separated system. */
  function Clean(p: string): string {
    var out := (if IsAbs(p) then "/" else "") + Join(Normalise(Split(p), IsAbs(p), []));
    if out == "" then "." else out
  }

  /** `SafeJoin` for an absolute root, so that `filepath.Abs` is `Clean`. */
  function SafeJoin(root: string, rel: string): Result<string>
    requires IsAbs(root)
  {
    if rel == "" then Err("fsutil: empty path")
    else
      var clean := Clean(rel);
      if IsAbs(clean) || clean == ".." || "../" <= clean then Err("fsutil: unsafe path")
      else
        var joined := Clean(root + "/" + clean);
        var rootAbs, joinedAbs := Clean(root), Clean(joined);
        if joinedAbs != rootAbs && !(rootAbs + "/" <= joinedAbs) then Err("fsutil: path escapes root")
        else Ok(joined)
  }

  // ---- Component facts ----

  /** A name a file can have. */
  predicate NormalName(c: string) {
    c != "" && c != "." && c != ".." && '/' !in c
  }

  predicate Normal(cs: seq<string>) {
    forall i :: 0 <= i < |cs| ==> NormalName(cs[i])
  }

  /** The running component depth never drops below zero. */
  predicate DepthOk(cs: seq<string>, depth: nat)
    decreases |cs|
  {
    if cs == [] then true
    else if cs[0] == "" || cs[0] == "." then DepthOk(cs[1..], depth)
    else if cs[0] != ".." then DepthOk(cs[1..], depth + 1)
    else depth > 0 && DepthOk(cs[1..], depth - 1)
  }

  lemma {:induction false} SplitNoSlash(s: string, i: nat)
    requires i < |Split(s)|
    ensures '/' !in Split(s)[i]
  {
    if s != "" {
      var t := Split(s[1..]);
      if s[0] == '/' {
        if i > 0 { SplitNoSlash(s[1..], i - 1); }
      } else {
        SplitNoSlash(s[1..], i);
      }
    }
  }

  lemma PrependConcat(c: char, x: seq<string>, y: seq<string>)
    requires |x| > 0
    ensures Prepend(c, x + y) == Prepend(c, x) + y
  {
  }

  lemma {:induction false} SplitConcat(a: string, b: string)
    ensures Split(a + "/" + b) == Split(a) + Split(b)
  {
    if a == "" {
      assert (a + "/" + b)[1..] == b;
    } else {
      SplitConcat(a[1..], b);
      assert (a + "/" + b)[1..] == a[1..] + "/" + b && (a + "/" + b)[0] == a[0];
      PrependConcat(a[0], Split(a[1..]), Split(b));
    }
  }

  lemma {:induction false} SplitName(c: string)
    requires '/' !in c
    ensures Split(c) == [c]
  {
    if c != "" {
      SplitName(c[1..]);
      assert [c[0]] + c[1..] == c;
    }
  }

  lemma {:induction false} SplitJoin(cs: seq<string>)
    requires cs != [] && forall i :: 0 <= i < |cs| ==> '/' !in cs[i]
    ensures Split(Join(cs)) == cs
  {
    SplitName(cs[0]);
    if |cs| > 1 {
      SplitJoin(cs[1..]);
      SplitConcat(cs[0], Join(cs[1..]));
    }
  }

  lemma {:induction false} JoinSplit(s: string)
    ensures Join(Split(s)) == s
  {
    if s != "" {
      JoinSplit(s[1..]);
      var t := Split(s[1..]);
      if s[0] == '/' {
        assert ([""] + t)[1..] == t;
      } else if |t| > 1 {
        assert [[s[0]] + t[0]] + t[1..] == Split(s);
        assert Split(s)[1..] == t[1..];
      }
    }
  }

  lemma {:induction false} JoinAppend(a: seq<string>, b: seq<string>)
    requires a != [] && b != []
    ensures Join(a + b) == Join(a) + "/" + Join(b)
  {
    if |a| > 1 {
      JoinAppend(a[1..], b);
      assert (a + b)[1..] == a[1..] + b;
    } else {
      assert (a + b)[1..] == b;
    }
  }

  /** With depth never negative, cleaning gives ordinary names, the same rooted or not, above any base. */
  lemma {:induction false} NormaliseOk(cs: seq<string>, base: seq<string>, stack: seq<string>)
    requires forall i :: 0 <= i < |cs| ==> '/' !in cs[i]
    requires Normal(base) && Normal(stack) && DepthOk(cs, |stack|)
    ensures var n := Normalise(cs, false, stack);
      Normal(n) && Normalise(cs, true, base + stack) == base + n
    decreases |cs|
  {
    if cs != [] {
      var next := Push(stack, cs[0], false);
      assert Push(base + stack, cs[0], true) == base + next;
      NormaliseOk(cs[1..], base, next);
    }
  }

  /** Once ".." is at the bottom of the stack it stays there. */
  lemma {:induction false} StuckAbove(cs: seq<string>, stack: seq<string>)
    requires stack != [] && stack[0] == ".."
    ensures var n := Normalise(cs, false, stack); n != [] && n[0] == ".."
    decreases |cs|
  {
    if cs != [] { StuckAbove(cs[1..], Push(stack, cs[0], false)); }
  }

  lemma {:induction false} NormaliseEscapes(cs: seq<string>, stack: seq<string>)
    requires Normal(stack) && !DepthOk(cs, |stack|)
    requires forall i :: 0 <= i < |cs| ==> '/' !in cs[i]
    ensures var n := Normalise(cs, false, stack); n != [] && n[0] == ".."
    decreases |cs|
  {
    if cs[0] == ".." && stack == [] {
      StuckAbove(cs[1..], Push(stack, cs[0], false));
    } else {
      NormaliseEscapes(cs[1..], Push(stack, cs[0], false));
    }
  }

  lemma {:induction false} NormaliseNormal(cs: seq<string>, rooted: bool, stack: seq<string>)
    requires Normal(cs)
    ensures Normalise(cs, rooted, stack) == stack + cs
    decreases |cs|
  {
    if cs != [] {
      NormaliseNormal(cs[1..], rooted, stack + [cs[0]]);
      assert stack + cs == (stack + [cs[0]]) + cs[1..];
    } else {
      assert stack + cs == stack;
    }
  }

  predicate Named(cs: seq<string>) {
    forall i :: 0 <= i < |cs| ==> cs[i] != "" && '/' !in cs[i]
  }

  /** Components of a stack cleaned without a root never contain a slash or an empty name. */
  lemma {:induction false} NormaliseNames(cs: seq<string>, stack: seq<string>)
    requires forall i :: 0 <= i < |cs| ==> '/' !in cs[i]
    requires Named(stack)
    ensures Named(Normalise(cs, false, stack))
    decreases |cs|
  {
    if cs != [] {
      NormaliseNames(cs[1..], Push(stack, cs[0], false));
    }
  }

  lemma EscapePrefix(c: string, t: string)
    requires c != "" && '/' !in c && (t == "" || t[0] == '/')
    ensures c + t == ".." || "../" <= c + t <==> c == ".."
  {
    var j := c + t;
    if |c| == 1 {
      assert |j| > 1 ==> j[1] == '/';
    } else if |c| == 2 {
      assert c == [j[0], j[1]];
      assert |j| == 2 || j[2] == '/';
    } else {
      assert j[2] == c[2] && c[2] in c;
    }
  }

  /** The escape test on the cleaned string is a test of its first component. */
  lemma EscapeTest(n: seq<string>)
    requires n != [] && n[0] != "" && '/' !in n[0]
    ensures !IsAbs(Join(n)) && Join(n) != ""
    ensures Join(n) == ".." || "../" <= Join(n) <==> n[0] == ".."
  {
    var t := if |n| == 1 then "" else "/" + Join(n[1..]);
    assert Join(n) == n[0] + t;
    assert n[0][0] in n[0];
    EscapePrefix(n[0], t);
  }

  // ---- The characterisation ----

  /** A clean absolute path other than "/" has the form "/" + Join(rs) with ordinary names. */
  predicate RootOf(root: string, rs: seq<string>) {
    Normal(rs) && root == "/" + Join(rs)
  }

  /** A relative path stays inside exactly when it is non-empty, not absolute, and never climbs above its start. */
  predicate StaysInside(rel: string) {
    rel != "" && rel[0] != '/' && DepthOk(Split(rel), 0)
  }

  function Components(rel: string): seq<string> {
    Normalise(Split(rel), false, [])
  }

  lemma SplitRoot(rs: seq<string>)
    requires Normal(rs)
    ensures Split("/" + Join(rs)) == [""] + if rs == [] then [""] else rs
  {
    assert ("/" + Join(rs))[1..] == Join(rs);
    if rs != [] { SplitJoin(rs); }
  }

  /** Cleaning "/" followed by components that normalise to ordinary names. */
  lemma CleanOf(p: string, rest: seq<string>, out: seq<string>)
    requires Split(p) == [""] + rest && IsAbs(p)
    requires Normalise(rest, true, []) == out
    ensures Clean(p) == "/" + Join(out)
  {
    var cs := Split(p);
    assert cs[1..] == rest && cs[0] == "";
    assert Normalise(cs, true, []) == Normalise(rest, true, []);
  }

  lemma CleanRooted(rs: seq<string>)
    requires Normal(rs)
    ensures Clean("/" + Join(rs)) == "/" + Join(rs)
  {
    SplitRoot(rs);
    if rs == [] {
      assert Normalise([""], true, []) == Normalise([""][1..], true, []);
      CleanOf("/" + Join(rs), [""], []);
    } else {
      NormaliseNormal(rs, true, []);
      assert [] + rs == rs;
      CleanOf("/" + Join(rs), rs, rs);
    }
  }

  /** The components of a path joined below a clean root. */
  lemma JoinedSplit(rs: seq<string>, tail: string)
    requires Normal(rs)
    ensures Split("/" + Join(rs) + "/" + tail) == [""] + ((if rs == [] then [""] else rs) + Split(tail))
  {
    SplitConcat("/" + Join(rs), tail);
    SplitRoot(rs);
  }

  /** Joining below a clean root: the result is the root's names followed by the normalised ones. */
  lemma JoinedBelow(root: string, rs: seq<string>, n: seq<string>)
    requires RootOf(root, rs) && Normal(n)
    ensures Clean(root + "/" + if n == [] then "." else Join(n)) == "/" + Join(rs + n)
  {
    var tail := if n == [] then "." else Join(n);
    var top, ts := if rs == [] then [""] else rs, Split(tail);
    JoinedSplit(rs, tail);
    NormaliseTop(rs);
    NormaliseAppend(top, ts, true, []);
    NormaliseTail(rs, n);
    CleanOf(root + "/" + tail, top + ts, rs + n);
  }

  lemma NormaliseTop(rs: seq<string>)
    requires Normal(rs)
    ensures Normalise(if rs == [] then [""] else rs, true, []) == rs
  {
    if rs == [] {
      assert Normalise([""], true, []) == Normalise([""][1..], true, []);
    } else {
      NormaliseNormal(rs, true, []);
      assert [] + rs == rs;
    }
  }

  lemma NormaliseTail(rs: seq<string>, n: seq<string>)
    requires Normal(n)
    ensures Normalise(Split(if n == [] then "." else Join(n)), true, rs) == rs + n
  {
    if n == [] {
      SplitName(".");
      assert Normalise(["."], true, rs) == Normalise(["."][1..], true, rs);
      assert rs + n == rs;
    } else {
      SplitJoin(n);
      NormaliseNormal(n, true, rs);
    }
  }

  lemma {:induction false} NormaliseAppend(a: seq<string>, b: seq<string>, rooted: bool, stack: seq<string>)
    ensures Normalise(a + b, rooted, stack) == Normalise(b, rooted, Normalise(a, rooted, stack))
    decreases |a|
  {
    if a == [] {
      assert a + b == b;
    } else {
      assert (a + b)[1..] == a[1..] + b;
      NormaliseAppend(a[1..], b, rooted, Push(stack, a[0], rooted));
    }
  }

  /** The cleaned form of an absolute path is absolute; that of a relative one is its components joined. */
  lemma CleanForm(rel: string)
    requires rel != ""
    ensures rel[0] == '/' ==> IsAbs(Clean(rel))
    ensures rel[0] != '/' && Components(rel) == [] ==> Clean(rel) == "."
    ensures rel[0] != '/' && Components(rel) != [] && Components(rel)[0] != "" ==> Clean(rel) == Join(Components(rel))
  {
    var n := Components(rel);
    if rel[0] != '/' && n != [] && n[0] != "" {
      assert n[0] <= Join(n);
    }
  }

  /** What cleaning a relative path gives, and whether the escape test rejects it. */
  lemma CleanRelative(rel: string)
    requires rel != "" && rel[0] != '/'
    ensures var n := Components(rel);
      && Clean(rel) == (if n == [] then "." else Join(n)) && !IsAbs(Clean(rel))
      && (Clean(rel) == ".." || "../" <= Clean(rel) <==> !DepthOk(Split(rel), 0))
      && (DepthOk(Split(rel), 0) ==> Normal(n))
  {
    var cs := Split(rel);
    forall i | 0 <= i < |cs| ensures '/' !in cs[i] { SplitNoSlash(rel, i); }
    var n := Components(rel);
    NormaliseNames(cs, []);
    CleanForm(rel);
    if DepthOk(cs, 0) { NormaliseOk(cs, [], []); } else { NormaliseEscapes(cs, []); }
    if n != [] { EscapeTest(n); }
  }

  /** The containment check after the join always passes. */
  lemma Contained(root: string, rs: seq<string>, n: seq<string>)
    requires RootOf(root, rs) && rs != [] && Normal(n)
    ensures var j := "/" + Join(rs + n);
      Clean(root) == root && Clean(j) == j && j == root + if n == [] then "" else "/" + Join(n)
  {
    CleanRooted(rs);
    CleanRooted(rs + n);
    if n == [] {
      assert rs + n == rs;
    } else {
      JoinAppend(rs, n);
      SlashAssociates(Join(rs), Join(n));
    }
  }

  lemma SlashAssociates(x: string, y: string)
    ensures "/" + (x + "/" + y) == ("/" + x) + ("/" + y)
  {
  }

  lemma SafeJoinAccepts(root: string, rs: seq<string>, rel: string)
    requires RootOf(root, rs) && rs != [] && StaysInside(rel)
    ensures Normal(Components(rel)) && SafeJoin(root, rel) == Ok("/" + Join(rs + Components(rel)))
  {
    CleanRelative(rel);
    JoinedBelow(root, rs, Components(rel));
    Contained(root, rs, Components(rel));
  }

  /**
   For a clean absolute root other than "/": accepted exactly when the path stays inside; the result
   is the root followed by the normalised components, so the containment check after the join never fires.
   */
  lemma SafeJoinCharacterised(root: string, rs: seq<string>, rel: string)
    requires RootOf(root, rs) && rs != []
    ensures SafeJoin(root, rel).Ok? <==> StaysInside(rel)
    ensures StaysInside(rel) ==>
      Normal(Components(rel)) && SafeJoin(root, rel).value == "/" + Join(rs + Components(rel))
    ensures SafeJoin(root, rel).Err? ==> SafeJoin(root, rel).error != "fsutil: path escapes root"
  {
    if StaysInside(rel) {
      SafeJoinAccepts(root, rs, rel);
    } else if rel != "" && rel[0] == '/' {
      CleanForm(rel);
    } else if rel != "" {
      CleanRelative(rel);
    }
  }

  /** For root "/" the containment check rejects everything but the root itself. */
  lemma SafeJoinAtFilesystemRoot(rel: string)
    ensures SafeJoin("/", rel).Ok? <==> StaysInside(rel) && Components(rel) == []
    ensures SafeJoin("/", rel).Ok? ==> SafeJoin("/", rel).value == "/"
  {
    if rel != "" && rel[0] == '/' {
      CleanForm(rel);
    } else if rel != "" {
      CleanRelative(rel);
      if StaysInside(rel) {
        var n := Components(rel);
        assert RootOf("/", []);
        JoinedBelow("/", [], n);
        CleanRooted([]);
        CleanRooted(n);
        assert [] + n == n;
        if n != [] {
          EscapeTest(n);
          assert ("/" + Join(n))[1] != '/';
        }
      }
    }
  }

  /** A path in the form manifests use: ordinary names joined by slashes. */
  predicate CleanPath(p: string) {
    Normal(Split(p))
  }

  /** The path below the root that a joined path stands for. */
  function Relative(root: string, abs: string): string {
    if |abs| <= |root| then "" else abs[|root| + 1..]
  }

  lemma RelativeOfJoin(root: string, rs: seq<string>, rel: string)
    requires RootOf(root, rs) && rs != [] && StaysInside(rel)
    ensures SafeJoin(root, rel).Ok? && Relative(root, SafeJoin(root, rel).value) == Join(Components(rel))
  {
    SafeJoinAccepts(root, rs, rel);
    Contained(root, rs, Components(rel));
    DropRoot(root, Join(Components(rel)));
  }

  lemma DropRoot(root: string, j: string)
    ensures (root + ("/" + j))[|root| + 1..] == j && |root + ("/" + j)| > |root|
    ensures Relative(root, root + "") == ""
  {
  }

  /** A clean path is accepted and stands for itself. */
  lemma CleanPathStays(p: string)
    requires CleanPath(p)
    ensures StaysInside(p) && Components(p) == Split(p) && Join(Components(p)) == p
  {
    var cs := Split(p);
    JoinSplit(p);
    EscapeTest(cs);
    NormaliseNormal(cs, false, []);
    assert [] + cs == cs;
    if !DepthOk(cs, 0) {
      forall i | 0 <= i < |cs| ensures '/' !in cs[i] { SplitNoSlash(p, i); }
      NormaliseEscapes(cs, []);
    }
  }

  lemma ComponentsAppend(p: string, c: string)
    requires '/' !in c
    ensures Components(p + "/" + c) == Push(Components(p), c, false)
  {
    SplitConcat(p, c);
    SplitName(c);
    NormaliseAppend(Split(p), [c], false, []);
    assert [c][1..] == [];
  }

  /**
   What the components of a path are, one name after the other: a name is added, "." and nothing add none, and
   ".." takes the last name back, or is kept where there is none to take back.
   */
  lemma ComponentsExact(p: string, c: string)
    requires NormalName(c)
    ensures Components("") == Components(".") == [] && Components(c) == [c] && Components("..") == [".."]
    ensures Components(p + "/" + c) == Components(p) + [c]
    ensures Components(p + "/") == Components(p + "/.") == Components(p)
    ensures Components(p + "/..") ==
      if Components(p) == [] || Components(p)[|Components(p)| - 1] == ".." then Components(p) + [".."]
      else Components(p)[..|Components(p)| - 1]
  {
    ComponentsAppend(p, c);
    ComponentsAppend(p, "");
    ComponentsAppend(p, ".");
    ComponentsAppend(p, "..");
    assert p + "/" + "" == p + "/" && p + "/" + "." == p + "/." && p + "/" + ".." == p + "/..";
    OneComponent("");
    OneComponent(".");
    OneComponent(c);
    OneComponent("..");
  }

  lemma OneComponent(c: string)
    requires '/' !in c
    ensures Components(c) == Push([], c, false)
  {
    SplitName(c);
    assert Normalise([c], false, []) == Normalise([c][1..], false, Push([], c, false));
  }

  /** A path that stays inside stands for the root or for a clean path. */
  lemma StaysIsClean(rel: string)
    requires StaysInside(rel)
    ensures Join(Components(rel)) == "" || CleanPath(Join(Components(rel)))
  {
    CleanRelative(rel);
    if Components(rel) != [] { SplitJoin(Components(rel)); }
  }

  /** The join is injective on clean paths. */
  lemma SafeJoinInjective(root: string, rs: seq<string>, a: string, b: string)
    requires RootOf(root, rs) && rs != [] && CleanPath(a) && CleanPath(b)
    requires SafeJoin(root, a) == SafeJoin(root, b)
    ensures a == b
  {
    CleanPathStays(a);
    CleanPathStays(b);
    RelativeOfJoin(root, rs, a);
    RelativeOfJoin(root, rs, b);
  }
}
