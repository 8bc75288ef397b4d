/** Byte-wise string order, as Go's `<` on strings, and what `sort.Slice` with that order promises. */
module Order {

  predicate Less(a: string, b: string) {
    if b == "" then false
    else if a == "" then true
    else a[0] < b[0] || (a[0] == b[0] && Less(a[1..], b[1..]))
  }

  /** `a` has ended, or has the smaller character, where the two first differ. */
  ghost predicate LessFrom(a: string, b: string, k: nat) {
    k <= |a| && k < |b| && (forall i :: 0 <= i < k ==> a[i] == b[i]) && (k == |a| || a[k] < b[k])
  }

  lemma LessFromTail(a: string, b: string, k: nat)
    requires a != "" && b != "" && a[0] == b[0] && 0 < k
    ensures LessFrom(a, b, k) <==> LessFrom(a[1..], b[1..], k - 1)
  {
    if LessFrom(a[1..], b[1..], k - 1) {
      forall i | 0 <= i < k ensures a[i] == b[i] {
        assert i > 0 ==> a[i] == a[1..][i - 1] && b[i] == b[1..][i - 1];
      }
    }
  }

  /** The order is the one of the characters at the first difference. */
  lemma {:induction false} LessExact(a: string, b: string)
    ensures Less(a, b) <==> exists k: nat :: LessFrom(a, b, k)
  {
    if a == "" || b == "" || a[0] != b[0] {
      assert Less(a, b) ==> LessFrom(a, b, 0);
    } else {
      LessExact(a[1..], b[1..]);
      if Less(a, b) {
        var k: nat :| LessFrom(a[1..], b[1..], k);
        LessFromTail(a, b, k + 1);
      }
      forall k: nat | LessFrom(a, b, k) ensures Less(a, b) {
        LessFromTail(a, b, k);
      }
    }
  }

  lemma LessIrreflexive(a: string)
    ensures !Less(a, a)
  {
  }

  lemma LessTransitive(a: string, b: string, c: string)
    requires Less(a, b) && Less(b, c)
    ensures Less(a, c)
  {
  }

  lemma LessTotal(a: string, b: string)
    ensures Less(a, b) || a == b || Less(b, a)
  {
    if a != "" && b != "" && a[0] == b[0] {
      LessTotal(a[1..], b[1..]);
      if a[1..] == b[1..] {
        assert a == [a[0]] + a[1..] && b == [b[0]] + b[1..];
      }
    }
  }

  lemma LessAsymmetric(a: string, b: string)
    requires Less(a, b)
    ensures !Less(b, a) && a != b
  {
    LessIrreflexive(a);
    if Less(b, a) {
      LessTransitive(a, b, a);
    }
  }

  /** A proper prefix sorts first: "p" comes before "p/x". */
  lemma {:induction false} PrefixLess(a: string, b: string)
    requires a < b
    ensures Less(a, b)
  {
    if a != "" {
      assert a[1..] < b[1..];
      PrefixLess(a[1..], b[1..]);
    }
  }

  ghost predicate StrictlySorted<T>(s: seq<T>, key: T -> string) {
    forall i, j :: 0 <= i < j < |s| ==> Less(key(s[i]), key(s[j]))
  }

  ghost predicate DistinctKeys<T>(s: seq<T>, key: T -> string) {
    forall i, j :: 0 <= i < j < |s| ==> key(s[i]) != key(s[j])
  }

  lemma SortedDistinct<T>(s: seq<T>, key: T -> string)
    requires StrictlySorted(s, key)
    ensures DistinctKeys(s, key)
  {
    forall i, j | 0 <= i < j < |s| ensures key(s[i]) != key(s[j]) {
      LessAsymmetric(key(s[i]), key(s[j]));
    }
  }

  function Elements<T>(s: seq<T>): set<T> {
    set x | x in s
  }

  lemma NoElements<T>(s: seq<T>)
    ensures Elements(s) == {} <==> s == []
  {
    if s != [] { assert s[0] in Elements(s); }
  }

  /** Insertion into a sorted list; `SortBy` stands for any sort of distinct keys, which all agree. */
  function Insert<T>(x: T, s: seq<T>, key: T -> string): (r: seq<T>)
    ensures multiset(r) == multiset(s) + multiset{x}
  {
    if s == [] then [x]
    else if Less(key(s[0]), key(x)) then
      assert s == [s[0]] + s[1..];
      [s[0]] + Insert(x, s[1..], key)
    else [x] + s
  }

  function SortBy<T>(s: seq<T>, key: T -> string): (r: seq<T>)
    ensures multiset(r) == multiset(s)
  {
    if s == [] then []
    else
      assert s == [s[0]] + s[1..];
      Insert(s[0], SortBy(s[1..], key), key)
  }

  lemma MultisetElements<T>(a: seq<T>, b: seq<T>)
    requires multiset(a) == multiset(b)
    ensures Elements(a) == Elements(b) && |a| == |b|
  {
    assert |multiset(a)| == |multiset(b)|;
    forall x ensures x in a <==> x in b {
      assert x in a <==> x in multiset(a);
      assert x in b <==> x in multiset(b);
    }
  }

  lemma {:induction false} InsertSorted<T>(x: T, s: seq<T>, key: T -> string)
    requires StrictlySorted(s, key)
    requires forall y :: y in s ==> key(y) != key(x)
    ensures StrictlySorted(Insert(x, s, key), key)
  {
    if s != [] {
      LessTotal(key(s[0]), key(x));
      if Less(key(s[0]), key(x)) {
        var rest := Insert(x, s[1..], key);
        InsertSorted(x, s[1..], key);
        forall j | 0 <= j < |rest| ensures Less(key(s[0]), key(rest[j])) {
          assert rest[j] in multiset(rest);
          assert rest[j] == x || rest[j] in multiset(s[1..]);
        }
      } else {
        forall j | 0 <= j < |s| ensures Less(key(x), key(s[j])) {
          if j > 0 { LessTransitive(key(x), key(s[0]), key(s[j])); }
        }
      }
    }
  }

  lemma {:induction false} SortBySorted<T>(s: seq<T>, key: T -> string)
    requires DistinctKeys(s, key)
    ensures StrictlySorted(SortBy(s, key), key)
  {
    if s != [] {
      SortBySorted(s[1..], key);
      var r := SortBy(s[1..], key);
      forall y | y in r ensures key(y) != key(s[0]) {
        assert y in multiset(r);
        assert y in s[1..];
      }
      InsertSorted(s[0], r, key);
    }
  }

  /** A strictly sorted list is determined by its elements, whichever algorithm sorted it. */
  lemma {:induction false} SortedUnique<T>(a: seq<T>, b: seq<T>, key: T -> string)
    requires StrictlySorted(a, key) && StrictlySorted(b, key)
    requires Elements(a) == Elements(b)
    ensures a == b
  {
    if a == [] {
      NoElements(b);
    } else {
      assert a[0] in Elements(a);
      assert a[0] in b && b != [];
      assert b[0] in Elements(b);
      var j :| 0 <= j < |b| && b[j] == a[0];
      var i :| 0 <= i < |a| && a[i] == b[0];
      if j > 0 && i > 0 {
        LessAsymmetric(key(a[0]), key(b[0]));
      }
      assert a[0] == b[0];
      SortedDistinct(a, key);
      SortedDistinct(b, key);
      forall x | x in a[1..] ensures x in b[1..] {
        assert x in Elements(a);
        var k :| 0 <= k < |b| && b[k] == x;
        assert k != 0;
        assert b[1..][k - 1] == x;
      }
      forall x | x in b[1..] ensures x in a[1..] {
        assert x in Elements(b);
        var k :| 0 <= k < |a| && a[k] == x;
        assert k != 0;
        assert a[1..][k - 1] == x;
      }
      SortedUnique(a[1..], b[1..], key);
      assert a == [a[0]] + a[1..] && b == [b[0]] + b[1..];
    }
  }
}
