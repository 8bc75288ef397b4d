/**
 How many bytes the two handshake messages take as JSON, and what follows from the size of a record
 (internal/protocol/protocol.go, internal/adapters/transport/ws/client.go). Sizes follow Go's encoding/json with its
 default escaping.
 */
module JsonSizes {
  import opened Domain
  import Hashing
  import Protocol

  /** The bytes of a character inside a JSON string: UTF-8, a two-character escape, or \uXXXX. */
  function EscapedSize(c: char): nat {
    var n := c as int;
    if n == 34 || n == 92 || n == 8 || n == 9 || n == 10 || n == 12 || n == 13 then 2
    else if n < 32 || n == 38 || n == 60 || n == 62 || n == 0x2028 || n == 0x2029 then 6
    else if n < 0x80 then 1
    else if n < 0x800 then 2
    else if n < 0x1_0000 then 3
    else 4
  }

  function CharsSize(s: string): nat {
    if s == "" then 0 else EscapedSize(s[0]) + CharsSize(s[1..])
  }

  function Quoted(s: string): nat {
    CharsSize(s) + 2
  }

  function Digits(n: nat): (d: nat)
    ensures d >= 1
  {
    if n < 10 then 1 else 1 + Digits(n / 10)
  }

  // The JSON text around the values of an entry and of the two messages.
  const ENTRY := ["{\"path\":", ",\"hash\":", ",\"size\":", ",\"mode\":", "}"]
  const START := ["{\"type\":\"session.start\"," + "\"data\":{\"projectName\":", ",\"manifest\":[", "]}}"]
  const REQUEST := ["{\"type\":\"sync.request\"," + "\"data\":{\"missing\":", "}}"]

  function EntrySize(e: FileEntry): nat {
    |ENTRY[0]| + Quoted(e.path) + |ENTRY[1]| + Quoted(e.hash) + |ENTRY[2]| + Digits(e.size)
    + |ENTRY[3]| + Digits(e.mode as nat) + |ENTRY[4]|
  }

  /** The elements of a JSON array, each with the comma or bracket that follows it. */
  function EntriesSize(m: Manifest): nat {
    if m == [] then 0 else EntriesSize(m[..|m| - 1]) + EntrySize(m[|m| - 1]) + 1
  }

  function HashesSize(hs: seq<string>): nat {
    if hs == [] then 0 else HashesSize(hs[..|hs| - 1]) + Quoted(hs[|hs| - 1]) + 1
  }

  function StartSize(project: string, m: Manifest): nat {
    |START[0]| + Quoted(project) + |START[1]| + |START[2]| + if m == [] then 0 else EntriesSize(m) - 1
  }

  /** A list with its brackets, or `null` where nothing is missing. */
  function ListSize(hs: seq<string>): nat {
    if hs == [] then |"null"| else |"["| + HashesSize(hs)
  }

  function RequestSize(missing: seq<string>): nat {
    |REQUEST[0]| + ListSize(missing) + |REQUEST[1]|
  }

  predicate FitsRecord(size: nat) {
    size + 1 <= Protocol.MAX_RECORD_PLAINTEXT
  }

  predicate StartFits(project: string, m: Manifest) {
    FitsRecord(StartSize(project, m))
  }

  predicate RequestFits(missing: seq<string>) {
    FitsRecord(RequestSize(missing))
  }

  // ---- The text those sizes are of ----

  /** The bytes of a character in UTF-8. */
  function Utf8(c: char): nat {
    var n := c as int;
    if n < 0x80 then 1 else if n < 0x800 then 2 else if n < 0x1_0000 then 3 else 4
  }

  function Utf8Length(s: string): nat {
    if s == "" then 0 else Utf8(s[0]) + Utf8Length(s[1..])
  }

  /** A character inside a JSON string, as encoding/json writes it. */
  function Escaped(c: char): string {
    var n := c as int;
    if n == 34 then "\\\""
    else if n == 92 then "\\\\"
    else if n == 8 then "\\b"
    else if n == 9 then "\\t"
    else if n == 10 then "\\n"
    else if n == 12 then "\\f"
    else if n == 13 then "\\r"
    else if n < 32 || n == 38 || n == 60 || n == 62 then
      "\\u00" + [Hashing.HexDigit(n / 16), Hashing.HexDigit(n % 16)]
    else if n == 0x2028 then "\\u2028"
    else if n == 0x2029 then "\\u2029"
    else [c]
  }

  /** Which characters do not stand for themselves, and what stands for them. */
  lemma EscapedNamed()
    ensures Escaped('"') == "\\\"" && Escaped('\\') == "\\\\"
    ensures Escaped('\n') == "\\n" && Escaped('\r') == "\\r" && Escaped('\t') == "\\t"
    ensures Escaped(8 as char) == "\\b" && Escaped(12 as char) == "\\f"
    ensures Escaped(0x2028 as char) == "\\u2028" && Escaped(0x2029 as char) == "\\u2029"
  {
  }

  lemma EscapedMarkup()
    ensures Escaped('<') == "\\u003c" && Escaped('>') == "\\u003e" && Escaped('&') == "\\u0026"
  {
    Hashing.HexDigitExact(0x3c / 16);
    Hashing.HexDigitExact(0x3c % 16);
    Hashing.HexDigitExact(0x3e % 16);
    Hashing.HexDigitExact(0x26 / 16);
    Hashing.HexDigitExact(0x26 % 16);
  }

  lemma EscapedControl(c: char)
    requires c as int < 32 && c !in "\n\r\t" && c as int != 8 && c as int != 12
    ensures Escaped(c) == "\\u00" + ["0123456789abcdef"[c as int / 16], "0123456789abcdef"[c as int % 16]]
  {
    Hashing.HexDigitExact(c as int / 16);
    Hashing.HexDigitExact(c as int % 16);
  }

  lemma EscapedOther(c: char)
    requires c as int >= 32 && c !in "\"\\<>&" && c as int != 0x2028 && c as int != 0x2029
    ensures Escaped(c) == [c]
  {
  }

  function EscapedAll(s: string): string {
    if s == "" then "" else Escaped(s[0]) + EscapedAll(s[1..])
  }

  function StringText(s: string): string {
    "\"" + EscapedAll(s) + "\""
  }

  function NumberText(n: nat): string {
    (if n < 10 then "" else NumberText(n / 10)) + ["0123456789"[n % 10]]
  }

  function EntryText(e: FileEntry): string {
    ENTRY[0] + StringText(e.path) + ENTRY[1] + StringText(e.hash) + ENTRY[2] + NumberText(e.size) + ENTRY[3]
    + NumberText(e.mode as nat) + ENTRY[4]
  }

  function Commas(xs: seq<string>): string {
    if xs == [] then "" else if |xs| == 1 then xs[0] else Commas(xs[..|xs| - 1]) + "," + xs[|xs| - 1]
  }

  function EntryTexts(m: Manifest): seq<string> {
    seq(|m|, i requires 0 <= i < |m| => EntryText(m[i]))
  }

  function StartText(project: string, m: Manifest): string {
    START[0] + StringText(project) + START[1] + Commas(EntryTexts(m)) + START[2]
  }

  function StringTexts(hs: seq<string>): seq<string> {
    seq(|hs|, i requires 0 <= i < |hs| => StringText(hs[i]))
  }

  function ListText(hs: seq<string>): string {
    if hs == [] then "null" else "[" + Commas(StringTexts(hs)) + "]"
  }

  function RequestText(missing: seq<string>): string {
    REQUEST[0] + ListText(missing) + REQUEST[1]
  }

  lemma {:induction false} Utf8Concat(a: string, b: string)
    ensures Utf8Length(a + b) == Utf8Length(a) + Utf8Length(b)
  {
    if a == "" {
      assert a + b == b;
    } else {
      assert (a + b)[1..] == a[1..] + b;
      Utf8Concat(a[1..], b);
    }
  }

  lemma {:induction false} AsciiLength(s: string)
    requires forall i :: 0 <= i < |s| ==> s[i] as int < 0x80
    ensures Utf8Length(s) == |s|
  {
    if s != "" { AsciiLength(s[1..]); }
  }

  lemma EscapedLength(c: char)
    ensures Utf8Length(Escaped(c)) == EscapedSize(c)
  {
    if |Escaped(c)| > 1 {
      AsciiLength(Escaped(c));
    } else {
      assert Escaped(c)[1..] == "";
    }
  }

  lemma {:induction false} CharsLength(s: string)
    ensures Utf8Length(EscapedAll(s)) == CharsSize(s)
  {
    if s != "" {
      EscapedLength(s[0]);
      CharsLength(s[1..]);
      Utf8Concat(Escaped(s[0]), EscapedAll(s[1..]));
    }
  }

  lemma StringLength(s: string)
    ensures Utf8Length(StringText(s)) == Quoted(s)
  {
    CharsLength(s);
    AsciiLength("\"");
    Utf8Concat("\"", EscapedAll(s));
    Utf8Concat("\"" + EscapedAll(s), "\"");
  }

  lemma {:induction false} NumberLength(n: nat)
    ensures Utf8Length(NumberText(n)) == Digits(n)
  {
    var last := ["0123456789"[n % 10]];
    AsciiLength(last);
    if n < 10 {
      assert NumberText(n) == "" + last;
    } else {
      NumberLength(n / 10);
    }
    Utf8Concat(if n < 10 then "" else NumberText(n / 10), last);
  }

  /** A number is written in decimal: its last digit, after the digits of what is left. */
  lemma NumberIsDecimal(n: nat)
    ensures n < 10 ==> NumberText(n) == ["0123456789"[n]]
    ensures n >= 10 ==> NumberText(n) == NumberText(n / 10) + NumberText(n % 10)
  {
    assert NumberText(n % 10) == "" + ["0123456789"[n % 10]];
  }

  lemma Parts(a: string, b: string, c: string)
    ensures Utf8Length(a + b + c) == Utf8Length(a) + Utf8Length(b) + Utf8Length(c)
  {
    Utf8Concat(a, b);
    Utf8Concat(a + b, c);
  }

  predicate Ascii(s: string) {
    forall i :: 0 <= i < |s| ==> s[i] as int < 0x80
  }

  /** Literal text around a value and after it. */
  lemma Around(before: string, x: string, after: string)
    requires Ascii(before) && Ascii(after)
    ensures Utf8Length(before + x + after) == |before| + Utf8Length(x) + |after|
  {
    AsciiLength(before);
    AsciiLength(after);
    Parts(before, x, after);
  }

  lemma Next(before: string, x: string, after: string)
    requires Ascii(after)
    ensures Utf8Length(before + x + after) == Utf8Length(before) + Utf8Length(x) + |after|
  {
    AsciiLength(after);
    Parts(before, x, after);
  }

  lemma FourFields(l: seq<string>, x: seq<string>)
    requires |l| == 5 && |x| == 4 && forall i :: 0 <= i < 5 ==> Ascii(l[i])
    ensures Utf8Length(l[0] + x[0] + l[1] + x[1] + l[2] + x[2] + l[3] + x[3] + l[4]) ==
      |l[0]| + |l[1]| + |l[2]| + |l[3]| + |l[4]|
      + Utf8Length(x[0]) + Utf8Length(x[1]) + Utf8Length(x[2]) + Utf8Length(x[3])
  {
    Around(l[0], x[0], l[1]);
    Next(l[0] + x[0] + l[1], x[1], l[2]);
    Next(l[0] + x[0] + l[1] + x[1] + l[2], x[2], l[3]);
    Next(l[0] + x[0] + l[1] + x[1] + l[2] + x[2] + l[3], x[3], l[4]);
  }

  lemma EntryLength(e: FileEntry)
    ensures Utf8Length(EntryText(e)) == EntrySize(e)
  {
    StringLength(e.path);
    StringLength(e.hash);
    NumberLength(e.size);
    NumberLength(e.mode as nat);
    FourFields(ENTRY, [StringText(e.path), StringText(e.hash), NumberText(e.size), NumberText(e.mode as nat)]);
  }

  lemma CommasSnoc(xs: seq<string>, x: string)
    ensures Utf8Length(Commas(xs + [x])) ==
      (if xs == [] then 0 else Utf8Length(Commas(xs)) + 1) + Utf8Length(x)
  {
    if xs == [] {
      assert xs + [x] == [x];
    } else {
      assert (xs + [x])[..|xs|] == xs;
      AsciiLength(",");
      Parts(Commas(xs), ",", x);
    }
  }

  /** The sizes of some texts, each with a comma or bracket after it. */
  function Listed(xs: seq<string>): nat {
    if xs == [] then 0 else Listed(xs[..|xs| - 1]) + Utf8Length(xs[|xs| - 1]) + 1
  }

  lemma {:induction false} CommasLength(xs: seq<string>)
    ensures xs != [] ==> Utf8Length(Commas(xs)) + 1 == Listed(xs)
  {
    if xs != [] {
      var n := |xs| - 1;
      CommasLength(xs[..n]);
      assert xs == xs[..n] + [xs[n]];
      CommasSnoc(xs[..n], xs[n]);
    }
  }

  lemma {:induction false} EntriesListed(m: Manifest)
    ensures Listed(EntryTexts(m)) == EntriesSize(m)
  {
    if m != [] {
      var n := |m| - 1;
      EntriesListed(m[..n]);
      EntryLength(m[n]);
      assert EntryTexts(m)[..n] == EntryTexts(m[..n]);
    }
  }

  lemma {:induction false} HashesListed(hs: seq<string>)
    ensures Listed(StringTexts(hs)) == HashesSize(hs)
  {
    if hs != [] {
      var n := |hs| - 1;
      HashesListed(hs[..n]);
      StringLength(hs[n]);
      assert StringTexts(hs)[..n] == StringTexts(hs[..n]);
    }
  }

  lemma TwoFields(l: seq<string>, x: string, y: string)
    requires |l| == 3 && forall i :: 0 <= i < 3 ==> Ascii(l[i])
    ensures Utf8Length(l[0] + x + l[1] + y + l[2]) == |l[0]| + Utf8Length(x) + |l[1]| + Utf8Length(y) + |l[2]|
  {
    Around(l[0], x, l[1]);
    Next(l[0] + x + l[1], y, l[2]);
  }

  lemma AsciiConcat(a: string, b: string)
    requires Ascii(a) && Ascii(b)
    ensures Ascii(a + b)
  {
  }

  lemma StartAscii()
    ensures Ascii(START[0]) && Ascii(START[1]) && Ascii(START[2])
  {
    AsciiConcat("{\"type\":\"session.start\",", "\"data\":{\"projectName\":");
  }

  /** The size of session.start is the length of its JSON in bytes. */
  lemma StartSizeExact(project: string, m: Manifest)
    ensures StartSize(project, m) == Utf8Length(StartText(project, m))
    ensures StartFits(project, m) <==> Utf8Length(StartText(project, m)) <= 65518
  {
    StringLength(project);
    EntriesListed(m);
    CommasLength(EntryTexts(m));
    StartAscii();
    TwoFields(START, StringText(project), Commas(EntryTexts(m)));
  }

  lemma ListLength(hs: seq<string>)
    ensures Utf8Length(ListText(hs)) == ListSize(hs)
  {
    HashesListed(hs);
    CommasLength(StringTexts(hs));
    if hs == [] { AsciiLength("null"); } else { Around("[", Commas(StringTexts(hs)), "]"); }
  }

  lemma OneField(l: seq<string>, x: string)
    requires |l| == 2 && Ascii(l[0]) && Ascii(l[1])
    ensures Utf8Length(l[0] + x + l[1]) == |l[0]| + Utf8Length(x) + |l[1]|
  {
    Around(l[0], x, l[1]);
  }

  lemma RequestAscii()
    ensures Ascii(REQUEST[0]) && Ascii(REQUEST[1])
  {
    AsciiConcat("{\"type\":\"sync.request\",", "\"data\":{\"missing\":");
  }

  /** So is that of sync.request. */
  lemma RequestSizeExact(missing: seq<string>)
    ensures RequestSize(missing) == Utf8Length(RequestText(missing))
    ensures RequestFits(missing) <==> Utf8Length(RequestText(missing)) <= 65518
  {
    ListLength(missing);
    RequestAscii();
    OneField(REQUEST, ListText(missing));
  }

  // ---- A request is never larger than the manifest it answers ----

  predicate Distinct(hs: seq<string>) {
    forall i, j :: 0 <= i < j < |hs| ==> hs[i] != hs[j]
  }

  lemma {:induction false} HashesSizeConcat(a: seq<string>, b: seq<string>)
    ensures HashesSize(a + b) == HashesSize(a) + HashesSize(b)
  {
    if b == [] {
      assert a + b == a;
    } else {
      HashesSizeConcat(a, b[..|b| - 1]);
      assert (a + b)[..|a + b| - 1] == a + b[..|b| - 1];
    }
  }

  lemma OneHash(h: string)
    ensures HashesSize([h]) == Quoted(h) + 1
  {
    assert [h][..0] == [];
  }

  lemma Without(hs: seq<string>, j: nat)
    requires j < |hs|
    ensures HashesSize(hs) == HashesSize(hs[..j] + hs[j + 1..]) + Quoted(hs[j]) + 1
  {
    var a, h, b := hs[..j], hs[j], hs[j + 1..];
    assert hs == a + ([h] + b);
    HashesSizeConcat(a, [h] + b);
    HashesSizeConcat([h], b);
    HashesSizeConcat(a, b);
    OneHash(h);
  }

  lemma RestDistinct(hs: seq<string>, j: nat)
    requires Distinct(hs) && j < |hs|
    ensures var rest := hs[..j] + hs[j + 1..];
      Distinct(rest) && forall h :: h in rest ==> h in hs && h != hs[j]
  {
    var rest := hs[..j] + hs[j + 1..];
    forall i | 0 <= i < |rest| ensures rest[i] in hs && rest[i] != hs[j] {
      assert rest[i] == hs[if i < j then i else i + 1];
    }
  }

  lemma {:induction false} HashesWithinEntries(m: Manifest, hs: seq<string>)
    requires Distinct(hs) && forall h :: h in hs ==> h in Hashes(m)
    ensures HashesSize(hs) <= EntriesSize(m)
  {
    assert hs == [] || hs[0] in hs;
    if m != [] {
      var n := |m| - 1;
      assert m == m[..n] + [m[n]];
      assert Hashes(m) == Hashes(m[..n]) + {m[n].hash};
      if m[n].hash in hs {
        var j :| 0 <= j < |hs| && hs[j] == m[n].hash;
        var rest := hs[..j] + hs[j + 1..];
        Without(hs, j);
        RestDistinct(hs, j);
        HashesWithinEntries(m[..n], rest);
      } else {
        HashesWithinEntries(m[..n], hs);
      }
    }
  }

  /** Each listed hash takes less than its entry did, so the answer to a manifest that fitted fits. */
  lemma RequestAnswersFit(project: string, m: Manifest, missing: seq<string>)
    requires Distinct(missing) && forall h :: h in missing ==> h in Hashes(m)
    ensures RequestSize(missing) <= StartSize(project, m)
    ensures StartFits(project, m) ==> RequestFits(missing)
  {
    HashesWithinEntries(m, missing);
    assert missing == [] || missing[0] in missing;
  }

  // ---- How large a project can be ----

  lemma {:induction false} CharsAtLeast(s: string)
    ensures CharsSize(s) >= |s|
  {
    if s != "" { CharsAtLeast(s[1..]); }
  }

  lemma {:induction false} EntriesAtLeast(m: Manifest)
    requires forall e :: e in m ==> e.path != "" && Hashing.ValidHash(e.hash)
    ensures EntriesSize(m) >= 105 * |m|
  {
    if m != [] {
      var n := |m| - 1;
      forall e | e in m[..n] ensures e in m {
      }
      EntriesAtLeast(m[..n]);
      assert m[n] in m;
      CharsAtLeast(m[n].path);
      CharsAtLeast(m[n].hash);
    }
  }

  /** No project of 624 files or more can be announced, however short its names. */
  lemma TooManyFiles(project: string, m: Manifest)
    requires forall e :: e in m ==> e.path != "" && Hashing.ValidHash(e.hash)
    ensures |m| >= 624 ==> !StartFits(project, m)
  {
    EntriesAtLeast(m);
  }
}
