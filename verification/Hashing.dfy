/** Content hashes: lowercase hex of an uninterpreted 256-bit digest. */
module Hashing {
  import opened Prelude

  type Digest = d: Bytes | |d| == 32 witness seq(32, _ => 0)

  /** SHA-256, of which only the type is known. */
  const Sum256: Bytes -> Digest

  function HexDigit(n: nat): char
    requires n < 16
  {
    if n < 10 then '0' + n as char else 'a' + (n - 10) as char
  }

  function HexEncode(b: Bytes): string {
    if b == [] then "" else [HexDigit(b[0] / 16), HexDigit(b[0] % 16)] + HexEncode(b[1..])
  }

  function HashContent(b: Bytes): string {
    HexEncode(Sum256(b))
  }

  predicate IsHexDigit(c: char) {
    '0' <= c <= '9' || 'a' <= c <= 'f'
  }

  predicate ValidHash(h: string) {
    |h| == 64 && forall i :: 0 <= i < |h| ==> IsHexDigit(h[i])
  }

  lemma HexEncodeDigits(b: Bytes)
    ensures |HexEncode(b)| == 2 * |b|
    ensures forall i :: 0 <= i < |HexEncode(b)| ==> IsHexDigit(HexEncode(b)[i])
  {
  }

  /** Each byte is written as its high and its low half, in order, in lowercase digits. */
  lemma {:induction false} HexEncodeExact(b: Bytes, i: nat)
    requires i < |b|
    ensures |HexEncode(b)| == 2 * |b|
    ensures HexEncode(b)[2 * i] == "0123456789abcdef"[b[i] / 16]
    ensures HexEncode(b)[2 * i + 1] == "0123456789abcdef"[b[i] % 16]
  {
    HexEncodeDigits(b);
    HexDigitExact(b[i] / 16);
    HexDigitExact(b[i] % 16);
    if i > 0 {
      HexEncodeExact(b[1..], i - 1);
      assert HexEncode(b)[2..] == HexEncode(b[1..]);
    }
  }

  lemma HexDigitExact(n: nat)
    requires n < 16
    ensures HexDigit(n) == "0123456789abcdef"[n]
  {
  }

  /** Every digit is the digit of a number. */
  lemma DigitValue(c: char) returns (n: nat)
    requires IsHexDigit(c)
    ensures n < 16 && HexDigit(n) == c
  {
    n := if c <= '9' then c as nat - '0' as nat else c as nat - 'a' as nat + 10;
  }

  lemma {:induction false} HexDecode(h: string) returns (b: Bytes)
    requires |h| % 2 == 0 && forall i :: 0 <= i < |h| ==> IsHexDigit(h[i])
    ensures HexEncode(b) == h
    decreases |h|
  {
    b := [];
    if h != "" {
      var hi := DigitValue(h[0]);
      var lo := DigitValue(h[1]);
      var rest := HexDecode(h[2..]);
      b := [16 * hi + lo] + rest;
      assert h == [h[0], h[1]] + h[2..] && b[1..] == rest;
    }
  }

  /** The legal keys are the encodings of 32 bytes, and nothing else. */
  lemma ValidHashExact(h: string)
    ensures ValidHash(h) <==> exists b: Bytes :: |b| == 32 && HexEncode(b) == h
  {
    if ValidHash(h) {
      var b := HexDecode(h);
      HexEncodeDigits(b);
    }
    forall b: Bytes | |b| == 32 && HexEncode(b) == h ensures ValidHash(h) {
      HexEncodeDigits(b);
    }
  }

  lemma HexDigitInjective(m: nat, n: nat)
    requires m < 16 && n < 16 && HexDigit(m) == HexDigit(n)
    ensures m == n
  {
    assert HexDigit(m) as int == if m < 10 then 48 + m else 87 + m;
    assert HexDigit(n) as int == if n < 10 then 48 + n else 87 + n;
  }

  lemma {:induction false} HexEncodeInjective(a: Bytes, b: Bytes)
    requires HexEncode(a) == HexEncode(b)
    ensures a == b
  {
    HexEncodeDigits(a);
    HexEncodeDigits(b);
    if a != [] {
      var x, y := HexEncode(a), HexEncode(b);
      assert x[0] == y[0] && x[1] == y[1];
      assert x[2..] == HexEncode(a[1..]) && y[2..] == HexEncode(b[1..]);
      HexEncodeInjective(a[1..], b[1..]);
      HexDigitInjective(a[0] / 16, b[0] / 16);
      HexDigitInjective(a[0] % 16, b[0] % 16);
      assert a == [a[0]] + a[1..] && b == [b[0]] + b[1..];
    }
  }

  /** SHA-256 tells these two contents apart, if they differ. */
  predicate NoCollision(a: Bytes, b: Bytes) {
    Sum256(a) == Sum256(b) ==> a == b
  }

  /** Every computed hash is a legal store key, and two hashes agree exactly when the digests do. */
  lemma HashValid(a: Bytes, b: Bytes)
    ensures ValidHash(HashContent(a))
    ensures HashContent(a) == HashContent(b) <==> Sum256(a) == Sum256(b)
  {
    HexEncodeDigits(Sum256(a));
    if HashContent(a) == HashContent(b) {
      HexEncodeInjective(Sum256(a), Sum256(b));
    }
  }
}
