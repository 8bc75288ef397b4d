/** The stderr tail of the agent (internal/adapters/agent/claudecli/claudecli.go, `ringBuffer`). */
module RingBuffer {
  import opened Prelude

  /** The last `max` bytes of `b`, or all of it. */
  function Tail(b: Bytes, max: nat): (t: Bytes)
    ensures |t| == if |b| < max then |b| else max
    ensures exists head :: b == head + t
  {
    if |b| > max then
      assert b == b[..|b| - max] + b[|b| - max..];
      b[|b| - max..]
    else
      assert b == [] + b;
      b
  }

  class RingBuffer {
    var buf: Bytes
    const max: nat

    constructor (max: nat)
      ensures this.max == max && buf == []
    {
      this.max := max;
      buf := [];
    }

    method Write(p: Bytes) returns (n: nat)
      modifies this`buf
      ensures buf == Tail(old(buf) + p, max) && n == |p|
    {
      buf := buf + p;
      if |buf| > max {
        buf := buf[|buf| - max..];
      }
      n := |p|;
    }

    method String() returns (s: Bytes)
      ensures s == buf
    {
      s := buf;
    }
  }

  function Concat(ps: seq<Bytes>): Bytes {
    if ps == [] then [] else Concat(ps[..|ps| - 1]) + ps[|ps| - 1]
  }

  /** The buffer after a sequence of writes. */
  function Written(ps: seq<Bytes>, max: nat): Bytes {
    if ps == [] then [] else Tail(Written(ps[..|ps| - 1], max) + ps[|ps| - 1], max)
  }

  /** Forgetting early loses nothing: the tail of a tail is the tail of the whole. */
  lemma TailOfTail(a: Bytes, p: Bytes, max: nat)
    ensures Tail(Tail(a, max) + p, max) == Tail(a + p, max)
  {
    if |a| > max {
      var k := |a| - max;
      DropAll(a, p, k, |p|);
    }
  }

  lemma DropAll(a: Bytes, p: Bytes, k: nat, m: nat)
    requires k <= |a| && m <= |p|
    ensures (a[k..] + p)[m..] == (a + p)[k + m..]
  {
  }

  /** After any writes of any sizes the buffer holds exactly the last bytes of everything written. */
  lemma {:induction false} KeepsTail(ps: seq<Bytes>, max: nat)
    ensures Written(ps, max) == Tail(Concat(ps), max)
  {
    if ps != [] {
      KeepsTail(ps[..|ps| - 1], max);
      TailOfTail(Concat(ps[..|ps| - 1]), ps[|ps| - 1], max);
    }
  }

  /** Writing a list of pieces one after another through the class gives `Written`. */
  method WriteAll(ps: seq<Bytes>, max: nat) returns (s: Bytes)
    ensures s == Tail(Concat(ps), max)
  {
    var r := new RingBuffer(max);
    for i := 0 to |ps|
      invariant r.max == max && r.buf == Written(ps[..i], max)
    {
      assert ps[..i + 1][..i] == ps[..i];
      var _ := r.Write(ps[i]);
    }
    assert ps[..|ps|] == ps;
    KeepsTail(ps, max);
    s := r.String();
  }
}
