/**
 Byte streams and fixed-width big-endian numbers, shared by the wire formats.
 */
module Bytes {
  import opened Wrappers

  type byte = x: int | 0 <= x < 256

  type bytes = seq<byte>

  function Pow256(w: nat): nat {
    if w == 0 then 1 else 256 * Pow256(w - 1)
  }

  function BigEndian(w: nat, n: nat): (b: bytes)
    ensures |b| == w
  {
    if w == 0 then [] else BigEndian(w - 1, n / 256) + [n % 256]
  }

  function Value(b: bytes): nat {
    if b == [] then 0 else Value(b[..|b| - 1]) * 256 + b[|b| - 1]
  }

  /** Numbers of a given width and byte strings of that length correspond one to one. */
  lemma {:induction false} ValueOfBigEndian(w: nat, n: nat)
    requires n < Pow256(w)
    ensures Value(BigEndian(w, n)) == n
  {
    if w > 0 {
      ValueOfBigEndian(w - 1, n / 256);
      var b := BigEndian(w, n);
      assert b[..w - 1] == BigEndian(w - 1, n / 256);
    }
  }

  lemma {:induction false} BigEndianOfValue(b: bytes)
    ensures BigEndian(|b|, Value(b)) == b && Value(b) < Pow256(|b|)
    decreases |b|
  {
    if b != [] {
      var n := |b| - 1;
      BigEndianOfValue(b[..n]);
      var v := Value(b);
      assert v / 256 == Value(b[..n]) && v % 256 == b[n];
      assert b == b[..n] + [b[n]];
    }
  }

  /** The digit of n to base 256, k places from the last. */
  function Digit(n: nat, k: nat): nat {
    if k == 0 then n % 256 else Digit(n / 256, k - 1)
  }

  /** The digits stand in order, the highest first. */
  lemma {:induction false} BigEndianDigits(w: nat, n: nat)
    ensures forall i | 0 <= i < w :: BigEndian(w, n)[i] == Digit(n, w - 1 - i)
  {
    if w > 0 {
      BigEndianDigits(w - 1, n / 256);
    }
  }

  /** What io.ReadFull takes from a stream of bytes and leaves in it. */
  function ReadN(d: bytes, n: nat): Option<(bytes, bytes)> {
    if |d| < n then None else Some((d[..n], d[n..]))
  }

  lemma ReadNExactly(d: bytes, n: nat, x: bytes, rest: bytes)
    ensures ReadN(d, n) == Some((x, rest)) <==> |x| == n && d == x + rest
  {
    if |d| >= n {
      assert d == d[..n] + d[n..];
    }
  }

  /** A byte string with a given first byte, taken apart. */
  lemma Peel(d: bytes, a: byte, tail: bytes)
    ensures d == [a] + tail <==> |d| >= 1 && d[0] == a && d[1..] == tail
  {
    if |d| >= 1 {
      assert d == [d[0]] + d[1..];
    }
  }

  lemma PeelTwo(d: bytes, a: byte, b: byte, tail: bytes)
    ensures d == [a, b] + tail <==> |d| >= 2 && d[0] == a && d[1] == b && d[2..] == tail
  {
    if |d| >= 2 {
      assert d == [d[0], d[1]] + d[2..];
    }
  }

  lemma Append(a: bytes, b: bytes, c: bytes)
    ensures (a + b) + c == a + (b + c)
  {
  }

  /** A reader over the bytes that will arrive before the stream ends. */
  class Reader {
    var data: bytes

    constructor (data: bytes)
      ensures this.data == data
    {
      this.data := data;
    }

    /** io.ReadFull: a short stream is used up and reported. */
    method ReadFull(n: nat) returns (ok: bool, buf: bytes)
      modifies this
      ensures ok <==> ReadN(old(data), n).Some?
      ensures ok ==> (buf, data) == ReadN(old(data), n).value
      ensures !ok ==> buf == [] && data == []
    {
      if |data| < n {
        data := [];
        return false, [];
      }
      buf := data[..n];
      data := data[n..];
      ok := true;
    }
  }

  class Writer {
    var data: bytes

    constructor ()
      ensures data == []
    {
      data := [];
    }

    method Write(b: bytes)
      modifies this
      ensures data == old(data) + b
    {
      data := data + b;
    }
  }
}
