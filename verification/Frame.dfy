/**
 Length-prefixed control frames (pkg/frame/frame.go) and the byte strings that the policy
 distributor signs (recordSigningPayload and bundleSigningPayload in policy_distribution.go).
 */
module Frame {
  import opened Wrappers
  import opened Sequences
  import opened Bytes

  const MAX_FRAME_SIZE: nat := 0x100_0000

  function Encode(payload: bytes): bytes {
    BigEndian(4, |payload|) + payload
  }

  /** The first frame of a stream and what follows it. */
  function Decode(d: bytes): Option<(bytes, bytes)> {
    if |d| < 4 then None
    else
      var length := Value(d[..4]);
      if length > MAX_FRAME_SIZE then None else ReadN(d[4..], length)
  }

  /** A payload that is too large is refused before anything is written. */
  method WriteFrame(w: Writer, payload: bytes) returns (ok: bool)
    modifies w
    ensures ok <==> |payload| <= MAX_FRAME_SIZE
    ensures w.data == if ok then old(w.data) + Encode(payload) else old(w.data)
  {
    if |payload| > MAX_FRAME_SIZE {
      return false;
    }
    var header := BigEndian(4, |payload|);
    w.Write(header);
    w.Write(payload);
    assert old(w.data) + header + payload == old(w.data) + Encode(payload);
    ok := true;
  }

  method ReadFrame(r: Reader) returns (ok: bool, payload: bytes)
    modifies r
    ensures ok <==> Decode(old(r.data)).Some?
    ensures ok ==> (payload, r.data) == Decode(old(r.data)).value
  {
    var header;
    ok, header := r.ReadFull(4);
    if !ok {
      return false, [];
    }
    var length := Value(header);
    if length > MAX_FRAME_SIZE {
      return false, [];
    }
    ok, payload := r.ReadFull(length);
  }

  /** A stream is read as a frame exactly when it is the encoding of that frame followed by
      the rest: reading undoes writing, and nothing else is ever read. */
  lemma DecodeExactly(d: bytes, payload: bytes, rest: bytes)
    ensures Decode(d) == Some((payload, rest)) <==> |payload| <= 16 * 1024 * 1024 && d == Encode(payload) + rest
  {
    if |payload| <= MAX_FRAME_SIZE && d == Encode(payload) + rest {
      assert Pow256(4) == 0x1_0000_0000 by { assert Pow256(2) == 0x1_0000; }
      ValueOfBigEndian(4, |payload|);
      assert d[..4] == BigEndian(4, |payload|) && d[4..] == payload + rest;
    }
    if Decode(d) == Some((payload, rest)) {
      BigEndianOfValue(d[..4]);
      assert d == d[..4] + (payload + rest);
    }
  }

  /** On the wire: four bytes of length, the highest first, and the payload. */
  lemma FrameLayout(payload: bytes)
    ensures var n := |payload|;
            Encode(payload) == [n / 256 / 256 / 256 % 256, n / 256 / 256 % 256, n / 256 % 256, n % 256] + payload
  {
    var n, h := |payload|, BigEndian(4, |payload|);
    BigEndianDigits(4, n);
    var q := n / 256;
    assert Digit(n, 3) == Digit(q, 2) == Digit(q / 256, 1) == Digit(q / 256 / 256, 0);
    assert Digit(n, 2) == Digit(q, 1) == Digit(q / 256, 0) && Digit(n, 1) == Digit(q, 0);
    assert h[0] == Digit(n, 3) && h[1] == Digit(n, 2) && h[2] == Digit(n, 1) && h[3] == Digit(n, 0);
    assert h == [h[0], h[1], h[2], h[3]];
  }

  /** No frame is read from a stream that stops inside one. */
  lemma TruncatedFrameIsRefused(payload: bytes, n: nat)
    requires |payload| <= MAX_FRAME_SIZE && n < |Encode(payload)|
    ensures Decode(Encode(payload)[..n]).None?
  {
    var d := Encode(payload);
    DecodeExactly(d, payload, []);
    assert d + [] == d;
    if n >= 4 {
      assert d[..n][..4] == d[..4];
    }
  }

  function EncodeAll(payloads: seq<bytes>): bytes {
    if payloads == [] then [] else Encode(payloads[0]) + EncodeAll(payloads[1..])
  }

  lemma EncodeFrom(payloads: seq<bytes>, i: nat)
    requires i < |payloads|
    ensures EncodeAll(payloads[i..]) == Encode(payloads[i]) + EncodeAll(payloads[i + 1..])
  {
    assert payloads[i..][0] == payloads[i] && payloads[i..][1..] == payloads[i + 1..];
  }

  method WriteFrames(w: Writer, payloads: seq<bytes>)
    requires forall p | p in payloads :: |p| <= MAX_FRAME_SIZE
    modifies w
    ensures w.data == old(w.data) + EncodeAll(payloads)
  {
    for i := 0 to |payloads|
      invariant w.data + EncodeAll(payloads[i..]) == old(w.data) + EncodeAll(payloads)
    {
      EncodeFrom(payloads, i);
      Append(w.data, Encode(payloads[i]), EncodeAll(payloads[i + 1..]));
      var ok := WriteFrame(w, payloads[i]);
    }
  }

  /** What stands before the i-th payload is read as its frame and what follows. */
  lemma NextFrame(payloads: seq<bytes>, i: nat, tail: bytes)
    requires i < |payloads| && |payloads[i]| <= MAX_FRAME_SIZE
    ensures Decode(EncodeAll(payloads[i..]) + tail) == Some((payloads[i], EncodeAll(payloads[i + 1..]) + tail))
  {
    EncodeFrom(payloads, i);
    Append(Encode(payloads[i]), EncodeAll(payloads[i + 1..]), tail);
    DecodeExactly(EncodeAll(payloads[i..]) + tail, payloads[i], EncodeAll(payloads[i + 1..]) + tail);
  }

  /** Any sequence of payloads written is read back identically, and the bytes that follow
      are left in the stream. */
  method ReadFrames(r: Reader, n: nat, ghost payloads: seq<bytes>, ghost tail: bytes) returns (read: seq<bytes>)
    requires n == |payloads| && r.data == EncodeAll(payloads) + tail
    requires forall p | p in payloads :: |p| <= MAX_FRAME_SIZE
    modifies r
    ensures read == payloads && r.data == tail
  {
    read := [];
    assert payloads[0..] == payloads;
    for i := 0 to n
      invariant read == payloads[..i]
      invariant r.data == EncodeAll(payloads[i..]) + tail
    {
      NextFrame(payloads, i, tail);
      var ok, payload := ReadFrame(r);
      read := read + [payload];
    }
    assert [] + tail == tail;
  }

  // ----- signed byte strings -----

  type int64 = x: int | -0x8000_0000_0000_0000 <= x < 0x8000_0000_0000_0000
  type int32 = x: int | -0x8000_0000 <= x < 0x8000_0000

  /** binary.Write of signed integers: two's complement, big-endian. */
  function I64(x: int64): (b: bytes)
    ensures |b| == 8
  {
    BigEndian(8, if x < 0 then x + 0x1_0000_0000_0000_0000 else x)
  }

  function I32(x: int32): (b: bytes)
    ensures |b| == 4
  {
    BigEndian(4, if x < 0 then x + 0x1_0000_0000 else x)
  }

  function RecordPreimage(sequence: int64, operation: int32, timestamp: int64, ruleHash: bytes): bytes {
    I64(sequence) + I32(operation) + I64(timestamp) + ruleHash
  }

  function BundlePreimage(lastSequence: int64, issuedAt: int64, signatures: seq<bytes>): bytes
    requires |signatures| < 0x8000_0000_0000_0000
  {
    I64(lastSequence) + I64(issuedAt) + I64(|signatures|) + Flatten(signatures)
  }

  /** The unsigned number that stands for x in w bytes. */
  function Unsigned(w: nat, x: int): int {
    if x < 0 then x + Pow256(w) else x
  }

  lemma UnsignedInjective(w: nat, x: int, y: int)
    requires 0 - Pow256(w) <= 2 * x < Pow256(w) && 0 - Pow256(w) <= 2 * y < Pow256(w)
    ensures 0 <= Unsigned(w, x) < Pow256(w) && 0 <= Unsigned(w, y) < Pow256(w)
    ensures BigEndian(w, Unsigned(w, x)) == BigEndian(w, Unsigned(w, y)) <==> x == y
  {
    ValueOfBigEndian(w, Unsigned(w, x));
    ValueOfBigEndian(w, Unsigned(w, y));
  }

  lemma Widths()
    ensures Pow256(4) == 0x1_0000_0000 && Pow256(8) == 0x1_0000_0000_0000_0000
  {
    assert Pow256(2) == 0x1_0000;
    assert Pow256(4) == 0x1_0000_0000;
    assert Pow256(6) == 0x1_0000_0000_0000;
  }

  lemma I64Injective(x: int64, y: int64)
    ensures I64(x) == I64(y) <==> x == y
  {
    Widths();
    UnsignedInjective(8, x, y);
  }

  lemma I32Injective(x: int32, y: int32)
    ensures I32(x) == I32(y) <==> x == y
  {
    Widths();
    UnsignedInjective(4, x, y);
  }

  /** The digits of n, the highest first, stand at place p in w bytes. */
  predicate DigitsAt(b: bytes, p: nat, w: nat, n: nat) {
    p + w <= |b| && var d := b[p..p + w]; forall i | 0 <= i < w :: d[i] == Digit(n, w - 1 - i)
  }

  /** A signed number of 8 bytes stands at place p, in two's complement. */
  predicate Signed64At(b: bytes, p: nat, x: int64) {
    DigitsAt(b, p, 8, if x < 0 then 0x1_0000_0000_0000_0000 + x else x)
  }

  predicate Signed32At(b: bytes, p: nat, x: int32) {
    DigitsAt(b, p, 4, if x < 0 then 0x1_0000_0000 + x else x)
  }

  lemma DigitsStand(b: bytes, p: nat, w: nat, n: nat)
    requires p + w <= |b| && b[p..p + w] == BigEndian(w, n)
    ensures DigitsAt(b, p, w, n)
  {
    BigEndianDigits(w, n);
  }

  lemma I64Stands(b: bytes, p: nat, x: int64)
    requires p + 8 <= |b| && b[p..p + 8] == I64(x)
    ensures Signed64At(b, p, x)
  {
    DigitsStand(b, p, 8, if x < 0 then x + 0x1_0000_0000_0000_0000 else x);
  }

  lemma I32Stands(b: bytes, p: nat, x: int32)
    requires p + 4 <= |b| && b[p..p + 4] == I32(x)
    ensures Signed32At(b, p, x)
  {
    DigitsStand(b, p, 4, if x < 0 then x + 0x1_0000_0000 else x);
  }

  /** The signed bytes of a record: sequence, operation, time, and the hash of its rule. */
  lemma RecordLayout(sequence: int64, operation: int32, timestamp: int64, ruleHash: bytes)
    ensures var b := RecordPreimage(sequence, operation, timestamp, ruleHash);
            && |b| == 20 + |ruleHash| && b[20..] == ruleHash
            && Signed64At(b, 0, sequence) && Signed32At(b, 8, operation) && Signed64At(b, 12, timestamp)
  {
    var b := RecordPreimage(sequence, operation, timestamp, ruleHash);
    assert b[0..8] == I64(sequence) && b[8..12] == I32(operation) && b[12..20] == I64(timestamp);
    I64Stands(b, 0, sequence);
    I32Stands(b, 8, operation);
    I64Stands(b, 12, timestamp);
  }

  /** The signed bytes of a bundle: last sequence, issue time, number of records, signatures. */
  lemma BundleLayout(lastSequence: int64, issuedAt: int64, signatures: seq<bytes>)
    requires |signatures| < 0x8000_0000_0000_0000
    ensures var b := BundlePreimage(lastSequence, issuedAt, signatures);
            && |b| >= 24 && b[24..] == Flatten(signatures)
            && Signed64At(b, 0, lastSequence) && Signed64At(b, 8, issuedAt) && Signed64At(b, 16, |signatures|)
  {
    var b := BundlePreimage(lastSequence, issuedAt, signatures);
    assert b[0..8] == I64(lastSequence) && b[8..16] == I64(issuedAt) && b[16..24] == I64(|signatures|);
    I64Stands(b, 0, lastSequence);
    I64Stands(b, 8, issuedAt);
    I64Stands(b, 16, |signatures|);
  }

  /** Two records with the same signed bytes agree on every field that is signed. */
  lemma RecordPreimageInjective(s1: int64, o1: int32, t1: int64, h1: bytes, s2: int64, o2: int32, t2: int64, h2: bytes)
    ensures RecordPreimage(s1, o1, t1, h1) == RecordPreimage(s2, o2, t2, h2) <==>
            s1 == s2 && o1 == o2 && t1 == t2 && h1 == h2
  {
    var p, q := RecordPreimage(s1, o1, t1, h1), RecordPreimage(s2, o2, t2, h2);
    assert p[..8] == I64(s1) && p[8..12] == I32(o1) && p[12..20] == I64(t1) && p[20..] == h1;
    assert q[..8] == I64(s2) && q[8..12] == I32(o2) && q[12..20] == I64(t2) && q[20..] == h2;
    I64Injective(s1, s2);
    I32Injective(o1, o2);
    I64Injective(t1, t2);
  }

  lemma {:induction false} FlattenInjective(a: seq<bytes>, b: seq<bytes>, width: nat)
    requires |a| == |b| && Flatten(a) == Flatten(b)
    requires forall i | 0 <= i < |a| :: |a[i]| == width && |b[i]| == width
    ensures a == b
    decreases |a|
  {
    if a != [] {
      assert Flatten(a)[..width] == a[0] && Flatten(b)[..width] == b[0];
      assert Flatten(a)[width..] == Flatten(a[1..]) && Flatten(b)[width..] == Flatten(b[1..]);
      FlattenInjective(a[1..], b[1..], width);
      assert a == [a[0]] + a[1..] && b == [b[0]] + b[1..];
    }
  }

  /** With signatures of one length (64 bytes for Ed25519) a bundle's signed bytes fix its
      sequence, its issue time and the signature of each of its records, in order. */
  lemma BundlePreimageInjective(l1: int64, i1: int64, g1: seq<bytes>, l2: int64, i2: int64, g2: seq<bytes>, width: nat)
    requires |g1| < 0x8000_0000_0000_0000 && |g2| < 0x8000_0000_0000_0000
    requires forall g | g in g1 + g2 :: |g| == width
    ensures BundlePreimage(l1, i1, g1) == BundlePreimage(l2, i2, g2) <==> l1 == l2 && i1 == i2 && g1 == g2
  {
    if BundlePreimage(l1, i1, g1) == BundlePreimage(l2, i2, g2) {
      BundleParts(l1, i1, g1);
      BundleParts(l2, i2, g2);
      I64Injective(l1, l2);
      I64Injective(i1, i2);
      I64Injective(|g1|, |g2|);
      SameSignatures(g1, g2, width);
    }
  }

  lemma BundleParts(last: int64, issued: int64, g: seq<bytes>)
    requires |g| < 0x8000_0000_0000_0000
    ensures var p := BundlePreimage(last, issued, g);
            && |p| >= 24 && p[..8] == I64(last) && p[8..16] == I64(issued) && p[16..24] == I64(|g|)
            && p[24..] == Flatten(g)
  {
  }

  lemma SameSignatures(g1: seq<bytes>, g2: seq<bytes>, width: nat)
    requires |g1| == |g2| && Flatten(g1) == Flatten(g2) && forall g | g in g1 + g2 :: |g| == width
    ensures g1 == g2
  {
    forall i | 0 <= i < |g1| ensures |g1[i]| == width && |g2[i]| == width {
      assert g1[i] in g1 + g2 && g2[i] in g1 + g2;
    }
    FlattenInjective(g1, g2, width);
  }

  lemma FlattenTwo(a: bytes, b: bytes)
    ensures Flatten([a, b]) == a + b
  {
    assert [a, b][1..] == [b] && [b][1..] == [];
    assert Flatten([b]) == b + Flatten([]);
  }

  /** Without a fixed length the count alone would not do: any bytes can be cut into two
      signatures in several ways. */
  lemma VariableLengthIsAmbiguous(last: int64, issued: int64, a: bytes, b: bytes, c: bytes)
    requires b != []
    ensures [a, b + c] != [a + b, c]
    ensures BundlePreimage(last, issued, [a, b + c]) == BundlePreimage(last, issued, [a + b, c])
  {
    FlattenTwo(a, b + c);
    FlattenTwo(a + b, c);
    Append(a, b, c);
    assert [a, b + c][0] != [a + b, c][0];
  }
}
