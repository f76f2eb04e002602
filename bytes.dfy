/** Bytes, little-endian fixed-width encodings and the "seek, then write"
    primitive of the output stream. */
module Bytes {

  type byte = b: int | 0 <= b < 0x100

  const TWO16: int := 0x1_0000
  const TWO32: int := 0x1_0000_0000

  function Max(a: int, b: int): int { if a < b then b else a }

  /** Regrouping a concatenation. */
  lemma ConcatAssoc<T>(x: seq<T>, y: seq<T>, z: seq<T>)
    ensures x + (y + z) == (x + y) + z
  {
  }

  lemma ConcatAssoc3<T>(a: seq<T>, b: seq<T>, c: seq<T>, d: seq<T>)
    ensures ((a + b) + c) + d == a + ((b + c) + d)
  {
  }

  lemma ConcatPair<T>(s: seq<T>, x: T, y: T)
    ensures s + [x] + [y] == s + [x, y]
  {
  }

  lemma ConcatTriple<T>(s: seq<T>, x: T, y: T, z: T)
    ensures s + [x] + [y] + [z] == s + [x, y, z]
  {
  }

  /** n copies of the byte x */
  function Fill(n: nat, x: byte): (r: seq<byte>)
    ensures |r| == n
    ensures forall k :: 0 <= k < n ==> r[k] == x
  {
    seq(n, _ => x)
  }

  /** A UInt16 write: the low 16 bits of v, least significant byte first. */
  function LE16(v: int): (r: seq<byte>)
    ensures |r| == 2
  {
    var u := v % TWO16;
    [u % 0x100, u / 0x100]
  }

  /** An Int32 or UInt32 write: the low 32 bits of v (two's complement for a
      negative v), least significant byte first. */
  function LE32(v: int): (r: seq<byte>)
    ensures |r| == 4
  {
    var u := v % TWO32;
    var q1 := u / 0x100;
    var q2 := q1 / 0x100;
    [u % 0x100, q1 % 0x100, q2 % 0x100, q2 / 0x100]
  }

  /** The little-endian UInt16 stored at offset k. */
  function U16At(s: seq<byte>, k: nat): int
    requires k + 2 <= |s|
  {
    (s[k] as int) + 0x100 * (s[k + 1] as int)
  }

  /** The little-endian UInt32 stored at offset k. */
  function U32At(s: seq<byte>, k: nat): int
    requires k + 4 <= |s|
  {
    (s[k] as int) + 0x100 * (s[k + 1] as int) + 0x1_0000 * (s[k + 2] as int) + 0x100_0000 * (s[k + 3] as int)
  }

  /** Reading back a UInt16 write gives the value modulo 2^16. */
  lemma LE16Decodes(v: int)
    ensures U16At(LE16(v), 0) == v % TWO16
  {
  }

  /** Reading back an Int32 or UInt32 write gives the value modulo 2^32. */
  lemma LE32Decodes(v: int)
    ensures U32At(LE32(v), 0) == v % TWO32
  {
    var u := v % TWO32;
    var q1 := u / 0x100;
    var q2 := q1 / 0x100;
    assert u == u % 0x100 + 0x100 * q1;
    assert q1 == q1 % 0x100 + 0x100 * q2;
    assert q2 == q2 % 0x100 + 0x100 * (q2 / 0x100);
  }

  /** The stream contents after seeking to `at` and writing the single byte
      x: a gap between the old end and `at` reads as zero. */
  function Poke(s: seq<byte>, at: nat, x: byte): (r: seq<byte>)
    ensures |r| == Max(|s|, at + 1)
  {
    if at < |s| then s[at := x] else s + Fill(at - |s|, 0) + [x]
  }

  /** The stream contents after seeking to `at` and writing `b`, byte by
      byte; an empty write changes nothing. */
  function Put(s: seq<byte>, at: nat, b: seq<byte>): seq<byte>
    decreases |b|
  {
    if b == [] then s else Put(Poke(s, at, b[0]), at + 1, b[1..])
  }

  /** A write extends the stream to the end of what it writes, if it was shorter. */
  lemma {:induction false} PutLength(s: seq<byte>, at: nat, b: seq<byte>)
    ensures |Put(s, at, b)| == if b == [] then |s| else Max(|s|, at + |b|)
    decreases |b|
  {
    if b != [] {
      PutLength(Poke(s, at, b[0]), at + 1, b[1..]);
    }
  }

  lemma PokeBytes(s: seq<byte>, at: nat, x: byte)
    ensures forall k :: 0 <= k < |Poke(s, at, x)| ==>
      Poke(s, at, x)[k] == if k == at then x else if k < |s| then s[k] else 0
  {
  }

  /** Every byte of the stream after a write: the bytes of b replace what
      was there, the rest is kept, and a gap reads as zero. */
  lemma {:induction false} PutBytes(s: seq<byte>, at: nat, b: seq<byte>)
    ensures |Put(s, at, b)| == if b == [] then |s| else Max(|s|, at + |b|)
    ensures forall k :: 0 <= k < |Put(s, at, b)| ==>
      Put(s, at, b)[k] == if at <= k < at + |b| then b[k - at] else if k < |s| then s[k] else 0
    decreases |b|
  {
    PutLength(s, at, b);
    if b != [] {
      var p := Poke(s, at, b[0]);
      PokeBytes(s, at, b[0]);
      PutLength(p, at + 1, b[1..]);
      PutBytes(p, at + 1, b[1..]);
      forall k | 0 <= k < |Put(s, at, b)|
        ensures Put(s, at, b)[k] == if at <= k < at + |b| then b[k - at] else if k < |s| then s[k] else 0
      {
        if at + 1 <= k < at + |b| {
          assert b[1..][k - at - 1] == b[k - at];
        }
      }
    }
  }

  /** After a write the bytes written are where they were put. */
  lemma PutCovers(s: seq<byte>, at: nat, b: seq<byte>)
    requires b != []
    ensures at + |b| <= |Put(s, at, b)| && Put(s, at, b)[at..at + |b|] == b
  {
    PutBytes(s, at, b);
  }

  /** Two writes end to end are one write of both. */
  lemma {:induction false} PutConcat(s: seq<byte>, at: nat, x: seq<byte>, y: seq<byte>)
    ensures Put(Put(s, at, x), at + |x|, y) == Put(s, at, x + y)
    decreases |x|
  {
    if x == [] {
      assert x + y == y;
    } else {
      assert (x + y)[0] == x[0] && (x + y)[1..] == x[1..] + y;
      PutConcat(Poke(s, at, x[0]), at + 1, x[1..], y);
    }
  }
}
