/** The seekable little-endian output stream the layout builder writes into,
    seen as the sequence of positioned writes made to it. Seeking past the
    end and writing fills the gap with zeros. */
module Writer {
  import opened Bytes

  /** One positioned write of the stream: seek to `at`, then write raw
      bytes, an Int32 (or UInt32) or a UInt16. */
  datatype Write = Raw(at: nat, bytes: seq<byte>) | Int32(at: nat, value: int) | UInt16(at: nat, value: int)

  /** The bytes a write puts down. */
  function Encoding(w: Write): seq<byte>
  {
    match w
    case Raw(_, b) => b
    case Int32(_, v) => LE32(v)
    case UInt16(_, v) => LE16(v)
  }

  /** The stream contents after the writes, in order. */
  function Apply(s: seq<byte>, ws: seq<Write>): seq<byte>
    decreases |ws|
  {
    if ws == [] then s else Apply(Put(s, ws[0].at, Encoding(ws[0])), ws[1..])
  }

  /** Doing a and then b is doing a + b. */
  lemma {:induction false} ApplyAppend(s: seq<byte>, a: seq<Write>, b: seq<Write>)
    ensures Apply(s, a + b) == Apply(Apply(s, a), b)
    decreases |a|
  {
    if a == [] {
      assert a + b == b;
    } else {
      assert (a + b)[0] == a[0] && (a + b)[1..] == a[1..] + b;
      ApplyAppend(Put(s, a[0].at, Encoding(a[0])), a[1..], b);
    }
  }

  lemma ApplyOne(s: seq<byte>, w: Write)
    ensures Apply(s, [w]) == Put(s, w.at, Encoding(w))
  {
    assert [w][1..] == [];
  }

  /** Writing w after the writes ws puts w's bytes over what ws left. */
  lemma ApplyLast(s: seq<byte>, ws: seq<Write>, w: Write)
    ensures Apply(s, ws + [w]) == Put(Apply(s, ws), w.at, Encoding(w))
  {
    ApplyAppend(s, ws, [w]);
    ApplyOne(Apply(s, ws), w);
  }

  /** The stream: the positioned writes made so far, in order, and the
      position. Its bytes are the writes applied to an empty stream. */
  class EndianWriter {
    var log: seq<Write>
    var pos: nat

    /** The bytes of the stream. */
    function Contents(): seq<byte>
      reads this
    {
      Apply([], log)
    }

    constructor ()
      ensures log == [] && pos == 0
    {
      log := [];
      pos := 0;
    }

    /** `Position = p` */
    method Seek(p: nat)
      modifies this
      ensures log == old(log) && pos == p
    {
      pos := p;
    }

    /** Write b at the position and move past it. */
    method WriteBytes(b: seq<byte>)
      modifies this
      ensures log == old(log) + [Raw(old(pos), b)]
      ensures pos == old(pos) + |b|
    {
      log := log + [Raw(pos, b)];
      pos := pos + |b|;
    }

    method WriteByte(x: byte)
      modifies this
      ensures log == old(log) + [Raw(old(pos), [x])]
      ensures pos == old(pos) + 1
    {
      WriteBytes([x]);
    }

    method WriteUInt16(v: int)
      modifies this
      ensures log == old(log) + [UInt16(old(pos), v)]
      ensures pos == old(pos) + 2
    {
      log := log + [UInt16(pos, v)];
      pos := pos + 2;
    }

    /** Int32 and UInt32 writes put down the same four bytes. */
    method WriteInt32(v: int)
      modifies this
      ensures log == old(log) + [Int32(old(pos), v)]
      ensures pos == old(pos) + 4
    {
      log := log + [Int32(pos, v)];
      pos := pos + 4;
    }
  }
}
