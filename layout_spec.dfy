/** The whole image as a function of the input tree: the writes of the
    header, the table reservation, the traversal, the even padding, the
    header patch, the file-info table and file data and the final 0xFF fill,
    in the order the builder makes them. */
module LayoutSpec {
  import opened Bytes
  import opened Wrappers
  import opened Writer
  import opened Tree
  import opened Names
  import opened Capacity
  import opened TraversalSpec

  /** Where the directory table's slots and the name table begin. */
  const TableStart: nat := 0x20
  const NameTableStart: nat := 0x8020

  /** "ROFS" */
  const Magic: seq<byte> := [0x52, 0x4F, 0x46, 0x53]

  /** The alignments the layout uses. */
  predicate Modulus(m: nat)
  {
    m == 2 || m == 4 || m == 0x10
  }

  /** x rounded up to a multiple of m. */
  function RoundUp(x: nat, m: nat): (r: nat)
    requires Modulus(m)
    ensures x <= r < x + m && r % m == 0
  {
    var n := (x + m - 1) / m;
    if m == 2 then assert x <= n * 2 < x + 2; n * 2
    else if m == 4 then assert x <= n * 4 < x + 4; n * 4
    else assert x <= n * 0x10 < x + 0x10; n * 0x10
  }

  /** RoundUp(x, m) is the least multiple of m at or after x: the loops that
      step one byte at a time until the position is a multiple of m stop
      there. */
  lemma RoundUpLeast(x: nat, m: nat, q: nat)
    requires Modulus(m) && x <= q <= RoundUp(x, m) && q % m == 0
    ensures q == RoundUp(x, m)
  {
    var n := (x + m - 1) / m;
    var j := q / m;
    if m == 2 {
      assert q == j * 2 && x + 1 < n * 2 + 2 && j >= n;
    } else if m == 4 {
      assert q == j * 4 && x + 3 < n * 4 + 4 && j >= n;
    } else {
      assert q == j * 0x10 && x + 0xF < n * 0x10 + 0x10 && j >= n;
    }
  }

  /** (ushort)(GetRecursiveDirCount(root) + 1): the number of directories,
      as the header's UInt16 holds it. */
  function TotalDirCount(root: Dir): nat
  {
    (RecursiveDirCount(root) + 1) % 0x1_0000
  }

  /** Lines 32-45: the magic, 0xFFFFFFFF, 0x20, 12 bytes skipped, two
      0xFFFFFFFF, then slot 0 of the table: 0x8000, 0 and the directory
      count. */
  function HeaderWrites(totalDirCount: int): seq<Write>
  {
    [Raw(0, Magic), Int32(4, -1), Int32(8, 0x20), Int32(0x18, -1), Int32(0x1C, -1),
     Int32(0x20, 0x8000), UInt16(0x24, 0), UInt16(0x26, totalDirCount)]
  }

  /** Lines 46-51: Int32 -1 from p on, four bytes at a time, up to the name
      table. */
  function ReserveWrites(p: nat): seq<Write>
    decreases NameTableStart - p
  {
    if p >= NameTableStart then [] else [Int32(p, -1)] + ReserveWrites(p + 4)
  }

  /** Single 0xFF bytes from p up to q. */
  function FFWrites(p: nat, q: nat): seq<Write>
    decreases q - p
  {
    if p >= q then [] else [Raw(p, [0xFF])] + FFWrites(p + 1, q)
  }

  /** Lines 58-61: a zero byte at p if p is odd. */
  function PadWrites(p: nat): seq<Write>
  {
    if p % 2 == 0 then [] else [Raw(p, [0])]
  }

  /** Lines 62-66: the header fields at 0xC: the file-info table's offset
      from 0x20, its offset, and its size. */
  function PatchWrites(fileInfoPos: int, fileCount: int): seq<Write>
  {
    [Int32(0xC, fileInfoPos - 0x20), Int32(0x10, fileInfoPos), Int32(0x14, fileCount * 8)]
  }

  /** Where a file's data ends (the offset written as a uint) and where the
      next file's data starts: one 0xFF past the end, then up to a multiple
      of 4. */
  function DataEnd(cur: nat, f: File): nat
  {
    (cur + |f.content|) % TWO32
  }

  function NextData(cur: nat, f: File): nat
  {
    RoundUp(cur + |f.content| + 1, 4) % TWO32
  }

  /** Lines 87-100 for one file whose info entry is at infoPos and whose data
      goes to cur: the start offset, the contents, the 0xFF padding, the end
      offset. */
  function OneFileWrites(infoPos: nat, cur: nat, f: File): seq<Write>
  {
    var end := cur + |f.content|;
    [Int32(infoPos, cur), Raw(cur, f.content)] + FFWrites(end, RoundUp(end + 1, 4))
    + [Int32(infoPos + 4, DataEnd(cur, f))]
  }

  /** Lines 78-105: each file in list order, its info entry 8 bytes after
      the previous one. */
  function DataWrites(fs: seq<File>, infoPos: nat, cur: nat): seq<Write>
  {
    if fs == [] then []
    else OneFileWrites(infoPos, cur, fs[0]) + DataWrites(fs[1..], infoPos + 8, NextData(cur, fs[0]))
  }

  /** Lines 81-85: the first file of 0xFFFFFFFF bytes or more stops the run. */
  function FileSizeCheck(fs: seq<File>): Option<Error>
  {
    if fs == [] then None
    else if |fs[0].content| >= 0xFFFF_FFFF then Some(FileTooBig)
    else FileSizeCheck(fs[1..])
  }

  /** The traversal's starting state: the writes of the header and the
      reservation, the position `seek`, lastNamePos at the name table, the
      counter at 1, no files. */
  function Start(root: Dir, seek: nat): Walk
  {
    Walk(HeaderWrites(TotalDirCount(root)) + ReserveWrites(0x2C), seek, NameTableStart, 1, 0, [])
  }

  /** The writes that follow a traversal that ended in state t. */
  function TailWrites(t: Walk): seq<Write>
  {
    var fileInfoPos := RoundUp(t.pos, 2);
    var infoEnd := fileInfoPos + 8 * |t.filePaths|;
    var fileDataPos := RoundUp(infoEnd, 0x10);
    PadWrites(t.pos) + PatchWrites(fileInfoPos, t.fileCount)
    + DataWrites(t.filePaths, fileInfoPos, fileDataPos % TWO32) + FFWrites(infoEnd, fileDataPos)
  }

  /** All the writes the builder makes for root, the traversal entered with
      the stream at `seek`; or the error that stops it. */
  function Layout(root: Dir, seek: nat): Result<seq<Write>, Error>
  {
    match Traverse(root, Start(root, seek), 0, true, TotalDirCount(root))
    case Failure(e) => Failure(e)
    case Success(t) =>
      if FileSizeCheck(t.filePaths).Some? then Failure(FileSizeCheck(t.filePaths).value)
      else Success(t.log + TailWrites(t))
  }

  /** The image: the bytes of the stream after all the writes. The builder
      enters the traversal with the stream at the name table. */
  function Image(root: Dir): Result<seq<byte>, Error>
  {
    match Layout(root, NameTableStart)
    case Failure(e) => Failure(e)
    case Success(ws) => Success(Apply([], ws))
  }

  /** One more write of a loop that ends at the writes the function gives. */
  lemma ReserveStep(log: seq<Write>, p: nat)
    requires p < NameTableStart
    ensures (log + [Int32(p, -1)]) + ReserveWrites(p + 4) == log + ReserveWrites(p)
  {
    ConcatAssoc(log, [Int32(p, -1)], ReserveWrites(p + 4));
  }

  lemma FFStep(log: seq<Write>, p: nat, q: nat)
    requires p < q
    ensures (log + [Raw(p, [0xFF])]) + FFWrites(p + 1, q) == log + FFWrites(p, q)
  {
    ConcatAssoc(log, [Raw(p, [0xFF])], FFWrites(p + 1, q));
  }

  lemma DataStep(fs: seq<File>, k: nat, infoPos: nat, cur: nat, infoPos': nat, cur': nat)
    requires k < |fs|
    requires infoPos' == infoPos + 8 && cur' == NextData(cur, fs[k])
    ensures DataWrites(fs[k..], infoPos, cur) == OneFileWrites(infoPos, cur, fs[k]) + DataWrites(fs[k + 1..], infoPos', cur')
    ensures FileSizeCheck(fs[k..]) == if |fs[k].content| >= 0xFFFF_FFFF then Some(FileTooBig) else FileSizeCheck(fs[k + 1..])
  {
    assert fs[k..][0] == fs[k] && fs[k..][1..] == fs[k + 1..];
  }

  lemma TailWritesParts(t: Walk, fileInfoPos: nat, infoEnd: nat)
    requires fileInfoPos == RoundUp(t.pos, 2) && infoEnd == fileInfoPos + 8 * |t.filePaths|
    ensures TailWrites(t)
         == PadWrites(t.pos) + PatchWrites(fileInfoPos, t.fileCount)
            + DataWrites(t.filePaths, fileInfoPos, RoundUp(infoEnd, 0x10) % TWO32) + FFWrites(infoEnd, RoundUp(infoEnd, 0x10))
  {
  }
}
