/** The image in three stages: what the header and the reservation leave,
    what the traversal adds on top of that, and the writes that follow it,
    with the offsets of the file-info table and of the file data. */
module ImageStages {
  import opened Bytes
  import opened Wrappers
  import opened Writer
  import opened Tree
  import opened Names
  import opened TraversalSpec
  import opened LayoutSpec
  import opened Frames
  import opened TableImage
  import opened DataImage
  import opened ImageLayout

  /** The first twelve bytes of the header: the magic, -1 and 0x20. */
  const HeaderHead: seq<byte> := Magic + LE32(-1) + LE32(0x20)

  /** The last sixteen bytes of the header: -1, -1, then slot 0: 0x8000, 0
      and the directory count n. */
  function HeaderTail(n: int): (r: seq<byte>)
    ensures |r| == 0x10
  {
    LE32(-1) + LE32(-1) + LE32(0x8000) + LE16(0) + LE16(n)
  }

  /** The first 0x28 bytes once the header is written: twelve bytes are
      skipped between its two parts, and stay zero until patched. */
  function HeaderBytes(n: int): (r: seq<byte>)
    ensures |r| == 0x28
  {
    HeaderHead + Fill(12, 0) + HeaderTail(n)
  }

  /** What the header and the reservation leave. */
  function Reserved(root: Dir): seq<byte>
  {
    Apply([], Prefix(root))
  }

  /** What the traversal leaves on top of that. */
  function Tabled(root: Dir): seq<byte>
  {
    Apply(Reserved(root), Emit(Visits(NameTableStart, Entries(root), 1, 0), TotalDirCount(root)))
  }

  /** Where the file-info table starts: the end of the name table, made even. */
  function FileInfoPos(root: Dir): nat
  {
    RoundUp(TableEnd(root), 2)
  }

  /** Where the file-info table ends. */
  function InfoEnd(root: Dir): nat
  {
    FileInfoPos(root) + 8 * TotalFiles(root)
  }

  /** Where the first file's data starts: the end of the info table rounded
      up to 16. */
  function FileDataPos(root: Dir): nat
  {
    RoundUp(InfoEnd(root), 0x10)
  }

  /** The trees the builder accepts whose data section ends below 4 GiB, so
      that no offset it writes as a uint wraps. */
  predicate Fits(root: Dir)
  {
    Buildable(root) && DataLimit(FileList(Entries(root)), FileDataPos(root)) < TWO32
  }

  /** The image of an accepted tree: what the writes after the traversal
      leave on top of Tabled. */
  function Built(root: Dir): seq<byte>
  {
    Apply(Tabled(root), Tail(root))
  }

  /** The writes after the traversal. */
  function Tail(root: Dir): seq<Write>
  {
    TailWrites(Final(root))
  }

  /** A write past the end of the stream leaves zeros in the gap. */
  lemma PutPastEnd(s: seq<byte>, at: nat, b: seq<byte>)
    requires |s| <= at && b != []
    ensures Put(s, at, b) == s + Fill(at - |s|, 0) + b
  {
    var s1 := s + Fill(at - |s|, 0) + [b[0]];
    assert Poke(s, at, b[0]) == s1;
    PutAtEnd(s1, b[1..]);
    assert s1 + b[1..] == s + Fill(at - |s|, 0) + b;
  }

  /** A write at the end of the stream, then more writes: the more writes
      start from the stream with the first write's bytes appended. */
  lemma ApplyFront(s: seq<byte>, w: Write, rest: seq<Write>)
    requires w.at == |s|
    ensures Apply(s, [w] + rest) == Apply(s + Encoding(w), rest)
  {
    ApplyAppend(s, [w], rest);
    ApplyOne(s, w);
    PutAtEnd(s, Encoding(w));
  }

  /** The magic, -1 and the 0x20 go down end to end. */
  lemma HeaderFront()
    ensures Apply([], [Raw(0, Magic), Int32(4, -1), Int32(8, 0x20)]) == HeaderHead
  {
    var w0, w1, w2 := Raw(0, Magic), Int32(4, -1), Int32(8, 0x20);
    assert [w0, w1, w2] == [w0] + [w1, w2];
    assert [w1, w2] == [w1] + [w2];
    assert [] + Magic == Magic;
    ApplyFront([], w0, [w1, w2]);
    ApplyFront(Magic, w1, [w2]);
    ApplyFront(Magic + LE32(-1), w2, []);
  }

  /** The rest of the header skips twelve bytes, which stay zero. */
  lemma HeaderBack(s: seq<byte>, n: int)
    requires |s| == 0xC
    ensures Apply(s, [Int32(0x18, -1), Int32(0x1C, -1), Int32(0x20, 0x8000), UInt16(0x24, 0), UInt16(0x26, n)])
            == s + Fill(12, 0) + HeaderTail(n)
  {
    var t := s + Fill(12, 0);
    var w3, w4, w5, w6, w7 := Int32(0x18, -1), Int32(0x1C, -1), Int32(0x20, 0x8000), UInt16(0x24, 0), UInt16(0x26, n);
    assert [w3, w4, w5, w6, w7] == [w3] + [w4, w5, w6, w7];
    ApplyAppend(s, [w3], [w4, w5, w6, w7]);
    ApplyOne(s, w3);
    PutPastEnd(s, 0x18, LE32(-1));
    HeaderTailFront(t + LE32(-1), n);
    HeaderTailBack(t + LE32(-1) + LE32(-1), n);
    ConcatAssoc(t, LE32(-1) + LE32(-1) + LE32(0x8000) + LE16(0), LE16(n));
    ConcatAssoc(t, LE32(-1) + LE32(-1) + LE32(0x8000), LE16(0));
    ConcatAssoc(t, LE32(-1) + LE32(-1), LE32(0x8000));
    ConcatAssoc(t, LE32(-1), LE32(-1));
  }

  lemma HeaderTailFront(u: seq<byte>, n: int)
    requires |u| == 0x1C
    ensures Apply(u, [Int32(0x1C, -1), Int32(0x20, 0x8000), UInt16(0x24, 0), UInt16(0x26, n)])
            == Apply(u + LE32(-1), [Int32(0x20, 0x8000), UInt16(0x24, 0), UInt16(0x26, n)])
  {
    var w4, w5, w6, w7 := Int32(0x1C, -1), Int32(0x20, 0x8000), UInt16(0x24, 0), UInt16(0x26, n);
    assert [w4, w5, w6, w7] == [w4] + [w5, w6, w7];
    ApplyFront(u, w4, [w5, w6, w7]);
  }

  lemma HeaderTailBack(u: seq<byte>, n: int)
    requires |u| == 0x20
    ensures Apply(u, [Int32(0x20, 0x8000), UInt16(0x24, 0), UInt16(0x26, n)]) == u + LE32(0x8000) + LE16(0) + LE16(n)
  {
    var w5, w6, w7 := Int32(0x20, 0x8000), UInt16(0x24, 0), UInt16(0x26, n);
    assert [w5, w6, w7] == [w5] + [w6, w7];
    assert [w6, w7] == [w6] + [w7];
    ApplyFront(u, w5, [w6, w7]);
    ApplyFront(u + LE32(0x8000), w6, [w7]);
    ApplyFront(u + LE32(0x8000) + LE16(0), w7, []);
  }

  /** The header's writes leave HeaderBytes. */
  lemma HeaderApply(n: int)
    ensures Apply([], HeaderWrites(n)) == HeaderBytes(n)
  {
    var front := [Raw(0, Magic), Int32(4, -1), Int32(8, 0x20)];
    var back := [Int32(0x18, -1), Int32(0x1C, -1), Int32(0x20, 0x8000), UInt16(0x24, 0), UInt16(0x26, n)];
    assert HeaderWrites(n) == front + back;
    ApplyAppend([], front, back);
    HeaderFront();
    HeaderBack(HeaderHead, n);
  }

  /** The reservation's k Int32 -1 writes from p to the name table put
      down one run of 0xFF. */
  lemma {:induction false} ReserveRun(s: seq<byte>, p: nat, k: nat)
    requires p + 4 * k == NameTableStart
    ensures Apply(s, ReserveWrites(p)) == Apply(s, [Raw(p, Fill(NameTableStart - p, 0xFF))])
    decreases k
  {
    ApplyOne(s, Raw(p, Fill(NameTableStart - p, 0xFF)));
    if p == NameTableStart {
      assert Fill(0, 0xFF) == [];
    } else {
      var ff := Fill(4, 0xFF);
      assert LE32(-1) == ff;
      var s1 := Put(s, p, ff);
      ApplyAppend(s, [Int32(p, -1)], ReserveWrites(p + 4));
      ApplyOne(s, Int32(p, -1));
      ReserveRun(s1, p + 4, k - 1);
      ApplyOne(s1, Raw(p + 4, Fill(NameTableStart - p - 4, 0xFF)));
      PutThen(s, p, ff, p + 4, Fill(NameTableStart - p - 4, 0xFF));
      assert ff + Fill(NameTableStart - p - 4, 0xFF) == Fill(NameTableStart - p, 0xFF);
    }
  }

  /** After the header and the reservation the stream is the header, four
      zero bytes skipped, and 0xFF up to the name table. */
  lemma ReservedBytes(root: Dir)
    ensures Reserved(root) == HeaderBytes(TotalDirCount(root)) + Fill(4, 0) + Fill(0x7FF4, 0xFF)
  {
    var h := HeaderBytes(TotalDirCount(root));
    ApplyAppend([], HeaderWrites(TotalDirCount(root)), ReserveWrites(0x2C));
    HeaderApply(TotalDirCount(root));
    ReserveRun(h, 0x2C, 0x1FFD);
    ApplyOne(h, Raw(0x2C, Fill(0x7FF4, 0xFF)));
    PutPastEnd(h, 0x2C, Fill(0x7FF4, 0xFF));
  }

  lemma ReservedLength(root: Dir)
    ensures |Reserved(root)| == NameTableStart
  {
    ReservedBytes(root);
  }

  /** Under the capacity limits the header's count is the number of
      directories, one per entry of the pre-order. */
  lemma DirCount(root: Dir)
    requires Buildable(root)
    ensures TotalDirCount(root) == |Entries(root)| == RecursiveDirCount(root) + 1 <= 0xFFE
  {
    PreorderLength(root, 1, 0, true);
  }

  /** The traversal leaves the name blocks of the pre-order end to end from
      the name table's start. */
  lemma TabledBytes(root: Dir)
    requires Buildable(root)
    ensures |Tabled(root)| == TableEnd(root)
    ensures Tabled(root)[NameTableStart..] == NameTable(Entries(root), 1)
  {
    DirCount(root);
    ReservedLength(root);
    EmitNames(Reserved(root), NameTableStart, Entries(root), 1, 0, TotalDirCount(root));
  }

  /** The image of an accepted tree is Built(root), and the writes after
      the traversal are the padding at the end of the name table, the header
      patch, the files and the 0xFF fill. */
  lemma ImageStaged(root: Dir)
    requires Buildable(root)
    ensures Image(root) == Success(Built(root))
    ensures Final(root).pos == TableEnd(root) && |Final(root).filePaths| == TotalFiles(root)
    ensures Tail(root) == PadWrites(TableEnd(root)) + PatchWrites(FileInfoPos(root), TotalFiles(root))
                          + DataWrites(FileList(Entries(root)), FileInfoPos(root), FileDataPos(root) % TWO32)
                          + FFWrites(InfoEnd(root), FileDataPos(root))
  {
    var f := Final(root);
    ImageSuccessIff(root);
    FileListSize(root, 1, 0, true);
    ApplyAppend([], f.log, Tail(root));
    ApplyAppend([], Prefix(root), Emit(Visits(NameTableStart, Entries(root), 1, 0), TotalDirCount(root)));
    TailWritesParts(f, FileInfoPos(root), InfoEnd(root));
  }

  /** Where the file data ends when nothing wraps: past the data start. */
  lemma FitsBounds(root: Dir)
    requires Fits(root)
    ensures TableEnd(root) <= FileInfoPos(root) <= InfoEnd(root) <= FileDataPos(root) < TWO32
    ensures FileDataPos(root) % TWO32 == FileDataPos(root)
  {
    DataLimitGrows(FileList(Entries(root)), FileDataPos(root));
  }

  lemma PadAvoids(p: nat, lo: nat, hi: nat)
    requires hi <= p
    ensures Avoids(PadWrites(p), lo, hi)
  {
    if p % 2 != 0 {
      Single(Raw(p, [0]), 0, lo, hi);
    }
  }

  /** The header patch touches 0xC..0x18 only. */
  lemma PatchAvoids(fileInfoPos: int, fileCount: int, lo: nat, hi: nat)
    requires hi <= 0xC || 0x18 <= lo
    ensures Avoids(PatchWrites(fileInfoPos, fileCount), lo, hi)
  {
    var w0, w1, w2 := Int32(0xC, fileInfoPos - 0x20), Int32(0x10, fileInfoPos), Int32(0x14, fileCount * 8);
    Single(w0, 0, lo, hi);
    Single(w1, 0, lo, hi);
    Single(w2, 0, lo, hi);
    AvoidsAppend([w0], [w1], lo, hi);
    AvoidsAppend([w0] + [w1], [w2], lo, hi);
    assert PatchWrites(fileInfoPos, fileCount) == [w0] + [w1] + [w2];
  }

  /** The writes after the traversal miss every range before the end of the
      name table that is clear of the patched header fields at 0xC..0x18. */
  lemma TailAvoids(root: Dir, lo: nat, hi: nat)
    requires Fits(root) && hi <= TableEnd(root) && (hi <= 0xC || 0x18 <= lo)
    ensures Avoids(Tail(root), lo, hi)
  {
    var fs := FileList(Entries(root));
    var pad, patch := PadWrites(TableEnd(root)), PatchWrites(FileInfoPos(root), TotalFiles(root));
    var data := DataWrites(fs, FileInfoPos(root), FileDataPos(root) % TWO32);
    var ff := FFWrites(InfoEnd(root), FileDataPos(root));
    ImageStaged(root);
    FitsBounds(root);
    PadAvoids(TableEnd(root), lo, hi);
    PatchAvoids(FileInfoPos(root), TotalFiles(root), lo, hi);
    DataAvoids(fs, FileInfoPos(root), FileDataPos(root), lo, hi);
    FFBounds(InfoEnd(root), FileDataPos(root));
    AboveAvoids(ff, InfoEnd(root), lo, hi);
    AvoidsAppend(pad, patch, lo, hi);
    AvoidsAppend(pad + patch, data, lo, hi);
    AvoidsAppend(pad + patch + data, ff, lo, hi);
  }

  /** Bytes of Tabled the tail misses are in the image. */
  lemma BuiltKeeps(root: Dir, lo: nat, hi: nat)
    requires Fits(root) && lo <= hi <= TableEnd(root) && (hi <= 0xC || 0x18 <= lo)
    ensures |Tabled(root)| == TableEnd(root) && hi <= |Built(root)|
    ensures Built(root)[lo..hi] == Tabled(root)[lo..hi]
  {
    TabledBytes(root);
    TailAvoids(root, lo, hi);
    ApplyKeeps(Tabled(root), Tail(root), lo, hi);
  }
}
