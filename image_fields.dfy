/** What the finished image holds, field by field, for a tree the builder
    accepts and whose file data ends below 4 GiB: the header, the directory
    slots, the name table, the file-info table, the file data and the
    padding between them. */
module ImageFields {
  import opened Bytes
  import opened Writer
  import opened Tree
  import opened Names
  import opened TraversalSpec
  import opened LayoutSpec
  import opened Frames
  import opened TableImage
  import opened DataImage
  import opened ImageLayout
  import opened ImageStages

  /** The files of the tree, in the order their data is laid out. */
  function FilesOf(root: Dir): seq<File>
  {
    FileList(Entries(root))
  }

  /** Tabled with the padding and the header patch on top. */
  function Patched(root: Dir): seq<byte>
  {
    Apply(Tabled(root), PadWrites(TableEnd(root)) + PatchWrites(FileInfoPos(root), TotalFiles(root)))
  }

  /** The image is Patched with the files and then the 0xFF fill between
      the info table and the data on top; there is one info entry per file. */
  lemma BuiltSplit(root: Dir)
    requires Fits(root)
    ensures Built(root) == Apply(Apply(Patched(root), DataWrites(FilesOf(root), FileInfoPos(root), FileDataPos(root))),
                                 FFWrites(InfoEnd(root), FileDataPos(root)))
    ensures |FilesOf(root)| == TotalFiles(root)
    ensures TableEnd(root) <= FileInfoPos(root) <= InfoEnd(root) <= FileDataPos(root) < TWO32
  {
    var pp := PadWrites(TableEnd(root)) + PatchWrites(FileInfoPos(root), TotalFiles(root));
    var data := DataWrites(FilesOf(root), FileInfoPos(root), FileDataPos(root));
    ImageStaged(root);
    FitsBounds(root);
    ApplyAppend(Tabled(root), pp + data, FFWrites(InfoEnd(root), FileDataPos(root)));
    ApplyAppend(Tabled(root), pp, data);
  }

  /** The name blocks of the pre-order lie end to end from 0x8020. */
  lemma BuiltNameTable(root: Dir)
    requires Fits(root)
    ensures TableEnd(root) <= |Built(root)|
    ensures Built(root)[NameTableStart..TableEnd(root)] == NameTable(Entries(root), 1)
  {
    BuiltKeeps(root, NameTableStart, TableEnd(root));
    TabledBytes(root);
  }

  /** File k's info entry, the k-th from the table's start, holds where its
      data starts and ends; the data follows from there, the contents and
      then 0xFF up to the next multiple of 4, where the next file's data
      starts. */
  lemma BuiltFile(root: Dir, k: nat)
    requires Fits(root) && k < TotalFiles(root)
    ensures k < |FilesOf(root)|
    ensures FileLaidOut(Built(root), FileInfoPos(root) + 8 * k, DataStart(FilesOf(root), FileDataPos(root), k),
                        FilesOf(root)[k].content, DataStart(FilesOf(root), FileDataPos(root), k + 1))
  {
    BuiltSplit(root);
    var fs, fdp := FilesOf(root), FileDataPos(root);
    BuiltFileAt(root, k, FileInfoPos(root) + 8 * k, DataStart(fs, fdp, k), DataStart(fs, fdp, k + 1));
  }

  lemma BuiltFileAt(root: Dir, k: nat, at: nat, start: nat, next: nat)
    requires Fits(root) && k < TotalFiles(root) == |FilesOf(root)|
    requires at == FileInfoPos(root) + 8 * k
    requires start == DataStart(FilesOf(root), FileDataPos(root), k)
    requires next == DataStart(FilesOf(root), FileDataPos(root), k + 1)
    ensures FileLaidOut(Built(root), at, start, FilesOf(root)[k].content, next)
  {
    var fs, info, fdp := FilesOf(root), FileInfoPos(root), FileDataPos(root);
    BuiltSplit(root);
    FilesThenFill(Patched(root), fs, info, fdp, InfoEnd(root), k, at, start, next);
    FileLaidOutSame(Apply(Apply(Patched(root), DataWrites(fs, info, fdp)), FFWrites(InfoEnd(root), fdp)), Built(root),
                    at, start, fs[k].content, next);
  }

  /** The files written from info and cur, then the 0xFF fill from p to cur:
      file k is laid out. */
  lemma FilesThenFill(s: seq<byte>, fs: seq<File>, info: nat, cur: nat, p: nat, k: nat, at: nat, start: nat, next: nat)
    requires DataLimit(fs, cur) < TWO32 && info + 8 * |fs| <= p <= cur && k < |fs|
    requires at == info + 8 * k && start == DataStart(fs, cur, k) && next == DataStart(fs, cur, k + 1)
    ensures FileLaidOut(Apply(Apply(s, DataWrites(fs, info, cur)), FFWrites(p, cur)), at, start, fs[k].content, next)
  {
    DataFields(s, fs, info, cur, k);
    DataStartNext(fs, cur, k);
    FiledKeeps(Apply(s, DataWrites(fs, info, cur)), p, cur, at, start, fs[k].content, next);
  }

  /** The 0xFF fill misses an info entry below its start and data at or
      past its end. */
  lemma FiledKeeps(r: seq<byte>, p: nat, q: nat, at: nat, start: nat, c: seq<byte>, n: nat)
    requires FileLaidOut(r, at, start, c, n) && at + 8 <= p <= q <= start
    ensures FileLaidOut(Apply(r, FFWrites(p, q)), at, start, c, n)
  {
    FFBounds(p, q);
    AboveAvoids(FFWrites(p, q), p, at, at + 8);
    WithinAvoids(FFWrites(p, q), q, start, n);
    FileLaidOutKeeps(r, FFWrites(p, q), at, start, c, n);
  }

  /** Between the end of the info table and the first file's data the image
      holds 0xFF. */
  lemma BuiltGap(root: Dir)
    requires Fits(root)
    ensures InfoEnd(root) < FileDataPos(root) ==> FileDataPos(root) <= |Built(root)|
    ensures InfoEnd(root) < FileDataPos(root) ==>
      Built(root)[InfoEnd(root)..FileDataPos(root)] == Fill(FileDataPos(root) - InfoEnd(root), 0xFF)
  {
    BuiltSplit(root);
    if InfoEnd(root) < FileDataPos(root) {
      FillCovers(Apply(Patched(root), DataWrites(FilesOf(root), FileInfoPos(root), FileDataPos(root))),
                 InfoEnd(root), FileDataPos(root));
    }
  }

  /** The 0xFF fill from p to q puts 0xFF at p..q. */
  lemma FillCovers(s: seq<byte>, p: nat, q: nat)
    requires p < q
    ensures q <= |Apply(s, FFWrites(p, q))|
    ensures Apply(s, FFWrites(p, q))[p..q] == Fill(q - p, 0xFF)
  {
    var w := Raw(p, Fill(q - p, 0xFF));
    FFRaw(s, p, q);
    assert [] + [w] + [] == [w];
    ApplyCovers(s, [], w, []);
  }

  /** The header once patched: the file-info table's offset from 0x20, its
      offset and its size go into the twelve bytes skipped at 0xC. */
  function FinalHeader(n: int, fileInfoPos: int, fileCount: int): (r: seq<byte>)
    ensures |r| == 0x28
  {
    HeaderHead + (LE32(fileInfoPos - 0x20) + LE32(fileInfoPos) + LE32(fileCount * 8)) + HeaderTail(n)
  }

  /** No write of the traversal lands in the header: the root's visit
      writes no slot of its own before slot 1, and every later visit writes
      from slot 1 on. */
  lemma EmitAboveHeader(root: Dir)
    requires Buildable(root)
    ensures Above(Emit(Visits(NameTableStart, Entries(root), 1, 0), TotalDirCount(root)), 0x28)
  {
    var es, n := Entries(root), TotalDirCount(root);
    DirCount(root);
    PreorderParents(root, 1, 0, true, 0);
    var at', fc' := NameTableStart + BlockSize(es[0].dir), |es[0].dir.files|;
    var vs := Visits(NameTableStart, es, 1, 0);
    var rest := Visits(at', es[1..], 2, fc');
    assert vs[0] == VisitAt(NameTableStart, es[0], 1, 0) && vs[1..] == rest;
    var nw, sw := NameWrites(es[0].dir, 1, NameTableStart), SlotWrites(NameTableStart, es[0], 1, 0, n);
    NameWritesAbove(es[0].dir, 1, NameTableStart);
    AboveLower(nw, NameTableStart, 0x28);
    SlotWritesBounds(NameTableStart, es[0], 1, 0, n);
    AboveAppend(nw, sw, 0x28);
    VisitsChained(at', es[1..], 2, fc');
    EmitAbove(rest, 2, at', n);
    AboveLower(Emit(rest, n), SlotOffset(2) - 2, 0x28);
    AboveAppend(nw + sw, Emit(rest, n), 0x28);
  }

  /** After the traversal the first 0x28 bytes are still the header. */
  lemma TabledHeader(root: Dir)
    requires Buildable(root)
    ensures 0x28 <= |Tabled(root)| && Tabled(root)[..0x28] == HeaderBytes(TotalDirCount(root))
  {
    var e := Emit(Visits(NameTableStart, Entries(root), 1, 0), TotalDirCount(root));
    ReservedBytes(root);
    EmitAboveHeader(root);
    AboveAvoids(e, 0x28, 0, 0x28);
    ApplyKeeps(Reserved(root), e, 0, 0x28);
  }

  /** The patch writes its three Int32 end to end from 0xC. */
  lemma PatchApply(s: seq<byte>, fileInfoPos: int, fileCount: int)
    ensures Apply(s, PatchWrites(fileInfoPos, fileCount))
         == Put(s, 0xC, LE32(fileInfoPos - 0x20) + LE32(fileInfoPos) + LE32(fileCount * 8))
  {
    var w0, w1, w2 := Int32(0xC, fileInfoPos - 0x20), Int32(0x10, fileInfoPos), Int32(0x14, fileCount * 8);
    assert PatchWrites(fileInfoPos, fileCount) == [w0] + [w1] + [w2];
    ApplyLast(s, [w0] + [w1], w2);
    ApplyLast(s, [w0], w1);
    ApplyOne(s, w0);
    PutThen(s, 0xC, LE32(fileInfoPos - 0x20), 0x10, LE32(fileInfoPos));
    PutThen(s, 0xC, LE32(fileInfoPos - 0x20) + LE32(fileInfoPos), 0x14, LE32(fileCount * 8));
  }

  /** The padding and the patch leave the final header. */
  lemma PatchedHeader(root: Dir)
    requires Fits(root)
    ensures 0x28 <= |Patched(root)|
    ensures Patched(root)[..0x28] == FinalHeader(TotalDirCount(root), FileInfoPos(root), TotalFiles(root))
  {
    TabledHeader(root);
    PadPatchHeader(Tabled(root), TableEnd(root), FileInfoPos(root), TotalFiles(root), TotalDirCount(root));
  }

  /** The padding at p, past the header, and the patch turn the header
      as first written into the final one. */
  lemma PadPatchHeader(t: seq<byte>, p: nat, fileInfoPos: int, fileCount: int, n: int)
    requires 0x28 <= |t| && 0x28 <= p && t[..0x28] == HeaderBytes(n)
    ensures 0x28 <= |Apply(t, PadWrites(p) + PatchWrites(fileInfoPos, fileCount))|
    ensures Apply(t, PadWrites(p) + PatchWrites(fileInfoPos, fileCount))[..0x28] == FinalHeader(n, fileInfoPos, fileCount)
  {
    var t1 := Apply(t, PadWrites(p));
    PadAvoids(p, 0, 0x28);
    ApplyKeeps(t, PadWrites(p), 0, 0x28);
    ApplyAppend(t, PadWrites(p), PatchWrites(fileInfoPos, fileCount));
    PatchApply(t1, fileInfoPos, fileCount);
    Splice(t1, HeaderHead, Fill(12, 0), HeaderTail(n), LE32(fileInfoPos - 0x20) + LE32(fileInfoPos) + LE32(fileCount * 8));
  }

  /** The files and the fill, all past 0x28, leave the first 0x28 bytes
      alone. */
  lemma FilesMissHeader(s: seq<byte>, fs: seq<File>, info: nat, cur: nat, p: nat)
    requires 0x28 <= |s| && 0x28 <= info && 0x28 <= p
    requires DataLimit(fs, cur) < TWO32 && info + 8 * |fs| <= cur
    ensures 0x28 <= |Apply(Apply(s, DataWrites(fs, info, cur)), FFWrites(p, cur))|
    ensures Apply(Apply(s, DataWrites(fs, info, cur)), FFWrites(p, cur))[..0x28] == s[..0x28]
  {
    DataAvoids(fs, info, cur, 0, 0x28);
    ApplyKeeps(s, DataWrites(fs, info, cur), 0, 0x28);
    FFBounds(p, cur);
    AboveAvoids(FFWrites(p, cur), p, 0, 0x28);
    ApplyKeeps(Apply(s, DataWrites(fs, info, cur)), FFWrites(p, cur), 0, 0x28);
  }

  /** The image starts with the magic, -1, 0x20, the offset of the file-info
      table from 0x20, its offset, its size (eight bytes per file), -1, -1,
      and slot 0: 0x8000, 0 and the number of directories. */
  lemma BuiltHeader(root: Dir)
    requires Fits(root)
    ensures 0x28 <= |Built(root)|
    ensures Built(root)[..0x28] == FinalHeader(TotalDirCount(root), FileInfoPos(root), TotalFiles(root))
  {
    BuiltSplit(root);
    PatchedHeader(root);
    FilesMissHeader(Patched(root), FilesOf(root), FileInfoPos(root), FileDataPos(root), InfoEnd(root));
  }
}
