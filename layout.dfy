/** Main's layout of the image (lines 32-110), on an EndianWriter: the
    header, the table reservation, the traversal, the header patch, the
    file-info table and the file data. Each phase is specified by the writes
    it makes, the LayoutSpec functions of the state it starts from. */
module Layout {
  import opened Bytes
  import opened Wrappers
  import opened Writer
  import opened Tree
  import opened Capacity
  import opened TraversalSpec
  import opened Traversal
  import opened LayoutSpec

  /** Lines 32-45, on a new stream. */
  method WriteHeader(w: EndianWriter, totalDirCount: int)
    requires w.pos == 0
    modifies w
    ensures w.log == old(w.log) + HeaderWrites(totalDirCount) && w.pos == 0x28
  {
    w.WriteBytes(Magic);
    w.WriteInt32(-1);
    w.WriteInt32(0x20);
    w.Seek(w.pos + 0xC);
    w.WriteInt32(-1);
    w.WriteInt32(-1);
    w.WriteInt32(0x8000);
    w.WriteUInt16(0);
    w.WriteUInt16(totalDirCount);
  }

  /** Lines 46-51: skip to 0x2C and fill with Int32 -1 up to the name table. */
  method ReserveTable(w: EndianWriter)
    requires w.pos == 0x28
    modifies w
    ensures w.log == old(w.log) + ReserveWrites(0x2C) && w.pos == NameTableStart
  {
    w.Seek(w.pos + 4);
    ghost var target := w.log + ReserveWrites(0x2C);
    while w.pos < NameTableStart
      invariant 0x2C <= w.pos <= NameTableStart && w.pos % 4 == 0
      invariant w.log + ReserveWrites(w.pos) == target
      decreases NameTableStart - w.pos
    {
      ghost var (log, p) := (w.log, w.pos);
      w.WriteInt32(-1);
      ReserveStep(log, p);
    }
  }

  /** Lines 58-66: pad the stream to an even length, which is where the
      file-info table goes, then patch the header fields at 0xC. */
  method PatchHeader(w: EndianWriter, totalFileCount: nat) returns (fileInfoPos: nat)
    modifies w
    ensures fileInfoPos == RoundUp(old(w.pos), 2)
    ensures w.log == old(w.log) + PadWrites(old(w.pos)) + PatchWrites(fileInfoPos, totalFileCount)
    ensures w.pos == 0x18
  {
    ghost var (log, p) := (w.log, w.pos);
    while w.pos % 2 != 0
      invariant w.pos == p || (p % 2 == 1 && w.pos == p + 1)
      invariant w.log == log + if w.pos == p then [] else [Raw(p, [0])]
      decreases p + 1 - w.pos
    {
      w.WriteByte(0);
    }
    fileInfoPos := w.pos;
    ghost var padded := w.log;
    w.Seek(0xC);
    w.WriteInt32(fileInfoPos - 0x20);
    w.WriteInt32(fileInfoPos);
    w.WriteInt32(totalFileCount * 8);
    ConcatTriple(padded, Int32(0xC, fileInfoPos - 0x20), Int32(0x10, fileInfoPos), Int32(0x14, totalFileCount * 8));
  }

  /** Lines 92-96: one 0xFF, then 0xFF until the position is a multiple
      of 4. */
  method PadData(w: EndianWriter)
    modifies w
    ensures w.log == old(w.log) + FFWrites(old(w.pos), RoundUp(old(w.pos) + 1, 4))
    ensures w.pos == RoundUp(old(w.pos) + 1, 4)
  {
    ghost var end := w.pos;
    ghost var padEnd := RoundUp(end + 1, 4);
    ghost var target := w.log + FFWrites(end, padEnd);
    FFStep(w.log, end, padEnd);
    w.WriteByte(0xFF);
    while w.pos % 4 != 0
      invariant end + 1 <= w.pos <= padEnd
      invariant w.log + FFWrites(w.pos, padEnd) == target
      decreases padEnd - w.pos
    {
      FFStep(w.log, w.pos, padEnd);
      w.WriteByte(0xFF);
    }
    RoundUpLeast(end + 1, 4, w.pos);
    assert FFWrites(w.pos, padEnd) == [] && w.log + [] == w.log;
  }

  /** Lines 87-100: one file whose info entry is at the position and whose
      data goes to cur: the start offset, the contents, the 0xFF padding,
      the end offset; the position ends after the entry and the next file's
      data goes where the padding ended. */
  method WriteFile(w: EndianWriter, f: File, cur: nat) returns (cur': nat)
    modifies w
    ensures w.log == old(w.log) + OneFileWrites(old(w.pos), cur, f)
    ensures w.pos == old(w.pos) + 8 && cur' == NextData(cur, f)
  {
    ghost var (log, infoPos) := (w.log, w.pos);
    w.WriteInt32(cur);
    var currentInfoPos := w.pos;
    w.Seek(cur);
    w.WriteBytes(f.content);
    var currentFileEndPos := w.pos % TWO32;
    ghost var end := w.pos;
    PadData(w);
    cur' := w.pos % TWO32;
    w.Seek(currentInfoPos);
    w.WriteInt32(currentFileEndPos);
    ConcatPair(log, Int32(infoPos, cur), Raw(cur, f.content));
    ConcatAssoc3(log, [Int32(infoPos, cur), Raw(cur, f.content)], FFWrites(end, RoundUp(end + 1, 4)),
                 [Int32(infoPos + 4, DataEnd(cur, f))]);
  }

  /** Lines 70-74: the first multiple of 16 at or after p. */
  method AlignData(p: nat) returns (fileDataPos: nat)
    ensures fileDataPos == RoundUp(p, 0x10)
  {
    fileDataPos := p;
    while fileDataPos % 0x10 != 0
      invariant p <= fileDataPos <= RoundUp(p, 0x10)
      decreases RoundUp(p, 0x10) - fileDataPos
    {
      fileDataPos := fileDataPos + 1;
    }
    RoundUpLeast(p, 0x10, fileDataPos);
  }

  /** Lines 78-105: the files in list order from the position, their data
      from cur on; the first file too big stops the loop. */
  method WriteFiles(w: EndianWriter, filePaths: seq<File>, cur: nat) returns (err: Option<Error>)
    modifies w
    ensures err == FileSizeCheck(filePaths)
    ensures err == None ==>
      w.log == old(w.log) + DataWrites(filePaths, old(w.pos), cur) && w.pos == old(w.pos) + 8 * |filePaths|
  {
    var currentFileDataPos := cur;
    ghost var target := w.log + DataWrites(filePaths, w.pos, cur);
    ghost var infoPos := w.pos;
    var k := 0;
    assert filePaths[k..] == filePaths;
    while k < |filePaths|
      invariant 0 <= k <= |filePaths|
      invariant w.pos == infoPos + 8 * k
      invariant FileSizeCheck(filePaths[k..]) == FileSizeCheck(filePaths)
      invariant w.log + DataWrites(filePaths[k..], w.pos, currentFileDataPos) == target
    {
      var file := filePaths[k];
      DataStep(filePaths, k, w.pos, currentFileDataPos, w.pos + 8, NextData(currentFileDataPos, file));
      if |file.content| >= 0xFFFF_FFFF {
        return Some(FileTooBig);
      }
      ghost var (before, at, c) := (w.log, w.pos, currentFileDataPos);
      currentFileDataPos := WriteFile(w, file, currentFileDataPos);
      ConcatAssoc(before, OneFileWrites(at, c, file), DataWrites(filePaths[k + 1..], w.pos, currentFileDataPos));
      k := k + 1;
    }
    assert filePaths[k..] == [] && w.log + [] == w.log;
    err := None;
  }

  /** Lines 107-110: 0xFF up to fileDataPos. */
  method FillTo(w: EndianWriter, fileDataPos: nat)
    requires w.pos <= fileDataPos
    modifies w
    ensures w.log == old(w.log) + FFWrites(old(w.pos), fileDataPos) && w.pos == fileDataPos
  {
    ghost var target := w.log + FFWrites(w.pos, fileDataPos);
    while w.pos != fileDataPos
      invariant w.pos <= fileDataPos
      invariant w.log + FFWrites(w.pos, fileDataPos) == target
      decreases fileDataPos - w.pos
    {
      FFStep(w.log, w.pos, fileDataPos);
      w.WriteByte(0xFF);
    }
    assert FFWrites(w.pos, fileDataPos) == [] && w.log + [] == w.log;
  }

  /** Lines 68-110: the file-info table from fileInfoPos, one entry of
      start and end offsets per file, the data from the first multiple of
      16 after the table, and 0xFF from the table's end to the first data.
      A file too big stops the run. */
  method WriteFileData(w: EndianWriter, filePaths: seq<File>, fileInfoPos: nat) returns (err: Option<Error>)
    modifies w
    ensures err == FileSizeCheck(filePaths)
    ensures err == None ==>
      var infoEnd := fileInfoPos + 8 * |filePaths|;
      w.log == old(w.log) + DataWrites(filePaths, fileInfoPos, RoundUp(infoEnd, 0x10) % TWO32)
                          + FFWrites(infoEnd, RoundUp(infoEnd, 0x10))
  {
    var totalFiles := |filePaths|;
    w.Seek(fileInfoPos);
    var fileDataPos := AlignData(fileInfoPos + totalFiles * 8);
    var currentFileDataPos := fileDataPos % TWO32;
    err := WriteFiles(w, filePaths, currentFileDataPos);
    if err.Some? {
      return;
    }
    FillTo(w, fileDataPos);
  }

  /** Lines 32-110: the whole image of root, or the error that stops the
      builder. The traversal is entered with the stream at the name table
      (line 53 seeks 0x28 instead: the same image when the root has a
      subdirectory, Finding.AsWrittenAgrees; see Finding.AsWrittenNamesInTable
      otherwise). */
  method BuildImage(root: Dir) returns (image: Result<seq<byte>, Error>)
    ensures image == Image(root)
  {
    var w := new EndianWriter();
    var recursive := GetRecursiveDirCount(root);
    var totalDirCount := (recursive + 1) % 0x1_0000;
    WriteHeader(w, totalDirCount);
    ReserveTable(w);
    assert w.log == Start(root, NameTableStart).log;
    w.Seek(NameTableStart);
    var err, lastNamePos, i, totalFileCount, filePaths :=
      WriteDirectories(root, w, NameTableStart, 1, 0, [], 0, true, totalDirCount);
    ghost var t := Walk(w.log, w.pos, lastNamePos, i, totalFileCount, filePaths);
    ghost var traversal := Traverse(root, Start(root, NameTableStart), 0, true, TotalDirCount(root));
    assert traversal == Outcome(err, t);
    if err.Some? {
      assert Layout(root, NameTableStart) == Failure(err.value);
      return Failure(err.value);
    }
    var fileInfoPos := PatchHeader(w, totalFileCount);
    ghost var patched := w.log;
    err := WriteFileData(w, filePaths, fileInfoPos);
    if err.Some? {
      assert Layout(root, NameTableStart) == Failure(err.value);
      return Failure(err.value);
    }
    ghost var infoEnd := fileInfoPos + 8 * |filePaths|;
    ghost var data := DataWrites(filePaths, fileInfoPos, RoundUp(infoEnd, 0x10) % TWO32);
    ghost var fill := FFWrites(infoEnd, RoundUp(infoEnd, 0x10));
    assert w.log == patched + data + fill;
    TailWritesParts(t, fileInfoPos, infoEnd);
    ConcatAssoc3(t.log, PadWrites(t.pos) + PatchWrites(fileInfoPos, totalFileCount), data, fill);
    ConcatAssoc(t.log, PadWrites(t.pos), PatchWrites(fileInfoPos, totalFileCount));
    assert Layout(root, NameTableStart) == Success(w.log);
    image := Success(w.Contents());
  }
}
