/** WriteDirectories: the pre-order traversal that writes every directory's
    name block, back-patches the directory table slots and collects the file
    list. Each method is specified by the state it leaves, a function of
    the state it starts from. */
module Traversal {
  import opened Bytes
  import opened Wrappers
  import opened Writer
  import opened Tree
  import opened Names
  import opened Capacity
  import opened TraversalSpec

  /** Lines 161-163: one subdirectory record at the current position. */
  method WriteSubdirRecord(w: EndianWriter, name: seq<byte>, slot: int)
    modifies w
    ensures w.log == old(w.log) + SubdirRecordWrites(old(w.pos), name, slot)
    ensures w.pos == old(w.pos) + 3 + |name|
  {
    ghost var before, at := w.log, w.pos;
    w.WriteByte(LenTag(|name|));
    w.WriteBytes(name);
    w.WriteUInt16(SlotTag(slot));
    ConcatTriple(before, Raw(at, [LenTag(|name|)]), Raw(at + 1, name), UInt16(at + 1 + |name|, SlotTag(slot)));
  }

  /** Lines 144-173: one record per subdirectory, each at lastNamePos, which
      then moves past it; the first child gets slot j. */
  method WriteSubdirRecords(w: EndianWriter, ds: seq<Dir>, lastNamePos: nat, j: nat)
    returns (err: Option<Error>, lastNamePos': nat)
    modifies w
    ensures err == SubdirCheck(ds, j)
    ensures err == None ==>
      && w.log == old(w.log) + SubdirWrites(ds, lastNamePos, j)
      && lastNamePos' == lastNamePos + SubdirRecordsSize(ds)
      && w.pos == if ds != [] then lastNamePos' else old(w.pos)
  {
    ghost var target := w.log + SubdirWrites(ds, lastNamePos, j);
    ghost var size := lastNamePos + SubdirRecordsSize(ds);
    lastNamePos' := lastNamePos;
    var slot := j;
    var m := 0;
    assert ds[m..] == ds;
    while m < |ds|
      invariant 0 <= m <= |ds|
      invariant w.pos == if m == 0 then old(w.pos) else lastNamePos'
      invariant w.log + SubdirWrites(ds[m..], lastNamePos', slot) == target
      invariant lastNamePos' + SubdirRecordsSize(ds[m..]) == size
      invariant SubdirCheck(ds[m..], slot) == SubdirCheck(ds, j)
    {
      ghost var before, at := w.log, lastNamePos';
      w.Seek(lastNamePos');
      var name := ds[m].name;
      SubdirStep(ds, m, slot);
      if |name| > 0x7F {
        return Some(NameTooLong), lastNamePos';
      }
      WriteSubdirRecord(w, name, slot);
      lastNamePos' := w.pos;
      var nrSubdirs := GetRecursiveDirCount(ds[m]);
      if slot + nrSubdirs + 1 > 0xFFF {
        return Some(TooManyDirectories), lastNamePos';
      }
      SubdirWritesStep(ds, m, at, slot, lastNamePos', slot + nrSubdirs + 1);
      ConcatAssoc(before, SubdirRecordWrites(at, name, slot), SubdirWrites(ds[m + 1..], lastNamePos', slot + nrSubdirs + 1));
      slot := slot + nrSubdirs + 1;
      m := m + 1;
    }
    assert ds[m..] == [];
    err := None;
  }

  /** Lines 191-192: one file record at the current position. */
  method WriteFileRecord(w: EndianWriter, name: seq<byte>)
    modifies w
    ensures w.log == old(w.log) + FileRecordWrites(old(w.pos), name)
    ensures w.pos == old(w.pos) + 1 + |name|
  {
    ghost var before, at := w.log, w.pos;
    w.WriteByte(|name| % 0x100);
    w.WriteBytes(name);
    ConcatPair(before, Raw(at, [|name| % 0x100]), Raw(at + 1, name));
  }

  /** Lines 175-196: one record per file, at the current position, each file
      appended to the list, and the closing zero. */
  method WriteFileRecords(w: EndianWriter, fs: seq<File>, filePaths: seq<File>)
    returns (err: Option<Error>, filePaths': seq<File>)
    modifies w
    ensures err == FileNameCheck(fs)
    ensures err == None ==>
      && w.log == old(w.log) + FileWrites(fs, old(w.pos)) + [Raw(old(w.pos) + FileRecordsSize(fs), [0])]
      && w.pos == old(w.pos) + FileRecordsSize(fs) + 1
      && filePaths' == filePaths + fs
  {
    ghost var target := w.log + FileWrites(fs, w.pos);
    ghost var size := w.pos + FileRecordsSize(fs);
    filePaths' := filePaths;
    var k := 0;
    assert fs[k..] == fs;
    while k < |fs|
      invariant 0 <= k <= |fs|
      invariant w.log + FileWrites(fs[k..], w.pos) == target
      invariant w.pos + FileRecordsSize(fs[k..]) == size
      invariant FileNameCheck(fs[k..]) == FileNameCheck(fs)
      invariant filePaths' == filePaths + fs[..k]
    {
      ghost var before, at := w.log, w.pos;
      var name := fs[k].name;
      FileStep(fs, k);
      if |name| > 0x7F {
        return Some(NameTooLong), filePaths';
      }
      WriteFileRecord(w, name);
      FileWritesStep(fs, k, at, w.pos);
      ConcatAssoc(before, FileRecordWrites(at, name), FileWrites(fs[k + 1..], w.pos));
      filePaths' := filePaths' + [fs[k]];
      assert fs[..k + 1] == fs[..k] + [fs[k]];
      k := k + 1;
    }
    assert fs[..k] == fs && fs[k..] == [];
    w.WriteByte(0);
    err := None;
  }

  /** Lines 144-198: d's name block, numbered id: the subdirectory records
      from lastNamePos, then the file records and the closing zero where
      they end (or at the current position when there are no
      subdirectories), each file appended to the list; lastNamePos then
      moves to the end of the block. */
  method WriteNameBlock(w: EndianWriter, d: Dir, lastNamePos: nat, id: nat, filePaths: seq<File>)
    returns (err: Option<Error>, lastNamePos': nat, filePaths': seq<File>)
    modifies w
    ensures err == if SubdirCheck(d.subdirs, id).Some? then SubdirCheck(d.subdirs, id) else FileNameCheck(d.files)
    ensures err == None ==>
      var start := if d.subdirs != [] then lastNamePos else old(w.pos);
      && w.log == old(w.log) + NameWrites(d, id, start)
      && lastNamePos' == start + BlockSize(d)
      && w.pos == lastNamePos'
      && filePaths' == filePaths + d.files
  {
    ghost var log0 := w.log;
    ghost var start := if d.subdirs != [] then lastNamePos else w.pos;
    filePaths' := filePaths;
    err, lastNamePos' := WriteSubdirRecords(w, d.subdirs, lastNamePos, id);
    if err.Some? {
      return;
    }
    ghost var subdirWrites := SubdirWrites(d.subdirs, start, id);
    if d.subdirs == [] {
      NoSubdirWrites(d.subdirs, lastNamePos, start, id);
    }
    assert w.log == log0 + subdirWrites && w.pos == start + SubdirRecordsSize(d.subdirs);
    ghost var named := w.log;
    err, filePaths' := WriteFileRecords(w, d.files, filePaths');
    if err.Some? {
      return;
    }
    ghost var fileWrites := FileWrites(d.files, start + SubdirRecordsSize(d.subdirs));
    ghost var closing := [Raw(start + SubdirRecordsSize(d.subdirs) + FileRecordsSize(d.files), [0])];
    NameWritesSplit(d, id, start, start + SubdirRecordsSize(d.subdirs), start + SubdirRecordsSize(d.subdirs) + FileRecordsSize(d.files));
    ConcatAssoc3(log0, subdirWrites, fileWrites, closing);
    lastNamePos' := w.pos;
  }

  /** Lines 127-223: the visit of one directory, numbered i, before the
      recursion into its children: the checks, its name block, the counter
      and file total moved past it, its slot back-patches, and the seek to
      the end of its block. */
  method VisitDirectory(d: Dir, w: EndianWriter, lastNamePos: nat, i: nat, totalFileCount: nat,
                        filePaths: seq<File>, parent: nat, isRoot: bool, totalDirCount: nat)
    returns (err: Option<Error>, lastNamePos': nat, i': nat, totalFileCount': nat, filePaths': seq<File>)
    modifies w
    ensures Outcome(err, Walk(w.log, w.pos, lastNamePos', i', totalFileCount', filePaths'))
         == Visit(d, Walk(old(w.log), old(w.pos), lastNamePos, i, totalFileCount, filePaths), parent, isRoot, totalDirCount)
  {
    lastNamePos', i', totalFileCount', filePaths' := lastNamePos, i, totalFileCount, filePaths;
    if i >= 0xFFF {
      return Some(DirectoryLimitExceeded), lastNamePos', i', totalFileCount', filePaths';
    }
    var id := i;
    if |d.subdirs| > 0xFFF {
      return Some(TooManyDirectories), lastNamePos', i', totalFileCount', filePaths';
    }
    ghost var start := if d.subdirs != [] then lastNamePos else w.pos;
    err, lastNamePos', filePaths' := WriteNameBlock(w, d, lastNamePos, id, filePaths');
    if err.Some? {
      return;
    }
    ghost var named := w.log;
    i' := i' + 1;
    if totalFileCount' + |d.files| >= 0xFFFF {
      return Some(FileLimitExceeded), lastNamePos', i', totalFileCount', filePaths';
    }
    totalFileCount' := totalFileCount' + |d.files|;
    var globalIndex := i' - 1;
    ghost var slotWrites := if id != totalDirCount
      then [Int32(SlotOffset(id), lastNamePos' - 0x20), UInt16(SlotOffset(id) + 4, totalFileCount')]
      else [];
    ghost var parentWrites := if isRoot then [] else [UInt16(SlotOffset(id) - 2, SlotTag(parent - 1))];
    if globalIndex != totalDirCount {
      w.Seek(SlotOffset(id));
      w.WriteInt32(lastNamePos' - 0x20);
      w.WriteUInt16(totalFileCount');
      ConcatPair(named, slotWrites[0], slotWrites[1]);
    }
    ghost var slotted := w.log;
    assert slotted == named + slotWrites;
    if !isRoot {
      w.Seek(SlotOffset(id) - 2);
      w.WriteUInt16(SlotTag(parent - 1));
    }
    assert w.log == slotted + parentWrites;
    ConcatAssoc3(old(w.log), NameWrites(d, id, start), slotWrites, parentWrites);
    ConcatAssoc(NameWrites(d, id, start), slotWrites, parentWrites);
    w.Seek(lastNamePos');
    err := None;
  }

  /** Lines 125-232. A call from state s (the writer's writes and
      position, lastNamePos, the counter i, the file total and the file
      list) visits d, numbering it i, and then traverses each child in
      turn; it stops with the first error and otherwise leaves the state
      Traverse gives. */
  method WriteDirectories(d: Dir, w: EndianWriter, lastNamePos: nat, i: nat, totalFileCount: nat,
                          filePaths: seq<File>, parent: nat, isRoot: bool, totalDirCount: nat)
    returns (err: Option<Error>, lastNamePos': nat, i': nat, totalFileCount': nat, filePaths': seq<File>)
    modifies w
    ensures Outcome(err, Walk(w.log, w.pos, lastNamePos', i', totalFileCount', filePaths'))
         == Traverse(d, Walk(old(w.log), old(w.pos), lastNamePos, i, totalFileCount, filePaths), parent, isRoot, totalDirCount)
    decreases d
  {
    err, lastNamePos', i', totalFileCount', filePaths' :=
      VisitDirectory(d, w, lastNamePos, i, totalFileCount, filePaths, parent, isRoot, totalDirCount);
    if err.Some? {
      return;
    }
    var id := i;
    var directories := d.subdirs;
    ghost var visited := Walk(w.log, w.pos, lastNamePos', i', totalFileCount', filePaths');
    var c := 0;
    while c < |directories|
      invariant 0 <= c <= |directories|
      invariant TraverseAll(directories[c..], Walk(w.log, w.pos, lastNamePos', i', totalFileCount', filePaths'), id, totalDirCount)
             == TraverseAll(directories, visited, id, totalDirCount)
    {
      ghost var current := Walk(w.log, w.pos, lastNamePos', i', totalFileCount', filePaths');
      assert directories[c..][0] == directories[c] && directories[c..][1..] == directories[c + 1..];
      var e;
      e, lastNamePos', i', totalFileCount', filePaths' :=
        WriteDirectories(directories[c], w, lastNamePos', i', totalFileCount', filePaths', id, false, totalDirCount);
      if e.Some? {
        return e, lastNamePos', i', totalFileCount', filePaths';
      }
      c := c + 1;
    }
    err := None;
  }
}
