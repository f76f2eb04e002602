/** The entry position of the traversal. Main leaves the stream at 0x28
    before the traversal, and the traversal moves it to the name table only
    when it writes a subdirectory record; so a root with no subdirectory gets
    its name block at 0x28, inside the directory table, and the file-info
    table and the file data follow it there. The rest of the model enters
    the traversal at the name table, where the header's slot for the root
    says the root's name block starts. */
module Finding {
  import opened Bytes
  import opened Wrappers
  import opened Writer
  import opened Tree
  import opened Names
  import opened Capacity
  import opened TraversalSpec
  import opened LayoutSpec
  import opened Frames
  import opened DataImage
  import opened TableImage
  import opened ImageLayout
  import opened ImageStages
  import opened ImageFields
  import opened ImageSlots

  /** The image as Main builds it: the traversal entered with the stream at
      0x28. */
  function ImageAsWritten(root: Dir): Result<seq<byte>, Error>
  {
    match Layout(root, 0x28)
    case Failure(e) => Failure(e)
    case Success(ws) => Success(Apply([], ws))
  }

  /** Where the file-info table of a root with no subdirectory starts when
      its name block is written at 0x28, and where its file data starts. */
  function LoneInfoPos(root: Dir): nat
  {
    RoundUp(0x28 + BlockSize(root), 2)
  }

  function LoneDataPos(root: Dir): nat
  {
    RoundUp(LoneInfoPos(root) + 8 * |root.files|, 0x10)
  }

  /** A root with a subdirectory moves the stream to lastNamePos before its
      first record, so the image as written is the image the rest of the
      model describes, and every fact proved about Image holds for it. */
  lemma AsWrittenAgrees(root: Dir)
    requires root.subdirs != []
    ensures ImageAsWritten(root) == Image(root)
  {
    assert Visit(root, Start(root, 0x28), 0, true, TotalDirCount(root))
        == Visit(root, Start(root, NameTableStart), 0, true, TotalDirCount(root));
  }

  /** The pre-order of a root with no subdirectory is the root alone. */
  lemma LoneEntries(root: Dir)
    requires root.subdirs == []
    ensures TotalDirCount(root) == 1
    ensures Entries(root) == [Entry(root, 0, true)] && FileList(Entries(root)) == root.files
  {
    assert RecursiveDirCount(root) == 0;
    assert Entries(root) == [Entry(root, 0, true)] + PreorderList([], 2, 1);
    assert FileList([Entry(root, 0, true)]) == root.files + FileList([]);
  }

  /** The writes after the traversal of a root with no subdirectory whose
      name block is written at 0x28: the padding, the header patch, the
      file-info table right after the block, the data and the 0xFF fill. */
  function LoneTail(root: Dir): seq<Write>
  {
    PadWrites(0x28 + BlockSize(root)) + PatchWrites(LoneInfoPos(root), |root.files|)
    + DataWrites(root.files, LoneInfoPos(root), LoneDataPos(root) % TWO32)
    + FFWrites(LoneInfoPos(root) + 8 * |root.files|, LoneDataPos(root))
  }

  /** As written, the writes for an accepted root with no subdirectory: its
      name block at 0x28, then the tail. */
  lemma AsWrittenLayout(root: Dir)
    requires root.subdirs == [] && Buildable(root)
    ensures Layout(root, 0x28) == Success(Prefix(root) + NameWrites(root, 1, 0x28) + LoneTail(root))
  {
    LoneEntries(root);
    NoErrorIff(root, 1, 0);
    FileSizeCheckNone(root.files);
    var s := Start(root, 0x28);
    var e := Entry(root, 0, true);
    var end := 0x28 + BlockSize(root);
    assert VisitError(root, 1, 0) == None;
    var v := Walk(s.log + VisitWrites(0x28, e, 1, 0, 1), end, end, 2, |root.files|, s.filePaths + root.files);
    assert Visit(root, s, 0, true, 1) == Success(v);
    assert Traverse(root, s, 0, true, TotalDirCount(root)) == Success(v);
    assert v.log == Prefix(root) + NameWrites(root, 1, 0x28);
    assert v.filePaths == root.files;
    assert TailWrites(v) == LoneTail(root);
  }

  /** As written, the image is the reservation with the root's name block
      put at 0x28, then the tail. */
  lemma AsWrittenImage(root: Dir)
    requires root.subdirs == [] && Buildable(root)
    ensures ImageAsWritten(root) == Success(Apply(Put(Reserved(root), 0x28, NameBlock(root, 1)), LoneTail(root)))
  {
    AsWrittenLayout(root);
    var p, n := Prefix(root), NameWrites(root, 1, 0x28);
    ApplyAppend([], p + n, LoneTail(root));
    ApplyAppend([], p, n);
    NameWritesApply(Reserved(root), root, 1, 0x28);
  }

  /** The tail misses the name block at 0x28 when the file data stays below
      4 GiB. */
  lemma LoneTailAvoids(root: Dir)
    requires DataLimit(root.files, LoneDataPos(root)) < TWO32
    ensures Avoids(LoneTail(root), 0x28, 0x28 + BlockSize(root))
  {
    TailAvoidsBelow(root.files, 0x28, 0x28 + BlockSize(root), LoneInfoPos(root), LoneDataPos(root));
  }

  /** The writes after a traversal that ended at `end`, with the file-info
      table at info and the data at pos, miss [lo, end) when lo is past the
      patched header fields. */
  lemma TailAvoidsBelow(fs: seq<File>, lo: nat, end: nat, info: nat, pos: nat)
    requires 0x18 <= lo && end <= info && info + 8 * |fs| <= pos && DataLimit(fs, pos) < TWO32
    ensures Avoids(PadWrites(end) + PatchWrites(info, |fs|) + DataWrites(fs, info, pos % TWO32)
                   + FFWrites(info + 8 * |fs|, pos), lo, end)
  {
    var a, b, c, d := PadWrites(end), PatchWrites(info, |fs|), DataWrites(fs, info, pos), FFWrites(info + 8 * |fs|, pos);
    DataLimitGrows(fs, pos);
    assert pos % TWO32 == pos;
    PadAvoids(end, lo, end);
    PatchAvoids(info, |fs|, lo, end);
    DataAvoids(fs, info, pos, lo, end);
    FFBounds(info + 8 * |fs|, pos);
    AboveAvoids(d, info + 8 * |fs|, lo, end);
    AvoidsAppend(a, b, lo, end);
    AvoidsAppend(a + b, c, lo, end);
    AvoidsAppend(a + b + c, d, lo, end);
  }

  /** As written, for every accepted root with no subdirectory whose file
      data stays below 4 GiB, the root's name block sits at 0x28: over the
      first bytes of the root's slot, which the reservation leaves zero, and,
      past four bytes, over the 0xFF the reservation leaves in the slots. */
  lemma AsWrittenNamesInTable(root: Dir)
    requires root.subdirs == [] && Buildable(root) && DataLimit(root.files, LoneDataPos(root)) < TWO32
    ensures ImageAsWritten(root).Success?
    ensures 0x28 + BlockSize(root) <= |ImageAsWritten(root).value|
    ensures ImageAsWritten(root).value[0x28..0x28 + BlockSize(root)] == NameBlock(root, 1)
  {
    AsWrittenImage(root);
    var end := 0x28 + BlockSize(root);
    var block := NameBlock(root, 1);
    NameBlockLength(root, 1);
    var s1 := Put(Reserved(root), 0x28, block);
    PutCovers(Reserved(root), 0x28, block);
    LoneTailAvoids(root);
    ApplyKeeps(s1, LoneTail(root), 0x28, end);
  }

  /** A root directory holding one empty file named "a" and no subdirectory. */
  const LoneRoot: Dir := Dir([0x72], [], [File([0x61], [])])

  /** LoneRoot is accepted, its name block is three bytes and its data stays
      far below 4 GiB either way. */
  lemma LoneRootFits()
    ensures Buildable(LoneRoot) && NameBlock(LoneRoot, 1) == [1, 0x61, 0] && BlockSize(LoneRoot) == 3
    ensures DataLimit(LoneRoot.files, LoneDataPos(LoneRoot)) < TWO32 && Fits(LoneRoot)
  {
    LoneEntries(LoneRoot);
    NameBlockLength(LoneRoot, 1);
    assert LoneDataPos(LoneRoot) == 0x40;
    assert FileDataPos(LoneRoot) == 0x8030;
  }

  /** As written, the image of LoneRoot has 1, 0x61, 0 at 0x28. */
  lemma AsWrittenLoneRoot()
    ensures ImageAsWritten(LoneRoot).Success?
    ensures 0x2B <= |ImageAsWritten(LoneRoot).value|
    ensures ImageAsWritten(LoneRoot).value[0x28..0x2B] == [1, 0x61, 0]
  {
    LoneRootFits();
    AsWrittenNamesInTable(LoneRoot);
  }

  /** Entered at the name table, as the rest of the model does, a root
      with no subdirectory keeps the first bytes of its slot zero and has its
      name block at 0x8020. */
  lemma CorrectedNamesAtTable(root: Dir)
    requires root.subdirs == [] && Fits(root)
    ensures Image(root).Success? && NameTableStart + BlockSize(root) <= |Image(root).value|
    ensures Image(root).value[0x28..0x2C] == Fill(4, 0)
    ensures Image(root).value[NameTableStart..NameTableStart + BlockSize(root)] == NameBlock(root, 1)
  {
    LoneEntries(root);
    LoneTable(root);
    ImageStaged(root);
    BuiltLoneRoot(root);
    BuiltNameTable(root);
  }

  /** The name table of a root with no subdirectory is its own block. */
  lemma LoneTable(root: Dir)
    requires root.subdirs == []
    ensures TableEnd(root) == NameTableStart + BlockSize(root)
    ensures NameTable(Entries(root), 1) == NameBlock(root, 1)
  {
    var e := Entry(root, 0, true);
    LoneEntries(root);
    assert TableLength([e]) == BlockSize(root) + TableLength([]);
    assert NameTable([e], 1) == NameBlock(root, 1) + NameTable([], 2);
  }

  /** Corrected, the image of LoneRoot has zeros at 0x28 and the name block
      at 0x8020. */
  lemma CorrectedLoneRoot()
    ensures Image(LoneRoot).Success?
    ensures NameTableStart + 3 <= |Image(LoneRoot).value|
    ensures Image(LoneRoot).value[0x28..0x2C] == Fill(4, 0)
    ensures Image(LoneRoot).value[NameTableStart..NameTableStart + 3] == [1, 0x61, 0]
  {
    LoneRootFits();
    CorrectedNamesAtTable(LoneRoot);
  }

  /** The two images of LoneRoot differ at 0x28: the length byte of the
      file's record as written, zero once corrected. */
  lemma AsWrittenDiffers()
    ensures ImageAsWritten(LoneRoot) != Image(LoneRoot)
  {
    AsWrittenLoneRoot();
    CorrectedLoneRoot();
    assert ImageAsWritten(LoneRoot).value[0x28..0x2B][0] == 1;
    assert Image(LoneRoot).value[0x28..0x2C][0] == 0;
  }
}
