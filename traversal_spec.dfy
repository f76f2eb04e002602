/** The traversal as a function of its state: the writes each directory's
    visit makes, the state the writer, the name position, the counter, the
    file total and the file list are left in, the error that stops it, and
    the same visits read off the pre-order enumeration. */
module TraversalSpec {
  import opened Bytes
  import opened Wrappers
  import opened Writer
  import opened Tree
  import opened Names
  import opened Capacity

  /** Offset of table slot s. Slot 0 describes directory 1 (the root); in
      general directory k is described by slot k - 1. */
  function SlotOffset(s: nat): nat
  {
    0x20 + 8 * s
  }

  /** The writes of one subdirectory record at `at`: tagged length byte,
      name, tagged slot j. */
  function SubdirRecordWrites(at: nat, name: seq<byte>, j: int): seq<Write>
  {
    [Raw(at, [LenTag(|name|)]), Raw(at + 1, name), UInt16(at + 1 + |name|, SlotTag(j))]
  }

  /** The writes of the subdirectory records, the first at `at` with slot j. */
  function SubdirWrites(ds: seq<Dir>, at: nat, j: int): seq<Write>
  {
    if ds == [] then []
    else SubdirRecordWrites(at, ds[0].name, j)
         + SubdirWrites(ds[1..], at + 3 + |ds[0].name|, j + 1 + RecursiveDirCount(ds[0]))
  }

  /** One step of the subdirectory loop: the m-th child's checks, and its
      record followed by the rest. */
  lemma SubdirStep(ds: seq<Dir>, m: nat, j: int)
    requires m < |ds|
    ensures SubdirRecordsSize(ds[m..]) == 3 + |ds[m].name| + SubdirRecordsSize(ds[m + 1..])
    ensures SubdirCheck(ds[m..], j)
         == if |ds[m].name| > 0x7F then Some(NameTooLong)
            else if j + 1 + RecursiveDirCount(ds[m]) > 0xFFF then Some(TooManyDirectories)
            else SubdirCheck(ds[m + 1..], j + 1 + RecursiveDirCount(ds[m]))
  {
    assert ds[m..][0] == ds[m] && ds[m..][1..] == ds[m + 1..];
  }

  lemma SubdirWritesStep(ds: seq<Dir>, m: nat, at: nat, j: int, at': nat, j': int)
    requires m < |ds|
    requires at' == at + 3 + |ds[m].name| && j' == j + 1 + RecursiveDirCount(ds[m])
    ensures SubdirWrites(ds[m..], at, j) == SubdirRecordWrites(at, ds[m].name, j) + SubdirWrites(ds[m + 1..], at', j')
  {
    assert ds[m..][0] == ds[m] && ds[m..][1..] == ds[m + 1..];
  }

  /** The writes of one file record at `at`: length byte, name. */
  function FileRecordWrites(at: nat, name: seq<byte>): seq<Write>
  {
    [Raw(at, [|name| % 0x100]), Raw(at + 1, name)]
  }

  /** The writes of the file records, the first at `at`. */
  function FileWrites(fs: seq<File>, at: nat): seq<Write>
  {
    if fs == [] then []
    else FileRecordWrites(at, fs[0].name) + FileWrites(fs[1..], at + 1 + |fs[0].name|)
  }

  /** One step of the file loop: the k-th file's check, and its record
      followed by the rest. */
  lemma FileStep(fs: seq<File>, k: nat)
    requires k < |fs|
    ensures FileRecordsSize(fs[k..]) == 1 + |fs[k].name| + FileRecordsSize(fs[k + 1..])
    ensures FileNameCheck(fs[k..]) == if |fs[k].name| > 0x7F then Some(NameTooLong) else FileNameCheck(fs[k + 1..])
  {
    assert fs[k..][0] == fs[k] && fs[k..][1..] == fs[k + 1..];
  }

  lemma FileWritesStep(fs: seq<File>, k: nat, at: nat, at': nat)
    requires k < |fs|
    requires at' == at + 1 + |fs[k].name|
    ensures FileWrites(fs[k..], at) == FileRecordWrites(at, fs[k].name) + FileWrites(fs[k + 1..], at')
  {
    assert fs[k..][0] == fs[k] && fs[k..][1..] == fs[k + 1..];
  }

  /** The writes of d's name block at `at`: subdirectory records, file
      records, the closing zero. */
  function NameWrites(d: Dir, id: int, at: nat): seq<Write>
  {
    var filesAt := at + SubdirRecordsSize(d.subdirs);
    SubdirWrites(d.subdirs, at, id) + FileWrites(d.files, filesAt)
    + [Raw(filesAt + FileRecordsSize(d.files), [0])]
  }

  lemma NameWritesSplit(d: Dir, id: int, at: nat, filesAt: nat, closeAt: nat)
    requires filesAt == at + SubdirRecordsSize(d.subdirs) && closeAt == filesAt + FileRecordsSize(d.files)
    ensures NameWrites(d, id, at) == SubdirWrites(d.subdirs, at, id) + FileWrites(d.files, filesAt) + [Raw(closeAt, [0])]
  {
  }

  lemma NoSubdirWrites(ds: seq<Dir>, at: nat, at': nat, j: int)
    requires ds == []
    ensures SubdirWrites(ds, at, j) == SubdirWrites(ds, at', j) == [] && SubdirRecordsSize(ds) == 0
  {
  }

  /** The writes visiting one directory, numbered id, makes: its name block
      at `at`, then its slot writes. */
  function VisitWrites(at: nat, e: Entry, id: nat, fc: nat, last: nat): seq<Write>
  {
    NameWrites(e.dir, id, at) + SlotWrites(at, e, id, fc, last)
  }

  /** The slot writes of that visit: unless it is the last directory, the
      offset (from 0x20) where the next block starts and the file count so
      far into the next slot; unless it is the root, its parent's slot,
      tagged, into the last two bytes of its own slot. fc counts the files
      before it. */
  function SlotWrites(at: nat, e: Entry, id: nat, fc: nat, last: nat): seq<Write>
  {
    (if id != last
     then [Int32(SlotOffset(id), at + BlockSize(e.dir) - 0x20), UInt16(SlotOffset(id) + 4, fc + |e.dir.files|)]
     else [])
    + (if e.isRoot then [] else [UInt16(SlotOffset(id) - 2, SlotTag(e.parent - 1))])
  }

  /** One visit of the traversal: where the directory's name block goes, the
      entry, the identifier it gets and the files counted before it. */
  datatype VisitAt = VisitAt(at: nat, entry: Entry, id: nat, fc: nat)

  /** The writes of the visits, in order. */
  function Emit(vs: seq<VisitAt>, last: nat): seq<Write>
    decreases |vs|
  {
    if vs == [] then []
    else VisitWrites(vs[0].at, vs[0].entry, vs[0].id, vs[0].fc, last) + Emit(vs[1..], last)
  }

  lemma {:induction false} EmitAppend(a: seq<VisitAt>, b: seq<VisitAt>, last: nat)
    ensures Emit(a + b, last) == Emit(a, last) + Emit(b, last)
    decreases |a|
  {
    if a == [] {
      assert a + b == b;
    } else {
      assert (a + b)[0] == a[0] && (a + b)[1..] == a[1..] + b;
      EmitAppend(a[1..], b, last);
      ConcatAssoc(VisitWrites(a[0].at, a[0].entry, a[0].id, a[0].fc, last), Emit(a[1..], last), Emit(b, last));
    }
  }

  /** The size of the name blocks of the subtree rooted at d. */
  function TableSize(d: Dir): nat
    decreases d, 1
  {
    BlockSize(d) + TableSizeBelow(d.subdirs)
  }

  function TableSizeBelow(ds: seq<Dir>): nat
    decreases ds, 0
  {
    if ds == [] then 0 else TableSize(ds[0]) + TableSizeBelow(ds[1..])
  }

  /** The files of the subtree rooted at d, directory by directory. */
  function Files(d: Dir): seq<File>
    decreases d, 1
  {
    d.files + FilesBelow(d.subdirs)
  }

  function FilesBelow(ds: seq<Dir>): seq<File>
    decreases ds, 0
  {
    if ds == [] then [] else Files(ds[0]) + FilesBelow(ds[1..])
  }

  /** The visits of the traversal of d, numbered id, in the order the
      recursion makes them: d's own, then each child's subtree, its first
      block where the previous subtree's blocks ended. */
  function TreeVisits(d: Dir, at: nat, id: nat, fc: nat, parent: nat, isRoot: bool): seq<VisitAt>
    decreases d, 1
  {
    [VisitAt(at, Entry(d, parent, isRoot), id, fc)]
    + SubtreesVisits(d.subdirs, at + BlockSize(d), id + 1, fc + |d.files|, id)
  }

  function SubtreesVisits(ds: seq<Dir>, at: nat, first: nat, fc: nat, parent: nat): seq<VisitAt>
    decreases ds, 0
  {
    if ds == [] then []
    else TreeVisits(ds[0], at, first, fc, parent, false)
         + SubtreesVisits(ds[1..], at + TableSize(ds[0]), first + 1 + RecursiveDirCount(ds[0]),
                          fc + TotalFiles(ds[0]), parent)
  }

  /** The state the traversal threads through its calls: the writes made so
      far, the stream position, lastNamePos, the counter i (the identifier
      the next directory gets), the running file count and the file list. */
  datatype Walk = Walk(log: seq<Write>, pos: nat, lastNamePos: nat, next: nat, fileCount: nat, filePaths: seq<File>)

  /** Where d's name block goes: after the last subdirectory record written
      when d has subdirectories, at the current position otherwise. */
  function BlockStart(d: Dir, s: Walk): nat
  {
    if d.subdirs != [] then s.lastNamePos else s.pos
  }

  /** The visit of d itself from state s: its checks, then its writes, the
      position and lastNamePos at the end of its block, the counter moved on
      and its files counted and listed. */
  function Visit(d: Dir, s: Walk, parent: nat, isRoot: bool, last: nat): Result<Walk, Error>
  {
    var err := VisitError(d, s.next, s.fileCount);
    if err.Some? then Failure(err.value)
    else
      var start := BlockStart(d, s);
      var end := start + BlockSize(d);
      Success(Walk(s.log + VisitWrites(start, Entry(d, parent, isRoot), s.next, s.fileCount, last),
                   end, end, s.next + 1, s.fileCount + |d.files|, s.filePaths + d.files))
  }

  /** The traversal of d: its visit, then its children in order. */
  function Traverse(d: Dir, s: Walk, parent: nat, isRoot: bool, last: nat): Result<Walk, Error>
    decreases d, 1
  {
    match Visit(d, s, parent, isRoot, last)
    case Failure(e) => Failure(e)
    case Success(v) => TraverseAll(d.subdirs, v, s.next, last)
  }

  /** The traversals of the children ds of the directory numbered parent, one
      after the other; the first error stops them. */
  function TraverseAll(ds: seq<Dir>, s: Walk, parent: nat, last: nat): Result<Walk, Error>
    decreases ds, 0
  {
    if ds == [] then Success(s)
    else match Traverse(ds[0], s, parent, false, last)
      case Failure(e) => Failure(e)
      case Success(v) => TraverseAll(ds[1..], v, parent, last)
  }

  /** What a call that returned err and left the state s amounts to. */
  function Outcome(err: Option<Error>, s: Walk): Result<Walk, Error>
  {
    if err.Some? then Failure(err.value) else Success(s)
  }

  /** The traversal stops exactly when one of its checks fails, with the
      error the checks give (Capacity.NoErrorIff gives the closed form). */
  lemma {:induction false} TraverseError(d: Dir, s: Walk, parent: nat, isRoot: bool, last: nat)
    ensures TraversalError(d, s.next, s.fileCount)
         == if Traverse(d, s, parent, isRoot, last).Failure? then Some(Traverse(d, s, parent, isRoot, last).error) else None
    decreases d, 1
  {
    var err := VisitError(d, s.next, s.fileCount);
    if err == None {
      var v := Visit(d, s, parent, isRoot, last).value;
      TraverseAllError(d.subdirs, v, s.next, last);
    }
  }

  lemma {:induction false} TraverseAllError(ds: seq<Dir>, s: Walk, parent: nat, last: nat)
    ensures SubtreesError(ds, s.next, s.fileCount)
         == if TraverseAll(ds, s, parent, last).Failure? then Some(TraverseAll(ds, s, parent, last).error) else None
    decreases ds, 0
  {
    if ds != [] {
      TraverseError(ds[0], s, parent, false, last);
      var r := Traverse(ds[0], s, parent, false, last);
      if r.Success? {
        TraverseEffect(ds[0], s, parent, false, last);
        TraverseAllError(ds[1..], r.value, parent, last);
      }
    }
  }

  /** A traversal that runs to the end numbers the 1 + RecursiveDirCount(d)
      directories of the subtree from s.next, makes the writes of their
      visits with the name blocks end to end from d's block start, leaves
      the position and lastNamePos at the end of the last block, and adds
      the subtree's files, in traversal order, to the count and the list. */
  lemma {:induction false} TraverseEffect(d: Dir, s: Walk, parent: nat, isRoot: bool, last: nat)
    requires Traverse(d, s, parent, isRoot, last).Success?
    ensures
      var start := BlockStart(d, s);
      var end := start + TableSize(d);
      Traverse(d, s, parent, isRoot, last).value
      == Walk(s.log + Emit(TreeVisits(d, start, s.next, s.fileCount, parent, isRoot), last), end, end,
              s.next + 1 + RecursiveDirCount(d), s.fileCount + TotalFiles(d), s.filePaths + Files(d))
    decreases d, 1
  {
    var start := BlockStart(d, s);
    var v := Visit(d, s, parent, isRoot, last).value;
    var here := VisitAt(start, Entry(d, parent, isRoot), s.next, s.fileCount);
    var below := SubtreesVisits(d.subdirs, v.pos, v.next, v.fileCount, s.next);
    assert Traverse(d, s, parent, isRoot, last) == TraverseAll(d.subdirs, v, s.next, last);
    assert v.log == s.log + VisitWrites(start, Entry(d, parent, isRoot), s.next, s.fileCount, last);
    TraverseAllEffect(d.subdirs, v, s.next, last);
    var w := TraverseAll(d.subdirs, v, s.next, last).value;
    RecursiveDirCountIsSpan(d);
    calc {
      w.log;
      v.log + Emit(below, last);
      { EmitOne(here, last); }
      (s.log + Emit([here], last)) + Emit(below, last);
      { ConcatAssoc(s.log, Emit([here], last), Emit(below, last)); }
      s.log + (Emit([here], last) + Emit(below, last));
      { EmitAppend([here], below, last); }
      s.log + Emit([here] + below, last);
      { TreeVisitsCons(d, start, s.next, s.fileCount, parent, isRoot, v.pos, v.next, v.fileCount); }
      s.log + Emit(TreeVisits(d, start, s.next, s.fileCount, parent, isRoot), last);
    }
    ConcatAssoc(s.filePaths, d.files, FilesBelow(d.subdirs));
  }

  lemma TreeVisitsCons(d: Dir, at: nat, id: nat, fc: nat, parent: nat, isRoot: bool, at': nat, id': nat, fc': nat)
    requires at' == at + BlockSize(d) && id' == id + 1 && fc' == fc + |d.files|
    ensures TreeVisits(d, at, id, fc, parent, isRoot)
         == [VisitAt(at, Entry(d, parent, isRoot), id, fc)] + SubtreesVisits(d.subdirs, at', id', fc', id)
  {
  }

  lemma {:induction false} TraverseAllEffect(ds: seq<Dir>, s: Walk, parent: nat, last: nat)
    requires s.pos == s.lastNamePos
    requires TraverseAll(ds, s, parent, last).Success?
    ensures
      var end := s.pos + TableSizeBelow(ds);
      TraverseAll(ds, s, parent, last).value
      == Walk(s.log + Emit(SubtreesVisits(ds, s.pos, s.next, s.fileCount, parent), last), end, end,
              s.next + Span(ds), s.fileCount + TotalFilesBelow(ds), s.filePaths + FilesBelow(ds))
    decreases ds, 0
  {
    if ds != [] {
      var v := Traverse(ds[0], s, parent, false, last).value;
      TraverseAllStep(ds, s, parent, last);
      assert BlockStart(ds[0], s) == s.pos;
      TraverseEffect(ds[0], s, parent, false, last);
      TraverseAllEffect(ds[1..], v, parent, last);
      var here := TreeVisits(ds[0], s.pos, s.next, s.fileCount, parent, false);
      var rest := SubtreesVisits(ds[1..], v.pos, v.next, v.fileCount, parent);
      var w := TraverseAll(ds[1..], v, parent, last).value;
      assert v.pos == s.pos + TableSize(ds[0]) && v.next == s.next + 1 + RecursiveDirCount(ds[0])
          && v.fileCount == s.fileCount + TotalFiles(ds[0]);
      calc {
        w.log;
        v.log + Emit(rest, last);
        (s.log + Emit(here, last)) + Emit(rest, last);
        { ConcatAssoc(s.log, Emit(here, last), Emit(rest, last)); }
        s.log + (Emit(here, last) + Emit(rest, last));
        { EmitAppend(here, rest, last); }
        s.log + Emit(here + rest, last);
        { SubtreesVisitsCons(ds, s.pos, s.next, s.fileCount, parent, v.pos, v.next, v.fileCount); }
        s.log + Emit(SubtreesVisits(ds, s.pos, s.next, s.fileCount, parent), last);
      }
      ConcatAssoc(s.filePaths, Files(ds[0]), FilesBelow(ds[1..]));
    }
  }

  lemma SubtreesVisitsCons(ds: seq<Dir>, at: nat, first: nat, fc: nat, parent: nat, at': nat, first': nat, fc': nat)
    requires ds != []
    requires at' == at + TableSize(ds[0]) && first' == first + 1 + RecursiveDirCount(ds[0]) && fc' == fc + TotalFiles(ds[0])
    ensures SubtreesVisits(ds, at, first, fc, parent)
         == TreeVisits(ds[0], at, first, fc, parent, false) + SubtreesVisits(ds[1..], at', first', fc', parent)
  {
  }

  lemma TraverseAllStep(ds: seq<Dir>, s: Walk, parent: nat, last: nat)
    requires ds != [] && Traverse(ds[0], s, parent, false, last).Success?
    ensures TraverseAll(ds, s, parent, last) == TraverseAll(ds[1..], Traverse(ds[0], s, parent, false, last).value, parent, last)
  {
  }

  lemma EmitOne(v: VisitAt, last: nat)
    ensures Emit([v], last) == VisitWrites(v.at, v.entry, v.id, v.fc, last)
  {
    assert [v][1..] == [];
  }

  /** The visits of the entries in order, numbered from id, the first name
      block at `at`, each next one where the previous ended. */
  function Visits(at: nat, es: seq<Entry>, id: nat, fc: nat): seq<VisitAt>
    decreases |es|
  {
    if es == [] then []
    else [VisitAt(at, es[0], id, fc)] + Visits(at + BlockSize(es[0].dir), es[1..], id + 1, fc + |es[0].dir.files|)
  }

  lemma {:induction false} VisitsAppend(at: nat, a: seq<Entry>, b: seq<Entry>, id: nat, fc: nat)
    ensures Visits(at, a + b, id, fc)
         == Visits(at, a, id, fc) + Visits(at + TableLength(a), b, id + |a|, fc + |FileList(a)|)
    decreases |a|
  {
    if a == [] {
      assert a + b == b;
    } else {
      assert (a + b)[0] == a[0] && (a + b)[1..] == a[1..] + b;
      var at1, fc1 := at + BlockSize(a[0].dir), fc + |a[0].dir.files|;
      VisitsAppend(at1, a[1..], b, id + 1, fc1);
      var x := [VisitAt(at, a[0], id, fc)];
      var y := Visits(at1, a[1..], id + 1, fc1);
      var z := Visits(at1 + TableLength(a[1..]), b, id + 1 + |a[1..]|, fc1 + |FileList(a[1..])|);
      ConcatAssoc(x, y, z);
    }
  }

  /** The recursion visits the directories in pre-order: the k-th visit is
      that of the k-th pre-order entry, numbered id + k, its block right
      after the blocks of the entries before it; the blocks of the subtree
      take the room of the name table of its entries, and its files are the
      entries' files in that order. */
  lemma {:induction false} PreorderVisits(d: Dir, at: nat, id: nat, fc: nat, parent: nat, isRoot: bool)
    ensures TreeVisits(d, at, id, fc, parent, isRoot) == Visits(at, Preorder(d, id, parent, isRoot), id, fc)
    ensures TableSize(d) == TableLength(Preorder(d, id, parent, isRoot))
    ensures Files(d) == FileList(Preorder(d, id, parent, isRoot))
    decreases d, 1
  {
    var e := Entry(d, parent, isRoot);
    var below := PreorderList(d.subdirs, id + 1, id);
    var es := Preorder(d, id, parent, isRoot);
    assert es[0] == e && es[1..] == below;
    PreorderListVisits(d.subdirs, at + BlockSize(d), id + 1, fc + |d.files|, id);
  }

  lemma {:induction false} PreorderListVisits(ds: seq<Dir>, at: nat, first: nat, fc: nat, parent: nat)
    ensures SubtreesVisits(ds, at, first, fc, parent) == Visits(at, PreorderList(ds, first, parent), first, fc)
    ensures TableSizeBelow(ds) == TableLength(PreorderList(ds, first, parent))
    ensures FilesBelow(ds) == FileList(PreorderList(ds, first, parent))
    decreases ds, 0
  {
    if ds != [] {
      var here := Preorder(ds[0], first, parent, false);
      var next := first + 1 + RecursiveDirCount(ds[0]);
      var rest := PreorderList(ds[1..], next, parent);
      var at', fc' := at + TableSize(ds[0]), fc + TotalFiles(ds[0]);
      assert PreorderList(ds, first, parent) == here + rest;
      PreorderVisits(ds[0], at, first, fc, parent, false);
      PreorderLength(ds[0], first, parent, false);
      FileListSize(ds[0], first, parent, false);
      PreorderListVisits(ds[1..], at', next, fc', parent);
      calc {
        SubtreesVisits(ds, at, first, fc, parent);
        { SubtreesVisitsCons(ds, at, first, fc, parent, at', next, fc'); }
        TreeVisits(ds[0], at, first, fc, parent, false) + SubtreesVisits(ds[1..], at', next, fc', parent);
        Visits(at, here, first, fc) + Visits(at', rest, next, fc');
        { VisitsJoin(at, here, rest, first, fc, at', next, fc'); }
        Visits(at, here + rest, first, fc);
      }
      TableLengthAppend(here, rest);
      FileListAppend(here, rest);
    }
  }

  lemma VisitsJoin(at: nat, a: seq<Entry>, b: seq<Entry>, id: nat, fc: nat, at': nat, id': nat, fc': nat)
    requires at' == at + TableLength(a) && id' == id + |a| && fc' == fc + |FileList(a)|
    ensures Visits(at, a + b, id, fc) == Visits(at, a, id, fc) + Visits(at', b, id', fc')
  {
    VisitsAppend(at, a, b, id, fc);
  }

  lemma {:induction false} TableLengthAppend(a: seq<Entry>, b: seq<Entry>)
    ensures TableLength(a + b) == TableLength(a) + TableLength(b)
  {
    if a == [] {
      assert a + b == b;
    } else {
      assert (a + b)[0] == a[0] && (a + b)[1..] == a[1..] + b;
      TableLengthAppend(a[1..], b);
    }
  }
}
