/** The source directory tree, the subtree count the builder reserves
    identifiers with, and the pre-order in which directories are numbered. */
module Tree {
  import opened Bytes

  /** A regular file: its name (ASCII bytes) and its contents. */
  datatype File = File(name: seq<byte>, content: seq<byte>)

  /** A directory: its name and its immediate subdirectories and files, in
      the order the directory listing returns them. */
  datatype Dir = Dir(name: seq<byte>, subdirs: seq<Dir>, files: seq<File>)

  /** GetRecursiveDirCount: the immediate subdirectories plus, for each of
      them, its own recursive count. */
  function RecursiveDirCount(d: Dir): nat
    decreases d
  {
    |d.subdirs| + CountBelow(d.subdirs)
  }

  function CountBelow(ds: seq<Dir>): nat
    decreases ds
  {
    if ds == [] then 0 else RecursiveDirCount(ds[0]) + CountBelow(ds[1..])
  }

  /** GetRecursiveDirCount as the builder runs it: start from the number of
      immediate subdirectories and add each one's own count. */
  method GetRecursiveDirCount(d: Dir) returns (nrDirs: nat)
    ensures nrDirs == RecursiveDirCount(d)
    decreases d
  {
    var dirs := d.subdirs;
    nrDirs := |dirs|;
    var k := 0;
    while k < |dirs|
      invariant 0 <= k <= |dirs|
      invariant nrDirs + CountBelow(dirs[k..]) == RecursiveDirCount(d)
    {
      var below := GetRecursiveDirCount(dirs[k]);
      assert dirs[k..][1..] == dirs[k + 1..];
      nrDirs := nrDirs + below;
      k := k + 1;
    }
  }

  /** The identifiers a run of sibling subtrees occupies: one per child and
      one per directory below it. */
  function Span(ds: seq<Dir>): nat
  {
    if ds == [] then 0 else 1 + RecursiveDirCount(ds[0]) + Span(ds[1..])
  }

  /** The offset, within the siblings' identifier range, of the m-th
      sibling's subtree. */
  function ChildOffset(ds: seq<Dir>, m: nat): nat
    requires m <= |ds|
  {
    if m == 0 then 0 else 1 + RecursiveDirCount(ds[0]) + ChildOffset(ds[1..], m - 1)
  }

  lemma {:induction false} CountIsSpan(ds: seq<Dir>)
    ensures |ds| + CountBelow(ds) == Span(ds)
  {
    if ds != [] {
      CountIsSpan(ds[1..]);
    }
  }

  /** The recursive count of a directory is the sum over its children of one
      plus the child's own count. */
  lemma RecursiveDirCountIsSpan(d: Dir)
    ensures RecursiveDirCount(d) == Span(d.subdirs)
  {
    CountIsSpan(d.subdirs);
  }

  /** The full sibling range ends where the last sibling's subtree ends. */
  lemma {:induction false} ChildOffsetBounds(ds: seq<Dir>, m: nat)
    requires m < |ds|
    ensures ChildOffset(ds, m + 1) == ChildOffset(ds, m) + 1 + RecursiveDirCount(ds[m])
    ensures ChildOffset(ds, m + 1) <= Span(ds)
  {
    if m > 0 {
      ChildOffsetBounds(ds[1..], m - 1);
    } else {
      assert ChildOffset(ds[1..], 0) == 0;
    }
  }

  /** One directory of the traversal: the directory, the identifier of its
      parent, and whether it is the root. Its own identifier is its index in
      the pre-order sequence plus the identifier the sequence starts at. */
  datatype Entry = Entry(dir: Dir, parent: nat, isRoot: bool)

  /** The directories of the subtree rooted at d in the order the builder
      visits them, d first and numbered id. */
  function Preorder(d: Dir, id: nat, parent: nat, isRoot: bool): seq<Entry>
    decreases d
  {
    [Entry(d, parent, isRoot)] + PreorderList(d.subdirs, id + 1, id)
  }

  /** The subtrees of a run of siblings, one after the other, the first
      numbered first. */
  function PreorderList(ds: seq<Dir>, first: nat, parent: nat): seq<Entry>
    decreases ds
  {
    if ds == [] then [] else
      Preorder(ds[0], first, parent, false)
      + PreorderList(ds[1..], first + 1 + RecursiveDirCount(ds[0]), parent)
  }

  /** A subtree occupies exactly 1 + RecursiveDirCount identifiers. */
  lemma {:induction false} PreorderLength(d: Dir, id: nat, parent: nat, isRoot: bool)
    ensures |Preorder(d, id, parent, isRoot)| == 1 + RecursiveDirCount(d)
    decreases d
  {
    PreorderListLength(d.subdirs, id + 1, id);
    CountIsSpan(d.subdirs);
  }

  lemma {:induction false} PreorderListLength(ds: seq<Dir>, first: nat, parent: nat)
    ensures |PreorderList(ds, first, parent)| == Span(ds)
    decreases ds
  {
    if ds != [] {
      PreorderLength(ds[0], first, parent, false);
      PreorderListLength(ds[1..], first + 1 + RecursiveDirCount(ds[0]), parent);
    }
  }

  /** Sibling subtrees lie end to end: the m-th sibling's whole subtree is the
      contiguous run of identifiers starting first + ChildOffset(ds, m), and
      the runs of consecutive siblings neither overlap nor leave a gap. */
  lemma {:induction false} SiblingRange(ds: seq<Dir>, first: nat, parent: nat, m: nat)
    requires m < |ds|
    ensures ChildOffset(ds, m) + 1 + RecursiveDirCount(ds[m]) <= |PreorderList(ds, first, parent)|
    ensures PreorderList(ds, first, parent)[ChildOffset(ds, m)..ChildOffset(ds, m) + 1 + RecursiveDirCount(ds[m])]
         == Preorder(ds[m], first + ChildOffset(ds, m), parent, false)
  {
    var next := first + 1 + RecursiveDirCount(ds[0]);
    var head := Preorder(ds[0], first, parent, false);
    var rest := PreorderList(ds[1..], next, parent);
    PreorderLength(ds[0], first, parent, false);
    assert PreorderList(ds, first, parent) == head + rest;
    if m == 0 {
      assert (head + rest)[..|head|] == head;
    } else {
      var a := ChildOffset(ds[1..], m - 1);
      var b := a + 1 + RecursiveDirCount(ds[1..][m - 1]);
      SiblingRange(ds[1..], next, parent, m - 1);
      assert ds[1..][m - 1] == ds[m];
      SliceAfter(head, rest, a, b);
    }
  }

  /** A slice of the second part of a concatenation. */
  lemma SliceAfter<T>(x: seq<T>, y: seq<T>, a: nat, b: nat)
    requires a <= b <= |y|
    ensures (x + y)[|x| + a..|x| + b] == y[a..b]
  {
  }

  /** The m-th child of d is numbered id + 1 + ChildOffset(d.subdirs, m) and
      records d (numbered id) as its parent. */
  lemma ChildEntry(d: Dir, id: nat, parent: nat, isRoot: bool, m: nat)
    requires m < |d.subdirs|
    ensures 1 + ChildOffset(d.subdirs, m) < |Preorder(d, id, parent, isRoot)|
    ensures Preorder(d, id, parent, isRoot)[1 + ChildOffset(d.subdirs, m)] == Entry(d.subdirs[m], id, false)
  {
    SiblingRange(d.subdirs, id + 1, id, m);
    var es := Preorder(d, id, parent, isRoot);
    assert es[1..] == PreorderList(d.subdirs, id + 1, id);
  }

  /** Pre-order: the first entry is the directory itself; every later entry
      is a non-root directory whose parent was numbered before it, within the
      subtree. */
  lemma {:induction false} PreorderParents(d: Dir, id: nat, parent: nat, isRoot: bool, k: nat)
    requires k < |Preorder(d, id, parent, isRoot)|
    ensures k == 0 ==> Preorder(d, id, parent, isRoot)[k] == Entry(d, parent, isRoot)
    ensures k > 0 ==> !Preorder(d, id, parent, isRoot)[k].isRoot
    ensures k > 0 ==> id <= Preorder(d, id, parent, isRoot)[k].parent < id + k
    decreases d, 1
  {
    if k > 0 {
      PreorderListParents(d.subdirs, id + 1, id, k - 1);
    }
  }

  lemma {:induction false} PreorderListParents(ds: seq<Dir>, first: nat, parent: nat, k: nat)
    requires k < |PreorderList(ds, first, parent)|
    ensures !PreorderList(ds, first, parent)[k].isRoot
    ensures PreorderList(ds, first, parent)[k].parent == parent
         || first <= PreorderList(ds, first, parent)[k].parent < first + k
    decreases ds, 0
  {
    var head := Preorder(ds[0], first, parent, false);
    var next := first + 1 + RecursiveDirCount(ds[0]);
    PreorderLength(ds[0], first, parent, false);
    if k < |head| {
      PreorderParents(ds[0], first, parent, false, k);
    } else {
      PreorderListParents(ds[1..], next, parent, k - |head|);
    }
  }

  /** The files of the entries, in order: the order in which the builder
      appends them to its file list. */
  function FileList(es: seq<Entry>): seq<File>
  {
    if es == [] then [] else es[0].dir.files + FileList(es[1..])
  }

  lemma {:induction false} FileListAppend(a: seq<Entry>, b: seq<Entry>)
    ensures FileList(a + b) == FileList(a) + FileList(b)
  {
    if a == [] {
      assert a + b == b;
    } else {
      assert (a + b)[0] == a[0] && (a + b)[1..] == a[1..] + b;
      FileListAppend(a[1..], b);
    }
  }

  /** The number of files in the subtree rooted at d. */
  function TotalFiles(d: Dir): nat
    decreases d
  {
    |d.files| + TotalFilesBelow(d.subdirs)
  }

  function TotalFilesBelow(ds: seq<Dir>): nat
    decreases ds
  {
    if ds == [] then 0 else TotalFiles(ds[0]) + TotalFilesBelow(ds[1..])
  }

  /** The file list a traversal collects holds every file of the subtree. */
  lemma {:induction false} FileListSize(d: Dir, id: nat, parent: nat, isRoot: bool)
    ensures |FileList(Preorder(d, id, parent, isRoot))| == TotalFiles(d)
    decreases d
  {
    FileListAppend([Entry(d, parent, isRoot)], PreorderList(d.subdirs, id + 1, id));
    FileListSizeBelow(d.subdirs, id + 1, id);
  }

  lemma {:induction false} FileListSizeBelow(ds: seq<Dir>, first: nat, parent: nat)
    ensures |FileList(PreorderList(ds, first, parent))| == TotalFilesBelow(ds)
    decreases ds
  {
    if ds != [] {
      var next := first + 1 + RecursiveDirCount(ds[0]);
      FileListAppend(Preorder(ds[0], first, parent, false), PreorderList(ds[1..], next, parent));
      FileListSize(ds[0], first, parent, false);
      FileListSizeBelow(ds[1..], next, parent);
    }
  }

  /** Every name the builder writes for d's own listing fits in 0x7F bytes. */
  predicate ListingNamesFit(d: Dir)
  {
    && (forall k :: 0 <= k < |d.subdirs| ==> |d.subdirs[k].name| <= 0x7F)
    && (forall k :: 0 <= k < |d.files| ==> |d.files[k].name| <= 0x7F)
  }

  /** Every name below d (the root's own name is never written) fits in 0x7F bytes. */
  predicate NamesFit(d: Dir)
    decreases d
  {
    ListingNamesFit(d) && NamesFitBelow(d.subdirs)
  }

  predicate NamesFitBelow(ds: seq<Dir>)
    decreases ds
  {
    ds == [] || (NamesFit(ds[0]) && NamesFitBelow(ds[1..]))
  }
}
