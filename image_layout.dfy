/** The whole run in closed form: when the builder produces an image, what
    its writes are in terms of the tree's pre-order alone, and exactly which
    trees it accepts. */
module ImageLayout {
  import opened Bytes
  import opened Wrappers
  import opened Writer
  import opened Tree
  import opened Names
  import opened Capacity
  import opened TraversalSpec
  import opened LayoutSpec

  /** The directories in the order they are numbered, the root numbered 1. */
  function Entries(root: Dir): seq<Entry>
  {
    Preorder(root, 1, 0, true)
  }

  /** Where the name table ends. */
  function TableEnd(root: Dir): nat
  {
    NameTableStart + TableLength(Entries(root))
  }

  /** The writes made before the traversal: the header and the reservation. */
  function Prefix(root: Dir): seq<Write>
  {
    HeaderWrites(TotalDirCount(root)) + ReserveWrites(0x2C)
  }

  /** The state a traversal that runs to the end leaves: the name blocks in
      pre-order from the name table's start, the position at their end, the
      files of the whole tree in pre-order. */
  function Final(root: Dir): Walk
  {
    var es := Entries(root);
    Walk(Prefix(root) + Emit(Visits(NameTableStart, es, 1, 0), TotalDirCount(root)),
         TableEnd(root), TableEnd(root), 2 + RecursiveDirCount(root), TotalFiles(root), FileList(es))
  }

  /** Every file is shorter than 0xFFFFFFFF bytes. */
  predicate FilesFit(fs: seq<File>)
  {
    forall k :: 0 <= k < |fs| ==> |fs[k].content| < 0xFFFF_FFFF
  }

  /** The trees the builder accepts: fewer than 0xFFF directories in all,
      every name of at most 0x7F bytes, fewer than 0xFFFF files, each shorter
      than 0xFFFFFFFF bytes. */
  predicate Buildable(root: Dir)
  {
    && RecursiveDirCount(root) + 1 < 0xFFF
    && NamesFit(root)
    && TotalFiles(root) < 0xFFFF
    && FilesFit(FileList(Entries(root)))
  }

  lemma {:induction false} FileSizeCheckNone(fs: seq<File>)
    ensures FileSizeCheck(fs) == None <==> FilesFit(fs)
    ensures FileSizeCheck(fs) == None || FileSizeCheck(fs) == Some(FileTooBig)
  {
    if fs != [] {
      FileSizeCheckNone(fs[1..]);
      if FilesFit(fs[1..]) && |fs[0].content| < 0xFFFF_FFFF {
        forall k | 0 <= k < |fs| ensures |fs[k].content| < 0xFFFF_FFFF {
          if k > 0 { assert fs[k] == fs[1..][k - 1]; }
        }
      }
      if FilesFit(fs) {
        forall k | 0 <= k < |fs[1..]| ensures |fs[1..][k].content| < 0xFFFF_FFFF {
          assert fs[1..][k] == fs[k + 1];
        }
      }
    }
  }

  /** A traversal that runs to the end leaves the state Final(root). */
  lemma TraverseFinal(root: Dir)
    requires Traverse(root, Start(root, NameTableStart), 0, true, TotalDirCount(root)).Success?
    ensures Traverse(root, Start(root, NameTableStart), 0, true, TotalDirCount(root)) == Success(Final(root))
  {
    var s := Start(root, NameTableStart);
    assert BlockStart(root, s) == NameTableStart;
    TraverseEffect(root, s, 0, true, TotalDirCount(root));
    PreorderVisits(root, NameTableStart, 1, 0, 0, true);
    assert [] + Files(root) == Files(root);
  }

  /** The builder produces an image exactly for the trees it accepts, and
      that image is what the writes of the header, the reservation, the
      visits of the pre-order and the tail leave. Otherwise it stops with the
      first error its checks find, in the order they run, or with FileTooBig
      when only a file's size is at fault. */
  lemma ImageSuccessIff(root: Dir)
    ensures Image(root).Success? <==> Buildable(root)
    ensures Image(root).Success? ==>
      Image(root).value == Apply([], Final(root).log + TailWrites(Final(root)))
    ensures TraversalError(root, 1, 0).Some? ==> Image(root) == Failure(TraversalError(root, 1, 0).value)
    ensures TraversalError(root, 1, 0).None? && !Buildable(root) ==> Image(root) == Failure(FileTooBig)
  {
    var s := Start(root, NameTableStart);
    var n := TotalDirCount(root);
    TraverseError(root, s, 0, true, n);
    NoErrorIff(root, 1, 0);
    if Traverse(root, s, 0, true, n).Success? {
      TraverseFinal(root);
      FileSizeCheckNone(FileList(Entries(root)));
    }
  }
}
