/** The capacity limits of the traversal: which error stops the builder, in
    the order the checks run, and the closed form of "no limit is hit". */
module Capacity {
  import opened Wrappers
  import opened Tree

  /** Why the builder stops without producing an image. */
  datatype Error =
    | DirectoryLimitExceeded  // a directory would be numbered 0xFFF or higher
    | TooManyDirectories      // too many subdirectories, or a child's subtree runs past 0xFFF
    | NameTooLong             // a directory or file name longer than 0x7F
    | FileLimitExceeded       // the running file count would reach 0xFFFF
    | FileTooBig              // a file of 0xFFFFFFFF bytes or more

  /** The per-child checks of the subdirectory loop: a child's name is
      checked before the identifiers its subtree needs; j is the slot the
      child gets. */
  function SubdirCheck(ds: seq<Dir>, j: int): Option<Error>
  {
    if ds == [] then None
    else if |ds[0].name| > 0x7F then Some(NameTooLong)
    else if j + RecursiveDirCount(ds[0]) + 1 > 0xFFF then Some(TooManyDirectories)
    else SubdirCheck(ds[1..], j + 1 + RecursiveDirCount(ds[0]))
  }

  /** The file loop: the first file whose name is too long. */
  function FileNameCheck(fs: seq<File>): Option<Error>
  {
    if fs == [] then None
    else if |fs[0].name| > 0x7F then Some(NameTooLong)
    else FileNameCheck(fs[1..])
  }

  /** The checks made while visiting d itself, numbered id, with fc files
      counted before it, in the order they run. */
  function VisitError(d: Dir, id: nat, fc: nat): Option<Error>
  {
    if id >= 0xFFF then Some(DirectoryLimitExceeded)
    else if |d.subdirs| > 0xFFF then Some(TooManyDirectories)
    else if SubdirCheck(d.subdirs, id).Some? then SubdirCheck(d.subdirs, id)
    else if FileNameCheck(d.files).Some? then FileNameCheck(d.files)
    else if fc + |d.files| >= 0xFFFF then Some(FileLimitExceeded)
    else None
  }

  /** The error a traversal of d, entered with counter id and running file
      count fc, stops with, or None when it runs to the end. */
  function TraversalError(d: Dir, id: nat, fc: nat): Option<Error>
    decreases d, 1
  {
    if VisitError(d, id, fc).Some? then VisitError(d, id, fc)
    else SubtreesError(d.subdirs, id + 1, fc + |d.files|)
  }

  /** The recursive calls over the children, one after the other. */
  function SubtreesError(ds: seq<Dir>, id: nat, fc: nat): Option<Error>
    decreases ds, 0
  {
    if ds == [] then None
    else if TraversalError(ds[0], id, fc).Some? then TraversalError(ds[0], id, fc)
    else SubtreesError(ds[1..], id + 1 + RecursiveDirCount(ds[0]), fc + TotalFiles(ds[0]))
  }

  predicate SubdirNamesFit(ds: seq<Dir>)
  {
    forall k :: 0 <= k < |ds| ==> |ds[k].name| <= 0x7F
  }

  predicate FileNamesFit(fs: seq<File>)
  {
    forall k :: 0 <= k < |fs| ==> |fs[k].name| <= 0x7F
  }

  lemma {:induction false} SubdirCheckNone(ds: seq<Dir>, j: int)
    requires j <= 0xFFF
    ensures SubdirCheck(ds, j) == None <==> SubdirNamesFit(ds) && j + Span(ds) <= 0xFFF
  {
    if ds != [] {
      var next := j + 1 + RecursiveDirCount(ds[0]);
      if |ds[0].name| <= 0x7F && next <= 0xFFF {
        SubdirCheckNone(ds[1..], next);
        assert SubdirNamesFit(ds) <==> SubdirNamesFit(ds[1..]) by {
          if SubdirNamesFit(ds[1..]) {
            forall k | 0 <= k < |ds| ensures |ds[k].name| <= 0x7F {
              if k > 0 { assert ds[k] == ds[1..][k - 1]; }
            }
          }
        }
      }
    }
  }

  lemma {:induction false} FileNameCheckNone(fs: seq<File>)
    ensures FileNameCheck(fs) == None <==> FileNamesFit(fs)
  {
    if fs != [] {
      FileNameCheckNone(fs[1..]);
      if FileNamesFit(fs[1..]) && |fs[0].name| <= 0x7F {
        forall k | 0 <= k < |fs| ensures |fs[k].name| <= 0x7F {
          if k > 0 { assert fs[k] == fs[1..][k - 1]; }
        }
      }
      if FileNamesFit(fs) {
        forall k | 0 <= k < |fs[1..]| ensures |fs[1..][k].name| <= 0x7F {
          assert fs[1..][k] == fs[k + 1];
        }
      }
    }
  }

  /** The traversal of d runs to the end exactly when every directory of the
      subtree gets an identifier below 0xFFF, every name fits in 0x7F bytes
      and the file total stays below 0xFFFF. */
  lemma {:induction false} NoErrorIff(d: Dir, id: nat, fc: nat)
    ensures TraversalError(d, id, fc) == None
        <==> id + RecursiveDirCount(d) < 0xFFF && NamesFit(d) && fc + TotalFiles(d) < 0xFFFF
    decreases d, 1
  {
    RecursiveDirCountIsSpan(d);
    if id < 0xFFF {
      SubdirCheckNone(d.subdirs, id);
      FileNameCheckNone(d.files);
      SubtreesNoErrorIff(d.subdirs, id + 1, fc + |d.files|);
      SpanCoversChildren(d.subdirs);
      if d.subdirs == [] {
        assert Span(d.subdirs) == 0 && NamesFitBelow(d.subdirs) && TotalFilesBelow(d.subdirs) == 0;
      }
    }
  }

  lemma {:induction false} SubtreesNoErrorIff(ds: seq<Dir>, id: nat, fc: nat)
    ensures SubtreesError(ds, id, fc) == None
        <==> ds == [] || (id + Span(ds) <= 0xFFF && NamesFitBelow(ds) && fc + TotalFilesBelow(ds) < 0xFFFF)
    decreases ds, 0
  {
    if ds != [] {
      var next := id + 1 + RecursiveDirCount(ds[0]);
      NoErrorIff(ds[0], id, fc);
      SubtreesNoErrorIff(ds[1..], next, fc + TotalFiles(ds[0]));
      if ds[1..] == [] {
        assert Span(ds[1..]) == 0 && NamesFitBelow(ds[1..]) && TotalFilesBelow(ds[1..]) == 0;
      }
    }
  }

  /** A run of siblings takes at least one identifier per sibling. */
  lemma {:induction false} SpanCoversChildren(ds: seq<Dir>)
    ensures |ds| <= Span(ds)
  {
    if ds != [] {
      SpanCoversChildren(ds[1..]);
    }
  }
}
