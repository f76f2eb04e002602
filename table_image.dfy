/** What the traversal's writes leave in the stream: each directory's name
    block, end to end from where the name table starts, and where the slot
    writes of a run of visits fall. */
module TableImage {
  import opened Bytes
  import opened Writer
  import opened Tree
  import opened Names
  import opened TraversalSpec
  import opened Frames

  /** The writes of a subdirectory record put down the record. */
  lemma SubdirRecordApply(s: seq<byte>, at: nat, name: seq<byte>, j: int)
    ensures Apply(s, SubdirRecordWrites(at, name, j)) == Put(s, at, DirRecord(name, j))
  {
    var w0, w1, w2 := Raw(at, [LenTag(|name|)]), Raw(at + 1, name), UInt16(at + 1 + |name|, SlotTag(j));
    assert SubdirRecordWrites(at, name, j) == [w0] + [w1] + [w2];
    ApplyLast(s, [w0] + [w1], w2);
    ApplyLast(s, [w0], w1);
    ApplyOne(s, w0);
    PutConcat(s, at, [LenTag(|name|)], name);
    PutConcat(s, at, [LenTag(|name|)] + name, LE16(SlotTag(j)));
  }

  lemma {:induction false} SubdirWritesApply(s: seq<byte>, ds: seq<Dir>, at: nat, j: int)
    ensures Apply(s, SubdirWrites(ds, at, j)) == Put(s, at, SubdirRecords(ds, j))
    decreases |ds|
  {
    if ds != [] {
      var name := ds[0].name;
      var at', j' := at + 3 + |name|, j + 1 + RecursiveDirCount(ds[0]);
      ApplyAppend(s, SubdirRecordWrites(at, name, j), SubdirWrites(ds[1..], at', j'));
      SubdirRecordApply(s, at, name, j);
      SubdirWritesApply(Put(s, at, DirRecord(name, j)), ds[1..], at', j');
      PutConcat(s, at, DirRecord(name, j), SubdirRecords(ds[1..], j'));
    }
  }

  lemma FileRecordApply(s: seq<byte>, at: nat, name: seq<byte>)
    ensures Apply(s, FileRecordWrites(at, name)) == Put(s, at, FileRecord(name))
  {
    var w0, w1 := Raw(at, [|name| % 0x100]), Raw(at + 1, name);
    assert FileRecordWrites(at, name) == [w0] + [w1];
    ApplyLast(s, [w0], w1);
    ApplyOne(s, w0);
    PutConcat(s, at, [|name| % 0x100], name);
  }

  lemma {:induction false} FileWritesApply(s: seq<byte>, fs: seq<File>, at: nat)
    ensures Apply(s, FileWrites(fs, at)) == Put(s, at, FileRecords(fs))
    decreases |fs|
  {
    if fs != [] {
      var name := fs[0].name;
      var at' := at + 1 + |name|;
      ApplyAppend(s, FileRecordWrites(at, name), FileWrites(fs[1..], at'));
      FileRecordApply(s, at, name);
      FileWritesApply(Put(s, at, FileRecord(name)), fs[1..], at');
      PutConcat(s, at, FileRecord(name), FileRecords(fs[1..]));
    }
  }

  /** The writes of a name block put down the block. */
  lemma NameWritesApply(s: seq<byte>, d: Dir, id: int, at: nat)
    ensures Apply(s, NameWrites(d, id, at)) == Put(s, at, NameBlock(d, id))
  {
    var filesAt := at + SubdirRecordsSize(d.subdirs);
    var closeAt := filesAt + FileRecordsSize(d.files);
    var sw, fw := SubdirWrites(d.subdirs, at, id), FileWrites(d.files, filesAt);
    var sr, fr := SubdirRecords(d.subdirs, id), FileRecords(d.files);
    NameWritesSplit(d, id, at, filesAt, closeAt);
    SubdirRecordsLength(d.subdirs, id);
    FileRecordsLength(d.files);
    calc {
      Apply(s, NameWrites(d, id, at));
      Apply(s, sw + fw + [Raw(closeAt, [0])]);
      { ApplyLast(s, sw + fw, Raw(closeAt, [0])); }
      Put(Apply(s, sw + fw), closeAt, [0]);
      { ApplyAppend(s, sw, fw); SubdirWritesApply(s, d.subdirs, at, id); }
      Put(Apply(Put(s, at, sr), fw), closeAt, [0]);
      { FileWritesApply(Put(s, at, sr), d.files, filesAt); }
      Put(Put(Put(s, at, sr), filesAt, fr), closeAt, [0]);
      { PutThen(s, at, sr, filesAt, fr); }
      Put(Put(s, at, sr + fr), closeAt, [0]);
      { PutThen(s, at, sr + fr, closeAt, [0]); }
      Put(s, at, sr + fr + [0]);
    }
  }

  lemma {:induction false} SubdirWritesAbove(ds: seq<Dir>, at: nat, j: int)
    ensures Above(SubdirWrites(ds, at, j), at)
    decreases |ds|
  {
    if ds != [] {
      var name := ds[0].name;
      var at', j' := at + 3 + |name|, j + 1 + RecursiveDirCount(ds[0]);
      var w0, w1, w2 := Raw(at, [LenTag(|name|)]), Raw(at + 1, name), UInt16(at + 1 + |name|, SlotTag(j));
      assert SubdirRecordWrites(at, name, j) == [w0] + [w1] + [w2];
      Single(w0, at, 0, 0);
      Single(w1, at, 0, 0);
      Single(w2, at, 0, 0);
      AboveAppend([w0], [w1], at);
      AboveAppend([w0] + [w1], [w2], at);
      SubdirWritesAbove(ds[1..], at', j');
      AboveLower(SubdirWrites(ds[1..], at', j'), at', at);
      AboveAppend(SubdirRecordWrites(at, name, j), SubdirWrites(ds[1..], at', j'), at);
    }
  }

  lemma {:induction false} FileWritesAbove(fs: seq<File>, at: nat)
    ensures Above(FileWrites(fs, at), at)
    decreases |fs|
  {
    if fs != [] {
      var name := fs[0].name;
      var at' := at + 1 + |name|;
      var w0, w1 := Raw(at, [|name| % 0x100]), Raw(at + 1, name);
      assert FileRecordWrites(at, name) == [w0] + [w1];
      Single(w0, at, 0, 0);
      Single(w1, at, 0, 0);
      AboveAppend([w0], [w1], at);
      FileWritesAbove(fs[1..], at');
      AboveLower(FileWrites(fs[1..], at'), at', at);
      AboveAppend(FileRecordWrites(at, name), FileWrites(fs[1..], at'), at);
    }
  }

  /** A name block's writes all fall at or after its start. */
  lemma NameWritesAbove(d: Dir, id: int, at: nat)
    ensures Above(NameWrites(d, id, at), at)
  {
    var filesAt := at + SubdirRecordsSize(d.subdirs);
    var closeAt := filesAt + FileRecordsSize(d.files);
    var sw, fw := SubdirWrites(d.subdirs, at, id), FileWrites(d.files, filesAt);
    NameWritesSplit(d, id, at, filesAt, closeAt);
    SubdirWritesAbove(d.subdirs, at, id);
    FileWritesAbove(d.files, filesAt);
    AboveLower(fw, filesAt, at);
    Single(Raw(closeAt, [0]), at, 0, 0);
    AboveAppend(sw, fw, at);
    AboveAppend(sw + fw, [Raw(closeAt, [0])], at);
  }

  /** The slot writes of the visit of directory id fall in its slot and the
      previous one: from the last two bytes of slot id - 1 (none for the
      root) to the first six bytes of slot id (none for the last directory). */
  lemma SlotWritesBounds(at: nat, e: Entry, id: nat, fc: nat, last: nat)
    requires 1 <= id
    ensures Above(SlotWrites(at, e, id, fc, last), SlotOffset(id) - 2)
    ensures e.isRoot ==> Above(SlotWrites(at, e, id, fc, last), SlotOffset(id))
    ensures Within(SlotWrites(at, e, id, fc, last), SlotOffset(id) + 6)
    ensures id == last ==> Within(SlotWrites(at, e, id, fc, last), SlotOffset(id))
  {
    var slot := if id != last
      then [Int32(SlotOffset(id), at + BlockSize(e.dir) - 0x20), UInt16(SlotOffset(id) + 4, fc + |e.dir.files|)]
      else [];
    var parent := if e.isRoot then [] else [UInt16(SlotOffset(id) - 2, SlotTag(e.parent - 1))];
    assert SlotWrites(at, e, id, fc, last) == slot + parent;
    if id != last {
      var w0, w1 := slot[0], slot[1];
      assert slot == [w0] + [w1];
      Single(w0, SlotOffset(id), 0, 0);
      Single(w1, SlotOffset(id), 0, 0);
      Single(w0, SlotOffset(id) + 6, 0, 0);
      Single(w1, SlotOffset(id) + 6, 0, 0);
      AboveAppend([w0], [w1], SlotOffset(id));
      AboveLower(slot, SlotOffset(id), SlotOffset(id) - 2);
      WithinAppend([w0], [w1], SlotOffset(id) + 6);
    }
    if !e.isRoot {
      Single(parent[0], SlotOffset(id) - 2, 0, 0);
      Single(parent[0], SlotOffset(id), 0, 0);
      WithinHigher(parent, SlotOffset(id), SlotOffset(id) + 6);
    }
    AboveAppend(slot, parent, SlotOffset(id) - 2);
    AboveAppend(slot, parent, SlotOffset(id));
    WithinAppend(slot, parent, SlotOffset(id) + 6);
    WithinAppend(slot, parent, SlotOffset(id));
  }

  /** The writes of the visit of directory id fall at or after the last two
      bytes of slot id - 1. */
  lemma VisitAbove(at: nat, e: Entry, id: nat, fc: nat, last: nat)
    requires 0x8020 <= at && 1 <= id <= 0xFFF
    ensures Above(VisitWrites(at, e, id, fc, last), SlotOffset(id) - 2)
  {
    var nw, sw := NameWrites(e.dir, id, at), SlotWrites(at, e, id, fc, last);
    NameWritesAbove(e.dir, id, at);
    AboveLower(nw, at, SlotOffset(id) - 2);
    SlotWritesBounds(at, e, id, fc, last);
    AboveAppend(nw, sw, SlotOffset(id) - 2);
  }

  /** The writes of the visit of directory id, at most last, miss the slots
      from slot last on and the name table before `at`. */
  lemma VisitAvoids(at: nat, e: Entry, id: nat, fc: nat, last: nat)
    requires 0x8020 <= at && 1 <= id <= last <= 0xFFE
    ensures Avoids(VisitWrites(at, e, id, fc, last), SlotOffset(last), at)
  {
    var nw, sw := NameWrites(e.dir, id, at), SlotWrites(at, e, id, fc, last);
    NameWritesAbove(e.dir, id, at);
    AboveAvoids(nw, at, SlotOffset(last), at);
    SlotWritesBounds(at, e, id, fc, last);
    if id != last {
      WithinHigher(sw, SlotOffset(id) + 6, SlotOffset(last));
    }
    WithinAvoids(sw, SlotOffset(last), SlotOffset(last), at);
    AvoidsAppend(nw, sw, SlotOffset(last), at);
  }

  /** Visits numbered id, id + 1, ... */
  predicate Numbered(vs: seq<VisitAt>, id: nat)
    decreases |vs|
  {
    vs == [] || (vs[0].id == id && Numbered(vs[1..], id + 1))
  }

  /** Visits whose blocks lie end to end from at. */
  predicate Chained(vs: seq<VisitAt>, at: nat)
    decreases |vs|
  {
    vs == [] || (vs[0].at == at && Chained(vs[1..], at + BlockSize(vs[0].entry.dir)))
  }

  /** The name blocks of the visits, in order. */
  function Blocks(vs: seq<VisitAt>): seq<byte>
    decreases |vs|
  {
    if vs == [] then [] else NameBlock(vs[0].entry.dir, vs[0].id) + Blocks(vs[1..])
  }

  /** The visits of the entries are numbered from id and lie end to end from
      at, and their blocks are the entries' name table. */
  lemma {:induction false} VisitsChained(at: nat, es: seq<Entry>, id: nat, fc: nat)
    ensures |Visits(at, es, id, fc)| == |es|
    ensures Numbered(Visits(at, es, id, fc), id) && Chained(Visits(at, es, id, fc), at)
    ensures Blocks(Visits(at, es, id, fc)) == NameTable(es, id)
    decreases |es|
  {
    if es != [] {
      var at', fc' := at + BlockSize(es[0].dir), fc + |es[0].dir.files|;
      var vs := Visits(at, es, id, fc);
      assert vs[0] == VisitAt(at, es[0], id, fc) && vs[1..] == Visits(at', es[1..], id + 1, fc');
      VisitsChained(at', es[1..], id + 1, fc');
    }
  }

  /** The writes of visits numbered id, id + 1, ... up to last, their blocks
      end to end from lo in the name table, miss the slots from slot last on
      and the name table before lo. */
  lemma {:induction false} EmitAvoidsSlots(vs: seq<VisitAt>, id: nat, lo: nat, last: nat)
    requires 0x8020 <= lo && 1 <= id && id + |vs| <= last + 1 && last <= 0xFFE
    requires Numbered(vs, id) && Chained(vs, lo)
    ensures Avoids(Emit(vs, last), SlotOffset(last), lo)
    decreases |vs|
  {
    if vs != [] {
      var v := vs[0];
      var lo' := lo + BlockSize(v.entry.dir);
      VisitAvoids(v.at, v.entry, v.id, v.fc, last);
      EmitAvoidsSlots(vs[1..], id + 1, lo', last);
      AvoidsNarrow(Emit(vs[1..], last), SlotOffset(last), lo', SlotOffset(last), lo);
      AvoidsAppend(VisitWrites(v.at, v.entry, v.id, v.fc, last), Emit(vs[1..], last), SlotOffset(last), lo);
    }
  }

  /** The writes of visits numbered id, id + 1, ..., their blocks end to end
      from lo in the name table, fall at or after the last two bytes of slot
      id - 1. */
  lemma {:induction false} EmitAbove(vs: seq<VisitAt>, id: nat, lo: nat, last: nat)
    requires 0x8020 <= lo && 1 <= id && id + |vs| <= 0x1000
    requires Numbered(vs, id) && Chained(vs, lo)
    ensures Above(Emit(vs, last), SlotOffset(id) - 2)
    decreases |vs|
  {
    if vs != [] {
      var v := vs[0];
      VisitAbove(v.at, v.entry, v.id, v.fc, last);
      EmitAbove(vs[1..], id + 1, lo + BlockSize(v.entry.dir), last);
      AboveLower(Emit(vs[1..], last), SlotOffset(id + 1) - 2, SlotOffset(id) - 2);
      AboveAppend(VisitWrites(v.at, v.entry, v.id, v.fc, last), Emit(vs[1..], last), SlotOffset(id) - 2);
    }
  }

  /** A visit whose block goes at the end of the stream appends the block
      and leaves its slot writes inside what was there. */
  lemma VisitApply(s: seq<byte>, at: nat, e: Entry, id: nat, fc: nat, last: nat)
    requires |s| == at && 0x8020 <= at && 1 <= id <= 0xFFE
    ensures |Apply(s, VisitWrites(at, e, id, fc, last))| == at + BlockSize(e.dir)
    ensures Apply(s, VisitWrites(at, e, id, fc, last))[at..] == NameBlock(e.dir, id)
  {
    var nw, sw := NameWrites(e.dir, id, at), SlotWrites(at, e, id, fc, last);
    var block := NameBlock(e.dir, id);
    calc {
      Apply(s, VisitWrites(at, e, id, fc, last));
      Apply(s, nw + sw);
      { ApplyAppend(s, nw, sw); }
      Apply(Apply(s, nw), sw);
      { NameWritesApply(s, e.dir, id, at); }
      Apply(Put(s, at, block), sw);
      { PutAtEnd(s, block); }
      Apply(s + block, sw);
    }
    SlotWritesBounds(at, e, id, fc, last);
    WithinHigher(sw, SlotOffset(id) + 6, at);
    ApplyInside(s + block, sw, at);
    NameBlockLength(e.dir, id);
    assert (s + block)[at..] == block;
  }

  /** Visits numbered id, id + 1, ... up to last, the first block going at
      the end of the stream, append their name blocks end to end. */
  lemma {:induction false} EmitBlocks(s: seq<byte>, vs: seq<VisitAt>, id: nat, last: nat)
    requires 0x8020 <= |s| && 1 <= id && id + |vs| <= last + 1 && last <= 0xFFE
    requires Numbered(vs, id) && Chained(vs, |s|)
    ensures |Apply(s, Emit(vs, last))| == |s| + |Blocks(vs)|
    ensures Apply(s, Emit(vs, last))[|s|..] == Blocks(vs)
    decreases |vs|
  {
    if vs != [] {
      var v := vs[0];
      var at, at' := |s|, |s| + BlockSize(v.entry.dir);
      var vw := VisitWrites(v.at, v.entry, v.id, v.fc, last);
      var rest := Emit(vs[1..], last);
      var s1 := Apply(s, vw);
      assert v.at == at && v.id == id && Chained(vs[1..], at') && Numbered(vs[1..], id + 1);
      ApplyAppend(s, vw, rest);
      VisitApply(s, at, v.entry, v.id, v.fc, last);
      NameBlockLength(v.entry.dir, v.id);
      EmitBlocks(s1, vs[1..], id + 1, last);
      EmitAvoidsSlots(vs[1..], id + 1, at', last);
      AvoidsNarrow(rest, SlotOffset(last), at', at, at');
      ApplyKeeps(s1, rest, at, at');
      SliceJoin(Apply(s1, rest), s1, at, at');
    }
  }

  /** The visits of directories id, id + 1, ... up to last, the first block
      going at the end of the stream, append the name blocks end to end. */
  lemma EmitNames(s: seq<byte>, at: nat, es: seq<Entry>, id: nat, fc: nat, last: nat)
    requires |s| == at && 0x8020 <= at && 1 <= id && id + |es| <= last + 1 && last <= 0xFFE
    ensures |Apply(s, Emit(Visits(at, es, id, fc), last))| == at + TableLength(es)
    ensures Apply(s, Emit(Visits(at, es, id, fc), last))[at..] == NameTable(es, id)
  {
    VisitsChained(at, es, id, fc);
    NameTableLength(es, id);
    EmitBlocks(s, Visits(at, es, id, fc), id, last);
  }

  /** A stream that kept [at, at') of s1, where s1 ends. */
  lemma SliceJoin(r: seq<byte>, s1: seq<byte>, at: nat, at': nat)
    requires at <= at' == |s1| <= |r| && r[at..at'] == s1[at..at']
    ensures r[at..] == s1[at..] + r[at'..]
  {
    assert r[at..] == r[at..at'] + r[at'..];
  }

  /** The entries up to the k-th and one more: their blocks take the k-th
      entry's block more room, and they have its files more. */
  lemma PrefixStep(es: seq<Entry>, k: nat)
    requires k < |es|
    ensures TableLength(es[..k + 1]) == TableLength(es[..k]) + BlockSize(es[k].dir)
    ensures |FileList(es[..k + 1])| == |FileList(es[..k])| + |es[k].dir.files|
  {
    assert es[..k + 1] == es[..k] + [es[k]];
    assert [es[k]][1..] == [];
    TableLengthAppend(es[..k], [es[k]]);
    FileListAppend(es[..k], [es[k]]);
  }

  /** The writes of the traversal around the visit of the k-th entry,
      directory k + 1, whose block goes at `at`, after the blocks of the
      entries before it, with fc files before it; the next block goes at
      at'. */
  lemma EmitSplit(es: seq<Entry>, k: nat, last: nat, at: nat, fc: nat, at': nat, fc': nat)
    requires k < |es|
    requires at == 0x8020 + TableLength(es[..k]) && fc == |FileList(es[..k])|
    requires at' == at + BlockSize(es[k].dir) && fc' == fc + |es[k].dir.files|
    ensures Emit(Visits(0x8020, es, 1, 0), last)
         == Emit(Visits(0x8020, es[..k], 1, 0), last) + VisitWrites(at, es[k], k + 1, fc, last)
          + Emit(Visits(at', es[k + 1..], k + 2, fc'), last)
  {
    var a, b := es[..k], es[k..];
    assert es == a + b;
    VisitsJoin(0x8020, a, b, 1, 0, at, k + 1, fc);
    var v := VisitAt(at, es[k], k + 1, fc);
    var rest := Visits(at', es[k + 1..], k + 2, fc');
    VisitsUnfold(at, b, k + 1, fc, at', fc', es[k], es[k + 1..]);
    EmitAppend(Visits(0x8020, a, 1, 0), [v] + rest, last);
    EmitAppend([v], rest, last);
    EmitOne(v, last);
    ConcatAssoc(Emit(Visits(0x8020, a, 1, 0), last), Emit([v], last), Emit(rest, last));
  }

  lemma VisitsUnfold(at: nat, b: seq<Entry>, id: nat, fc: nat, at': nat, fc': nat, e: Entry, rest: seq<Entry>)
    requires b != [] && b[0] == e && b[1..] == rest
    requires at' == at + BlockSize(e.dir) && fc' == fc + |e.dir.files|
    ensures Visits(at, b, id, fc) == [VisitAt(at, e, id, fc)] + Visits(at', rest, id + 1, fc')
  {
  }

  /** The parent tag a visit of directory j writes, none for the root. */
  function ParentTagWrites(e: Entry, j: nat): seq<Write>
    requires 1 <= j
  {
    if e.isRoot then [] else [UInt16(SlotOffset(j) - 2, SlotTag(e.parent - 1))]
  }

  lemma SlotWritesAt(at: nat, e: Entry, j: nat, fc: nat, last: nat, at': nat, fc': nat)
    requires 1 <= j && j != last && at' == at + BlockSize(e.dir) && fc' == fc + |e.dir.files|
    ensures SlotWrites(at, e, j, fc, last)
         == [Int32(SlotOffset(j), at' - 0x20)] + [UInt16(SlotOffset(j) + 4, fc')] + ParentTagWrites(e, j)
  {
  }

  /** The parent tag of a visit lies in the two bytes before its slot. */
  lemma ParentTagBelow(e: Entry, j: nat)
    requires 1 <= j
    ensures Avoids(ParentTagWrites(e, j), SlotOffset(j), SlotOffset(j) + 6)
  {
    if !e.isRoot {
      Single(ParentTagWrites(e, j)[0], 0, SlotOffset(j), SlotOffset(j) + 6);
    }
  }

  /** ws is some writes x, then an Int32 at o and a UInt16 right after it,
      then writes p that miss both, then writes r above both. */
  predicate SlotFrame(ws: seq<Write>, x: seq<Write>, o: nat, v: int, c: int, p: seq<Write>, r: seq<Write>)
  {
    && ws == x + [Int32(o, v)] + ([UInt16(o + 4, c)] + (p + r))
    && Avoids(p, o, o + 6)
    && Above(r, o + 6)
  }

  /** In such writes the Int32 is what is left at o... */
  lemma SlotFrameStart(s: seq<byte>, ws: seq<Write>, x: seq<Write>, o: nat, v: int, c: int, p: seq<Write>, r: seq<Write>)
    requires SlotFrame(ws, x, o, v, c, p, r)
    ensures o + 4 <= |Apply(s, ws)| && Apply(s, ws)[o..o + 4] == LE32(v)
  {
    var w1, w2 := Int32(o, v), UInt16(o + 4, c);
    AboveAvoids(r, o + 6, o, o + 4);
    AvoidsNarrow(p, o, o + 6, o, o + 4);
    AvoidsAppend(p, r, o, o + 4);
    Single(w2, 0, o, o + 4);
    AvoidsAppend([w2], p + r, o, o + 4);
    ApplyCovers(s, x, w1, [w2] + (p + r));
  }

  /** ... and the UInt16 what is left right after it. */
  lemma SlotFrameCount(s: seq<byte>, ws: seq<Write>, x: seq<Write>, o: nat, v: int, c: int, p: seq<Write>, r: seq<Write>)
    requires SlotFrame(ws, x, o, v, c, p, r)
    ensures o + 6 <= |Apply(s, ws)| && Apply(s, ws)[o + 4..o + 6] == LE16(c)
  {
    var w1, w2 := Int32(o, v), UInt16(o + 4, c);
    AboveAvoids(r, o + 6, o + 4, o + 6);
    AvoidsNarrow(p, o, o + 6, o + 4, o + 6);
    AvoidsAppend(p, r, o + 4, o + 6);
    assert ws == (x + [w1]) + [w2] + (p + r);
    ApplyCovers(s, x + [w1], w2, p + r);
  }

  /** So the Int32 and the UInt16 are what is left at o. */
  lemma SlotCovers(s: seq<byte>, ws: seq<Write>, o: nat, v: int, c: int)
    requires exists x, p, r :: SlotFrame(ws, x, o, v, c, p, r)
    ensures o + 6 <= |Apply(s, ws)|
    ensures Apply(s, ws)[o..o + 4] == LE32(v)
    ensures Apply(s, ws)[o + 4..o + 6] == LE16(c)
  {
    var x, p, r :| SlotFrame(ws, x, o, v, c, p, r);
    SlotFrameStart(s, ws, x, o, v, c, p, r);
    SlotFrameCount(s, ws, x, o, v, c, p, r);
  }

  /** A visit of directory j, unless it is the last, amid writes a before
      it and writes r above its slot after it, leaves the writes as
      SlotCovers needs them. */
  lemma VisitFrame(ws: seq<Write>, a: seq<Write>, at: nat, e: Entry, j: nat, fc: nat, last: nat, at': nat, fc': nat, r: seq<Write>)
    requires ws == a + VisitWrites(at, e, j, fc, last) + r
    requires 1 <= j && j != last && at' == at + BlockSize(e.dir) && fc' == fc + |e.dir.files|
    requires Above(r, SlotOffset(j) + 6)
    ensures SlotFrame(ws, a + NameWrites(e.dir, j, at), SlotOffset(j), at' - 0x20, fc', ParentTagWrites(e, j), r)
  {
    var nw, p := NameWrites(e.dir, j, at), ParentTagWrites(e, j);
    var w1, w2 := Int32(SlotOffset(j), at' - 0x20), UInt16(SlotOffset(j) + 4, fc');
    SlotWritesAt(at, e, j, fc, last, at', fc');
    ParentTagBelow(e, j);
    assert ws == (a + nw) + [w1] + ([w2] + (p + r));
  }

  /** The visits after that of directory k + 1 write above its slot. */
  lemma RestAbove(es: seq<Entry>, k: nat, last: nat, at': nat, fc': nat)
    requires k < |es| <= 0xFFE && at' >= 0x8020
    ensures Above(Emit(Visits(at', es[k + 1..], k + 2, fc'), last), SlotOffset(k + 1) + 6)
  {
    VisitsChained(at', es[k + 1..], k + 2, fc');
    EmitAbove(Visits(at', es[k + 1..], k + 2, fc'), k + 2, at', last);
    assert SlotOffset(k + 2) - 2 == SlotOffset(k + 1) + 6;
  }

  /** What SlotCovers needs of the writes of the traversal at the slot of
      directory k + 1, unless it is the last. */
  lemma SlotSurroundings(es: seq<Entry>, k: nat, j: nat, last: nat, at: nat, fc: nat, at': nat, fc': nat, v: int)
    requires k < |es| <= last <= 0xFFE && j == k + 1 < last
    requires at == 0x8020 + TableLength(es[..k]) && fc == |FileList(es[..k])|
    requires at' == at + BlockSize(es[k].dir) && fc' == fc + |es[k].dir.files| && v == at' - 0x20
    ensures exists x, p, r :: SlotFrame(Emit(Visits(0x8020, es, 1, 0), last), x, SlotOffset(j), v, fc', p, r)
  {
    EmitSplit(es, k, last, at, fc, at', fc');
    RestAbove(es, k, last, at', fc');
    VisitFrame(Emit(Visits(0x8020, es, 1, 0), last), Emit(Visits(0x8020, es[..k], 1, 0), last), at, es[k], k + 1, fc, last,
               at', fc', Emit(Visits(at', es[k + 1..], k + 2, fc'), last));
  }

  /** The first six bytes of slot k + 1 hold what the visit of directory
      k + 1, unless it is the last, writes there: where the next block
      starts, from 0x20, and the files so far. */
  lemma SlotNext(s: seq<byte>, es: seq<Entry>, k: nat, last: nat, at: nat, fc: nat, at': nat, fc': nat)
    requires k < |es| <= last <= 0xFFE && k + 1 < last
    requires at == 0x8020 + TableLength(es[..k]) && fc == |FileList(es[..k])|
    requires at' == at + BlockSize(es[k].dir) && fc' == fc + |es[k].dir.files|
    ensures SlotOffset(k + 1) + 6 <= |Apply(s, Emit(Visits(0x8020, es, 1, 0), last))|
    ensures Apply(s, Emit(Visits(0x8020, es, 1, 0), last))[SlotOffset(k + 1)..SlotOffset(k + 1) + 4] == LE32(at' - 0x20)
    ensures Apply(s, Emit(Visits(0x8020, es, 1, 0), last))[SlotOffset(k + 1) + 4..SlotOffset(k + 1) + 6] == LE16(fc')
  {
    SlotSurroundings(es, k, k + 1, last, at, fc, at', fc', at' - 0x20);
    SlotCovers(s, Emit(Visits(0x8020, es, 1, 0), last), SlotOffset(k + 1), at' - 0x20, fc');
  }

  /** ws is some writes b, then a UInt16 in the two bytes before o, then
      writes r at or above o. */
  predicate TagFrame(ws: seq<Write>, b: seq<Write>, o: nat, t: int, r: seq<Write>)
  {
    2 <= o && ws == b + [UInt16(o - 2, t)] + r && Above(r, o)
  }

  /** In such writes the UInt16 is what is left before o. */
  lemma TagCovers(s: seq<byte>, ws: seq<Write>, o: nat, t: int)
    requires exists b, r :: TagFrame(ws, b, o, t, r)
    ensures o <= |Apply(s, ws)| && Apply(s, ws)[o - 2..o] == LE16(t)
  {
    var b, r :| TagFrame(ws, b, o, t, r);
    AboveAvoids(r, o, o - 2, o);
    ApplyCovers(s, b, UInt16(o - 2, t), r);
  }

  /** A visit of a directory j other than the root, amid writes a before it
      and writes r at or above its slot after it, ends with its parent's tag
      in the two bytes before its slot. */
  lemma VisitTagFrame(ws: seq<Write>, a: seq<Write>, at: nat, e: Entry, j: nat, fc: nat, last: nat, r: seq<Write>, o: nat, t: int)
    requires ws == a + VisitWrites(at, e, j, fc, last) + r
    requires 1 <= j && !e.isRoot && o == SlotOffset(j) && t == SlotTag(e.parent - 1) && Above(r, o)
    ensures exists b :: TagFrame(ws, b, o, t, r)
  {
    var w := UInt16(SlotOffset(j) - 2, SlotTag(e.parent - 1));
    var sw := if j != last
              then [Int32(SlotOffset(j), at + BlockSize(e.dir) - 0x20), UInt16(SlotOffset(j) + 4, fc + |e.dir.files|)]
              else [];
    var b := a + NameWrites(e.dir, j, at) + sw;
    assert SlotWrites(at, e, j, fc, last) == sw + [w];
    assert ws == b + [w] + r;
    assert TagFrame(ws, b, o, t, r);
  }

  /** What TagCovers needs of the writes of the traversal before slot k + 1,
      when directory k + 1 is not the root. */
  lemma TagSurroundings(es: seq<Entry>, k: nat, last: nat, at: nat, fc: nat, at': nat, fc': nat, o: nat, t: int)
    requires k < |es| <= last <= 0xFFE && !es[k].isRoot
    requires at == 0x8020 + TableLength(es[..k]) && fc == |FileList(es[..k])|
    requires at' == at + BlockSize(es[k].dir) && fc' == fc + |es[k].dir.files|
    requires o == SlotOffset(k + 1) && t == SlotTag(es[k].parent - 1)
    ensures exists b, r :: TagFrame(Emit(Visits(0x8020, es, 1, 0), last), b, o, t, r)
  {
    var r := Emit(Visits(at', es[k + 1..], k + 2, fc'), last);
    EmitSplit(es, k, last, at, fc, at', fc');
    RestAbove(es, k, last, at', fc');
    AboveLower(r, SlotOffset(k + 1) + 6, o);
    VisitTagFrame(Emit(Visits(0x8020, es, 1, 0), last), Emit(Visits(0x8020, es[..k], 1, 0), last), at, es[k], k + 1, fc, last, r, o, t);
  }

  /** The two bytes before slot k + 1 hold the tag of the parent of
      directory k + 1, when it is not the root. */
  lemma ParentSlot(s: seq<byte>, es: seq<Entry>, k: nat, last: nat, at: nat, fc: nat, at': nat, fc': nat)
    requires k < |es| <= last <= 0xFFE && !es[k].isRoot
    requires at == 0x8020 + TableLength(es[..k]) && fc == |FileList(es[..k])|
    requires at' == at + BlockSize(es[k].dir) && fc' == fc + |es[k].dir.files|
    ensures SlotOffset(k + 1) <= |Apply(s, Emit(Visits(0x8020, es, 1, 0), last))|
    ensures Apply(s, Emit(Visits(0x8020, es, 1, 0), last))[SlotOffset(k + 1) - 2..SlotOffset(k + 1)]
         == LE16(SlotTag(es[k].parent - 1))
  {
    TagSurroundings(es, k, last, at, fc, at', fc', SlotOffset(k + 1), SlotTag(es[k].parent - 1));
    TagCovers(s, Emit(Visits(0x8020, es, 1, 0), last), SlotOffset(k + 1), SlotTag(es[k].parent - 1));
  }

  /** Slot j of a directory other than the last holds where the name block
      of directory j + 1 starts, from 0x20, and the files before it. */
  lemma SlotFields(s: seq<byte>, es: seq<Entry>, j: nat, last: nat)
    requires 1 <= j <= |es| <= last <= 0xFFE && j < last
    ensures SlotOffset(j) + 6 <= |Apply(s, Emit(Visits(0x8020, es, 1, 0), last))|
    ensures Apply(s, Emit(Visits(0x8020, es, 1, 0), last))[SlotOffset(j)..SlotOffset(j) + 4]
         == LE32(0x8000 + TableLength(es[..j]))
    ensures Apply(s, Emit(Visits(0x8020, es, 1, 0), last))[SlotOffset(j) + 4..SlotOffset(j) + 6]
         == LE16(|FileList(es[..j])|)
  {
    var k := j - 1;
    PrefixStep(es, k);
    var at, fc := 0x8020 + TableLength(es[..k]), |FileList(es[..k])|;
    SlotNext(s, es, k, last, at, fc, at + BlockSize(es[k].dir), fc + |es[k].dir.files|);
  }

  /** The last two bytes of slot j hold the tag of the parent of directory
      j + 1, when it is not the root. */
  lemma SlotParent(s: seq<byte>, es: seq<Entry>, j: nat, last: nat)
    requires 1 <= j < |es| <= last <= 0xFFE && !es[j].isRoot
    ensures SlotOffset(j) + 8 <= |Apply(s, Emit(Visits(0x8020, es, 1, 0), last))|
    ensures Apply(s, Emit(Visits(0x8020, es, 1, 0), last))[SlotOffset(j) + 6..SlotOffset(j) + 8]
         == LE16(SlotTag(es[j].parent - 1))
  {
    var at, fc := 0x8020 + TableLength(es[..j]), |FileList(es[..j])|;
    ParentSlot(s, es, j, last, at, fc, at + BlockSize(es[j].dir), fc + |es[j].dir.files|);
    assert SlotOffset(j + 1) - 2 == SlotOffset(j) + 6;
  }
}
