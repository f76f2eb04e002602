/** What the writes of the file-info table and the file data leave in the
    stream: each file's start and end offsets in its 8-byte info entry, its
    contents at its start, 0xFF from its end up to the next multiple of 4
    past it; and where those writes fall. Offsets are taken not to reach
    4 GiB, where the builder's uint offsets would wrap. */
module DataImage {
  import opened Bytes
  import opened Writer
  import opened Tree
  import opened TraversalSpec
  import opened LayoutSpec
  import opened Frames

  /** Where the data section ends, each file's 0xFF and padding included,
      the first file's data at cur, counted without wrapping. */
  function DataLimit(fs: seq<File>, cur: nat): nat
    decreases |fs|
  {
    if fs == [] then cur else DataLimit(fs[1..], RoundUp(cur + |fs[0].content| + 1, 4))
  }

  /** Where the k-th file's data starts, as the builder computes it. */
  function DataStart(fs: seq<File>, cur: nat, k: nat): nat
    requires k <= |fs|
    decreases k
  {
    if k == 0 then cur else DataStart(fs[1..], NextData(cur, fs[0]), k - 1)
  }

  lemma {:induction false} DataLimitGrows(fs: seq<File>, cur: nat)
    ensures cur <= DataLimit(fs, cur)
    ensures fs != [] ==> RoundUp(cur + |fs[0].content| + 1, 4) <= DataLimit(fs, cur)
    decreases |fs|
  {
    if fs != [] {
      DataLimitGrows(fs[1..], RoundUp(cur + |fs[0].content| + 1, 4));
    }
  }

  /** Below 4 GiB the next file's start is where the padding after the
      previous one ends. */
  lemma NextDataNoWrap(fs: seq<File>, cur: nat)
    requires fs != [] && DataLimit(fs, cur) < TWO32
    ensures NextData(cur, fs[0]) == RoundUp(cur + |fs[0].content| + 1, 4)
    ensures DataLimit(fs[1..], NextData(cur, fs[0])) == DataLimit(fs, cur)
  {
    DataLimitGrows(fs, cur);
  }

  /** The files' data start one after the other: the k-th at or after cur,
      the next one where the k-th one's padding ends, the last padding
      ending at DataLimit. */
  lemma {:induction false} DataStartNext(fs: seq<File>, cur: nat, k: nat)
    requires k < |fs| && DataLimit(fs, cur) < TWO32
    ensures cur <= DataStart(fs, cur, k)
    ensures DataStart(fs, cur, k + 1) == RoundUp(DataStart(fs, cur, k) + |fs[k].content| + 1, 4)
    ensures DataStart(fs, cur, k + 1) <= DataLimit(fs, cur)
    decreases k
  {
    NextDataNoWrap(fs, cur);
    var cur' := NextData(cur, fs[0]);
    if k == 0 {
      DataLimitGrows(fs[1..], cur');
    } else {
      DataStartNext(fs[1..], cur', k - 1);
      assert fs[1..][k - 1] == fs[k];
    }
  }

  lemma {:induction false} DataStartLast(fs: seq<File>, cur: nat)
    requires DataLimit(fs, cur) < TWO32
    ensures DataStart(fs, cur, |fs|) == DataLimit(fs, cur)
    decreases |fs|
  {
    if fs != [] {
      NextDataNoWrap(fs, cur);
      DataStartLast(fs[1..], NextData(cur, fs[0]));
    }
  }

  /** Single 0xFF bytes from p to q put down one run of 0xFF. */
  lemma {:induction false} FFRaw(s: seq<byte>, p: nat, q: nat)
    requires p <= q
    ensures Apply(s, FFWrites(p, q)) == Apply(s, [Raw(p, Fill(q - p, 0xFF))])
    decreases q - p
  {
    ApplyOne(s, Raw(p, Fill(q - p, 0xFF)));
    if p == q {
      assert Fill(q - p, 0xFF) == [];
    } else {
      var s1 := Put(s, p, [0xFF]);
      assert FFWrites(p, q) == [Raw(p, [0xFF])] + FFWrites(p + 1, q);
      ApplyAppend(s, [Raw(p, [0xFF])], FFWrites(p + 1, q));
      ApplyOne(s, Raw(p, [0xFF]));
      FFRaw(s1, p + 1, q);
      ApplyOne(s1, Raw(p + 1, Fill(q - p - 1, 0xFF)));
      PutThen(s, p, [0xFF], p + 1, Fill(q - p - 1, 0xFF));
      assert [0xFF] + Fill(q - p - 1, 0xFF) == Fill(q - p, 0xFF);
    }
  }

  /** The single 0xFF writes from p to q fall in [p, q). */
  lemma {:induction false} FFBounds(p: nat, q: nat)
    ensures Above(FFWrites(p, q), p) && Within(FFWrites(p, q), Max(p, q))
    decreases q - p
  {
    if p < q {
      FFBounds(p + 1, q);
      Single(Raw(p, [0xFF]), p, 0, 0);
      Single(Raw(p, [0xFF]), q, 0, 0);
      AboveLower(FFWrites(p + 1, q), p + 1, p);
      AboveAppend([Raw(p, [0xFF])], FFWrites(p + 1, q), p);
      WithinAppend([Raw(p, [0xFF])], FFWrites(p + 1, q), q);
    }
  }

  /** r holds one file as the builder lays it out: its 8-byte info entry at
      at holds the start and the end of its data, the contents c are at the
      start, and 0xFF runs from their end up to n. */
  predicate FileLaidOut(r: seq<byte>, at: nat, start: nat, c: seq<byte>, n: nat)
  {
    && at + 8 <= start && start + |c| < n <= |r|
    && r[at..at + 4] == LE32(start) && r[at + 4..at + 8] == LE32(start + |c|)
    && r[start..start + |c|] == c && r[start + |c|..n] == Fill(n - start - |c|, 0xFF)
  }

  /** Writes that miss a laid-out file's info entry and data leave it laid
      out. */
  lemma FileLaidOutKeeps(r: seq<byte>, ws: seq<Write>, at: nat, start: nat, c: seq<byte>, n: nat)
    requires FileLaidOut(r, at, start, c, n) && Avoids(ws, at, at + 8) && Avoids(ws, start, n)
    ensures FileLaidOut(Apply(r, ws), at, start, c, n)
  {
    var e := start + |c|;
    AvoidsNarrow(ws, at, at + 8, at, at + 4);
    AvoidsNarrow(ws, at, at + 8, at + 4, at + 8);
    AvoidsNarrow(ws, start, n, start, e);
    AvoidsNarrow(ws, start, n, e, n);
    ApplyKeeps(r, ws, at, at + 4);
    ApplyKeeps(r, ws, at + 4, at + 8);
    ApplyKeeps(r, ws, start, e);
    ApplyKeeps(r, ws, e, n);
  }

  lemma FileLaidOutSame(r: seq<byte>, r': seq<byte>, at: nat, start: nat, c: seq<byte>, n: nat)
    requires FileLaidOut(r, at, start, c, n) && r == r'
    ensures FileLaidOut(r', at, start, c, n)
  {
  }

  /** The writes of one file with its 0xFF padding as a single run. */
  lemma OneFileRun(s: seq<byte>, info: nat, cur: nat, f: File)
    ensures
      var e := cur + |f.content|;
      var n := RoundUp(e + 1, 4);
      Apply(s, OneFileWrites(info, cur, f))
        == Apply(s, [Int32(info, cur), Raw(cur, f.content)] + [Raw(e, Fill(n - e, 0xFF))] + [Int32(info + 4, DataEnd(cur, f))])
  {
    var e := cur + |f.content|;
    var n := RoundUp(e + 1, 4);
    var a := [Int32(info, cur), Raw(cur, f.content)];
    FFRaw(Apply(s, a), e, n);
    ApplySwap(s, a, FFWrites(e, n), [Raw(e, Fill(n - e, 0xFF))], [Int32(info + 4, DataEnd(cur, f))]);
  }

  /** The writes of one file, its info entry at info and its data at cur
      past the entry: the entry holds the start and the end of the data, the
      contents follow the start, and 0xFF runs from the end of the contents
      up to the next multiple of 4 past it. */
  lemma OneFileFields(s: seq<byte>, info: nat, cur: nat, f: File, n: nat)
    requires info + 8 <= cur && cur + |f.content| < TWO32 && n == RoundUp(cur + |f.content| + 1, 4)
    ensures FileLaidOut(Apply(s, OneFileWrites(info, cur, f)), info, cur, f.content, n)
  {
    var e := cur + |f.content|;
    var w0, w1, w3 := Int32(info, cur), Raw(cur, f.content), Int32(info + 4, DataEnd(cur, f));
    var p := Raw(e, Fill(n - e, 0xFF));
    OneFileRun(s, info, cur, f);
    assert [w0, w1] + [p] + [w3] == [w0, w1, p, w3];
    assert DataEnd(cur, f) == e;
    assert Encoding(w0) == LE32(cur) && Encoding(w3) == LE32(e);
    assert Encoding(w1) == f.content && Encoding(p) == Fill(n - e, 0xFF);
    assert End(w0) == info + 4 && End(w3) == info + 8 && End(w1) == e && End(p) == n;
    CoversOuter(s, w0, w1, p, w3);
    CoversInner(s, w0, w1, p, w3);
  }

  /** The info and data writes of the files, their info entries from info
      and their data from cur, miss every range below cur that lies outside
      the info table. */
  lemma {:induction false} DataAvoids(fs: seq<File>, info: nat, cur: nat, lo: nat, hi: nat)
    requires DataLimit(fs, cur) < TWO32
    requires (hi <= info || info + 8 * |fs| <= lo) && hi <= cur
    ensures Avoids(DataWrites(fs, info, cur), lo, hi)
    decreases |fs|
  {
    if fs != [] {
      var f := fs[0];
      var e := cur + |f.content|;
      var n := RoundUp(e + 1, 4);
      var w0, w1, w3 := Int32(info, cur), Raw(cur, f.content), Int32(info + 4, DataEnd(cur, f));
      var ff := FFWrites(e, n);
      NextDataNoWrap(fs, cur);
      DataAvoids(fs[1..], info + 8, n, lo, hi);
      FFBounds(e, n);
      AboveAvoids(ff, e, lo, hi);
      Single(w0, 0, lo, hi);
      Single(w1, 0, lo, hi);
      Single(w3, 0, lo, hi);
      AvoidsAppend([w0], [w1], lo, hi);
      assert [w0] + [w1] == [w0, w1];
      AvoidsAppend([w0, w1], ff, lo, hi);
      AvoidsAppend([w0, w1] + ff, [w3], lo, hi);
      AvoidsAppend(OneFileWrites(info, cur, f), DataWrites(fs[1..], info + 8, n), lo, hi);
    }
  }

  /** Each file's data starts where the builder moves on to after the
      previous file. */
  lemma {:induction false} DataStartStep(fs: seq<File>, cur: nat, k: nat)
    requires k < |fs|
    ensures DataStart(fs, cur, k + 1) == NextData(DataStart(fs, cur, k), fs[k])
    decreases k
  {
    if k > 0 {
      DataStartStep(fs[1..], NextData(cur, fs[0]), k - 1);
      assert fs[1..][k - 1] == fs[k];
    }
  }

  /** Below 4 GiB the data of the files from the k-th on ends where the
      data of all of them ends. */
  lemma {:induction false} DataLimitSuffix(fs: seq<File>, cur: nat, k: nat)
    requires k <= |fs| && DataLimit(fs, cur) < TWO32
    ensures DataLimit(fs[k..], DataStart(fs, cur, k)) == DataLimit(fs, cur)
    decreases k
  {
    if k == 0 {
      assert fs[0..] == fs;
    } else {
      NextDataNoWrap(fs, cur);
      DataLimitSuffix(fs[1..], NextData(cur, fs[0]), k - 1);
      assert fs[1..][k - 1..] == fs[k..];
    }
  }

  /** The writes of the files are those of the first k files followed by
      those of the rest, their entries and data where the first k leave
      off. */
  lemma {:induction false} DataWritesSplit(fs: seq<File>, info: nat, cur: nat, k: nat)
    requires k <= |fs|
    ensures DataWrites(fs, info, cur)
      == DataWrites(fs[..k], info, cur) + DataWrites(fs[k..], info + 8 * k, DataStart(fs, cur, k))
    decreases k
  {
    if k == 0 {
      assert fs[..0] == [] && fs[0..] == fs;
    } else {
      var n := NextData(cur, fs[0]);
      DataWritesSplit(fs[1..], info + 8, n, k - 1);
      assert fs[1..][..k - 1] == fs[..k][1..];
      assert fs[1..][k - 1..] == fs[k..];
      assert fs[..k][0] == fs[0];
      ConcatAssoc(OneFileWrites(info, cur, fs[0]), DataWrites(fs[1..][..k - 1], info + 8, n),
                  DataWrites(fs[k..], info + 8 * k, DataStart(fs, cur, k)));
    }
  }

  /** The writes of the files around the k-th one's. */
  lemma DataWritesAround(s: seq<byte>, fs: seq<File>, info: nat, cur: nat, k: nat)
    requires k < |fs|
    ensures Apply(s, DataWrites(fs, info, cur))
      == Apply(Apply(Apply(s, DataWrites(fs[..k], info, cur)),
                     OneFileWrites(info + 8 * k, DataStart(fs, cur, k), fs[k])),
               DataWrites(fs[k + 1..], info + 8 * k + 8, DataStart(fs, cur, k + 1)))
  {
    var pre := DataWrites(fs[..k], info, cur);
    var one := OneFileWrites(info + 8 * k, DataStart(fs, cur, k), fs[k]);
    var post := DataWrites(fs[k + 1..], info + 8 * k + 8, DataStart(fs, cur, k + 1));
    DataWritesSplit(fs, info, cur, k);
    DataStartStep(fs, cur, k);
    assert fs[k..][0] == fs[k] && fs[k..][1..] == fs[k + 1..];
    assert DataWrites(fs, info, cur) == pre + (one + post);
    ApplyAppend(s, pre, one + post);
    ApplyAppend(Apply(s, pre), one, post);
  }

  /** The writes of the files after the k-th one miss its info entry at at
      and its data from start to next. */
  lemma DataAfterAvoids(fs: seq<File>, info: nat, cur: nat, k: nat, at: nat, start: nat, next: nat)
    requires DataLimit(fs, cur) < TWO32 && info + 8 * |fs| <= cur && k < |fs|
    requires at == info + 8 * k && start == DataStart(fs, cur, k) && next == DataStart(fs, cur, k + 1)
    ensures Avoids(DataWrites(fs[k + 1..], at + 8, next), at, at + 8)
    ensures Avoids(DataWrites(fs[k + 1..], at + 8, next), start, next)
  {
    DataStartNext(fs, cur, k);
    DataLimitSuffix(fs, cur, k + 1);
    DataAvoids(fs[k + 1..], at + 8, next, at, at + 8);
    DataAvoids(fs[k + 1..], at + 8, next, start, next);
  }

  /** Whatever the earlier files left, the k-th file's writes and those of
      the files after it lay the k-th file out. */
  lemma DataFrom(s0: seq<byte>, fs: seq<File>, info: nat, cur: nat, k: nat, at: nat, start: nat, next: nat)
    requires DataLimit(fs, cur) < TWO32 && info + 8 * |fs| <= cur && k < |fs|
    requires at == info + 8 * k && start == DataStart(fs, cur, k) && next == DataStart(fs, cur, k + 1)
    ensures FileLaidOut(Apply(Apply(s0, OneFileWrites(at, start, fs[k])), DataWrites(fs[k + 1..], at + 8, next)),
                        at, start, fs[k].content, next)
  {
    DataStartNext(fs, cur, k);
    OneFileFields(s0, at, start, fs[k], next);
    DataAfterAvoids(fs, info, cur, k, at, start, next);
    FileLaidOutKeeps(Apply(s0, OneFileWrites(at, start, fs[k])), DataWrites(fs[k + 1..], at + 8, next),
                     at, start, fs[k].content, next);
  }

  /** The writes of the files' info entries and data, the entries from info
      and the data from cur past the table: the k-th entry holds the start
      and the end of the k-th file's data, its contents are at its start,
      and 0xFF runs from their end to where the next file's data starts. */
  lemma DataFields(s: seq<byte>, fs: seq<File>, info: nat, cur: nat, k: nat)
    requires DataLimit(fs, cur) < TWO32 && info + 8 * |fs| <= cur && k < |fs|
    ensures FileLaidOut(Apply(s, DataWrites(fs, info, cur)), info + 8 * k,
                        DataStart(fs, cur, k), fs[k].content, DataStart(fs, cur, k + 1))
  {
    DataWritesAround(s, fs, info, cur, k);
    var at, start, next := info + 8 * k, DataStart(fs, cur, k), DataStart(fs, cur, k + 1);
    var s0 := Apply(s, DataWrites(fs[..k], info, cur));
    DataFrom(s0, fs, info, cur, k, at, start, next);
    FileLaidOutSame(Apply(Apply(s0, OneFileWrites(at, start, fs[k])), DataWrites(fs[k + 1..], at + 8, next)),
                    Apply(s, DataWrites(fs, info, cur)), at, start, fs[k].content, next);
  }
}
