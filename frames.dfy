/** What a sequence of positioned writes leaves in a range of the stream:
    the bytes a write puts down survive every later write that does not
    touch them, and a write past the end extends the stream. */
module Frames {
  import opened Bytes
  import opened Writer

  /** Just past the last byte w touches. */
  function End(w: Write): nat
  {
    w.at + |Encoding(w)|
  }

  /** No write of ws touches a byte of [lo, hi). */
  predicate Avoids(ws: seq<Write>, lo: nat, hi: nat)
  {
    forall i :: 0 <= i < |ws| ==> End(ws[i]) <= lo || hi <= ws[i].at
  }

  /** Every write of ws ends at or before n. */
  predicate Within(ws: seq<Write>, n: nat)
  {
    forall i :: 0 <= i < |ws| ==> End(ws[i]) <= n
  }

  /** Every write of ws starts at or after n. */
  predicate Above(ws: seq<Write>, n: nat)
  {
    forall i :: 0 <= i < |ws| ==> n <= ws[i].at
  }

  /** The three predicates on a single write. */
  lemma Single(w: Write, n: nat, lo: nat, hi: nat)
    ensures Above([w], n) <==> n <= w.at
    ensures Within([w], n) <==> End(w) <= n
    ensures Avoids([w], lo, hi) <==> End(w) <= lo || hi <= w.at
  {
    assert [w][0] == w;
  }

  lemma AvoidsAppend(a: seq<Write>, b: seq<Write>, lo: nat, hi: nat)
    ensures Avoids(a + b, lo, hi) <==> Avoids(a, lo, hi) && Avoids(b, lo, hi)
  {
    assert forall i :: 0 <= i < |a| ==> a[i] == (a + b)[i];
    assert forall i :: 0 <= i < |b| ==> b[i] == (a + b)[|a| + i];
  }

  lemma WithinAppend(a: seq<Write>, b: seq<Write>, n: nat)
    ensures Within(a + b, n) <==> Within(a, n) && Within(b, n)
  {
    assert forall i :: 0 <= i < |a| ==> a[i] == (a + b)[i];
    assert forall i :: 0 <= i < |b| ==> b[i] == (a + b)[|a| + i];
  }

  lemma AboveAppend(a: seq<Write>, b: seq<Write>, n: nat)
    ensures Above(a + b, n) <==> Above(a, n) && Above(b, n)
  {
    assert forall i :: 0 <= i < |a| ==> a[i] == (a + b)[i];
    assert forall i :: 0 <= i < |b| ==> b[i] == (a + b)[|a| + i];
  }

  /** Writes that start at or after n avoid every range ending by n. */
  lemma AboveAvoids(ws: seq<Write>, n: nat, lo: nat, hi: nat)
    requires Above(ws, n) && hi <= n
    ensures Avoids(ws, lo, hi)
  {
  }

  /** Writes that end by n avoid every range starting at or after n. */
  lemma WithinAvoids(ws: seq<Write>, n: nat, lo: nat, hi: nat)
    requires Within(ws, n) && n <= lo
    ensures Avoids(ws, lo, hi)
  {
  }

  lemma AvoidsNarrow(ws: seq<Write>, lo: nat, hi: nat, lo': nat, hi': nat)
    requires Avoids(ws, lo, hi) && lo <= lo' && hi' <= hi
    ensures Avoids(ws, lo', hi')
  {
  }

  lemma AboveLower(ws: seq<Write>, n: nat, n': nat)
    requires Above(ws, n) && n' <= n
    ensures Above(ws, n')
  {
  }

  lemma WithinHigher(ws: seq<Write>, n: nat, n': nat)
    requires Within(ws, n) && n <= n'
    ensures Within(ws, n')
  {
  }

  /** Writing at the end of the stream appends. */
  lemma {:induction false} PutAtEnd(s: seq<byte>, b: seq<byte>)
    ensures Put(s, |s|, b) == s + b
    decreases |b|
  {
    if b == [] {
      assert s + b == s;
    } else {
      assert Poke(s, |s|, b[0]) == s + [b[0]] by {
        assert Fill(0, 0) == [];
      }
      PutAtEnd(s + [b[0]], b[1..]);
      assert (s + [b[0]]) + b[1..] == s + b;
    }
  }

  /** Overwriting the middle part of a prefix x + y + z of the stream with
      bytes of the same length as y leaves x + y' + z. */
  lemma Splice(s: seq<byte>, x: seq<byte>, y: seq<byte>, z: seq<byte>, y': seq<byte>)
    requires |y'| == |y| && |x| + |y| + |z| <= |s| && s[..|x| + |y| + |z|] == x + y + z
    ensures |Put(s, |x|, y')| == |s|
    ensures Put(s, |x|, y')[..|x| + |y| + |z|] == x + y' + z
  {
    var n := |x| + |y| + |z|;
    var r := Put(s, |x|, y');
    PutBytes(s, |x|, y');
    forall k | 0 <= k < n
      ensures r[k] == (x + y' + z)[k]
    {
      assert s[..n][k] == s[k];
    }
  }

  /** Two writes end to end, the second at `at'`, are one write of both. */
  lemma PutThen(s: seq<byte>, at: nat, x: seq<byte>, at': nat, y: seq<byte>)
    requires at' == at + |x|
    ensures Put(Put(s, at, x), at', y) == Put(s, at, x + y)
  {
    PutConcat(s, at, x, y);
  }

  /** A write leaves a range it does not touch alone. */
  lemma PutKeeps(s: seq<byte>, at: nat, b: seq<byte>, lo: nat, hi: nat)
    requires lo <= hi <= |s| && (at + |b| <= lo || hi <= at)
    ensures |s| <= |Put(s, at, b)|
    ensures Put(s, at, b)[lo..hi] == s[lo..hi]
  {
    PutBytes(s, at, b);
    var r := Put(s, at, b);
    assert forall k :: lo <= k < hi ==> r[k] == s[k];
    assert forall i :: 0 <= i < hi - lo ==> r[lo..hi][i] == r[lo + i];
  }

  lemma {:induction false} ApplyGrows(s: seq<byte>, ws: seq<Write>)
    ensures |s| <= |Apply(s, ws)|
    decreases |ws|
  {
    if ws != [] {
      PutLength(s, ws[0].at, Encoding(ws[0]));
      ApplyGrows(Put(s, ws[0].at, Encoding(ws[0])), ws[1..]);
    }
  }

  /** Writes that avoid a range of the stream leave it as it was. */
  lemma {:induction false} ApplyKeeps(s: seq<byte>, ws: seq<Write>, lo: nat, hi: nat)
    requires lo <= hi <= |s| && Avoids(ws, lo, hi)
    ensures hi <= |Apply(s, ws)| && Apply(s, ws)[lo..hi] == s[lo..hi]
    decreases |ws|
  {
    if ws != [] {
      var s' := Put(s, ws[0].at, Encoding(ws[0]));
      PutKeeps(s, ws[0].at, Encoding(ws[0]), lo, hi);
      ApplyKeeps(s', ws[1..], lo, hi);
    }
  }

  /** Writes inside the stream do not lengthen it. */
  lemma {:induction false} ApplyWithin(s: seq<byte>, ws: seq<Write>)
    requires Within(ws, |s|)
    ensures |Apply(s, ws)| == |s|
    decreases |ws|
  {
    if ws != [] {
      PutLength(s, ws[0].at, Encoding(ws[0]));
      ApplyWithin(Put(s, ws[0].at, Encoding(ws[0])), ws[1..]);
    }
  }

  /** Writes that all end by lo, inside the stream, change neither its
      length nor anything from lo on. */
  lemma ApplyInside(s: seq<byte>, ws: seq<Write>, lo: nat)
    requires lo <= |s| && Within(ws, lo)
    ensures |Apply(s, ws)| == |s| && Apply(s, ws)[lo..] == s[lo..]
  {
    WithinHigher(ws, lo, |s|);
    ApplyWithin(s, ws);
    WithinAvoids(ws, lo, lo, |s|);
    ApplyKeeps(s, ws, lo, |s|);
  }

  /** The bytes a write puts down are there at the end when no later write
      touches them. */
  lemma ApplyCovers(s: seq<byte>, a: seq<Write>, w: Write, b: seq<Write>)
    requires Encoding(w) != [] && Avoids(b, w.at, End(w))
    ensures End(w) <= |Apply(s, a + [w] + b)|
    ensures Apply(s, a + [w] + b)[w.at..End(w)] == Encoding(w)
  {
    ApplyAppend(s, a + [w], b);
    ApplyLast(s, a, w);
    var s1 := Put(Apply(s, a), w.at, Encoding(w));
    PutBytes(Apply(s, a), w.at, Encoding(w));
    assert s1[w.at..End(w)] == Encoding(w) by {
      forall i | 0 <= i < |Encoding(w)|
        ensures s1[w.at..End(w)][i] == Encoding(w)[i]
      {
        assert s1[w.at..End(w)][i] == s1[w.at + i];
      }
    }
    ApplyKeeps(s1, b, w.at, End(w));
  }

  /** Of four writes, the first and the last side by side below the second
      and the third: the bytes of the first and the last survive. */
  lemma CoversOuter(s: seq<byte>, w0: Write, w1: Write, w2: Write, w3: Write)
    requires Encoding(w0) != [] && Encoding(w3) != []
    requires End(w0) <= w3.at && End(w3) <= w1.at && End(w1) <= w2.at
    ensures
      var r := Apply(s, [w0, w1, w2, w3]);
      && End(w3) <= |r|
      && r[w0.at..End(w0)] == Encoding(w0) && r[w3.at..End(w3)] == Encoding(w3)
  {
    var r := Apply(s, [w0, w1, w2, w3]);
    assert End(w3) <= |r| && r[w3.at..End(w3)] == Encoding(w3) by {
      assert [w0, w1, w2, w3] == [w0, w1, w2] + [w3] + [];
      ApplyCovers(s, [w0, w1, w2], w3, []);
    }
    Single(w1, 0, w0.at, End(w0));
    Single(w2, 0, w0.at, End(w0));
    Single(w3, 0, w0.at, End(w0));
    AvoidsAppend([w1], [w2], w0.at, End(w0));
    AvoidsAppend([w1] + [w2], [w3], w0.at, End(w0));
    assert [w0, w1, w2, w3] == [] + [w0] + ([w1] + [w2] + [w3]);
    ApplyCovers(s, [], w0, [w1] + [w2] + [w3]);
  }

  /** Of the same four writes, the bytes of the second and the third
      survive too. */
  lemma CoversInner(s: seq<byte>, w0: Write, w1: Write, w2: Write, w3: Write)
    requires Encoding(w2) != []
    requires End(w0) <= w3.at && End(w3) <= w1.at && End(w1) <= w2.at
    ensures
      var r := Apply(s, [w0, w1, w2, w3]);
      && End(w2) <= |r|
      && r[w1.at..End(w1)] == Encoding(w1) && r[w2.at..End(w2)] == Encoding(w2)
  {
    var r := Apply(s, [w0, w1, w2, w3]);
    assert End(w2) <= |r| && r[w2.at..End(w2)] == Encoding(w2) by {
      Single(w3, 0, w2.at, End(w2));
      assert [w0, w1, w2, w3] == [w0, w1] + [w2] + [w3];
      ApplyCovers(s, [w0, w1], w2, [w3]);
    }
    if Encoding(w1) != [] {
      Single(w2, 0, w1.at, End(w1));
      Single(w3, 0, w1.at, End(w1));
      AvoidsAppend([w2], [w3], w1.at, End(w1));
      assert [w0, w1, w2, w3] == [w0] + [w1] + ([w2] + [w3]);
      ApplyCovers(s, [w0], w1, [w2] + [w3]);
    }
  }

  /** Replacing a run of writes by others that leave the same stream
      changes nothing. */
  lemma ApplySwap(s: seq<byte>, a: seq<Write>, x: seq<Write>, y: seq<Write>, b: seq<Write>)
    requires Apply(Apply(s, a), x) == Apply(Apply(s, a), y)
    ensures Apply(s, a + x + b) == Apply(s, a + y + b)
  {
    ApplyAppend(s, a + x, b);
    ApplyAppend(s, a, x);
    ApplyAppend(s, a + y, b);
    ApplyAppend(s, a, y);
  }
}
