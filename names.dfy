/** The name table: one name block per directory, listing the directory's
    subdirectories (tagged, with the table slot of each) and then its files,
    closed by a zero byte. */
module Names {
  import opened Bytes
  import opened Wrappers
  import opened Tree

  /** (byte)(n | 0x80): the length byte of a subdirectory record. */
  function LenTag(n: nat): byte
  {
    var b := n % 0x100;
    if b >= 0x80 then b else b + 0x80
  }

  /** (ushort)(v | 0xF000): a table slot tagged in its high nibble. */
  function SlotTag(v: int): int
  {
    0xF000 + v % 0x1000
  }

  /** A subdirectory record: tagged length, name, tagged slot. */
  function DirRecord(name: seq<byte>, slot: int): seq<byte>
  {
    [LenTag(|name|)] + name + LE16(SlotTag(slot))
  }

  /** A file record: (byte) length, name. */
  function FileRecord(name: seq<byte>): seq<byte>
  {
    [|name| % 0x100] + name
  }

  /** The records of a run of subdirectories; the first gets slot j and each
      next one the slot after the previous sibling's whole subtree. */
  function SubdirRecords(ds: seq<Dir>, j: int): seq<byte>
  {
    if ds == [] then []
    else DirRecord(ds[0].name, j) + SubdirRecords(ds[1..], j + 1 + RecursiveDirCount(ds[0]))
  }

  function FileRecords(fs: seq<File>): seq<byte>
  {
    if fs == [] then [] else FileRecord(fs[0].name) + FileRecords(fs[1..])
  }

  /** The name block of directory d numbered id: its first subdirectory gets
      slot id (the child's identifier minus one). */
  function NameBlock(d: Dir, id: int): seq<byte>
  {
    SubdirRecords(d.subdirs, id) + FileRecords(d.files) + [0]
  }

  /** The name blocks of the entries, laid end to end, the first numbered id. */
  function NameTable(es: seq<Entry>, id: int): seq<byte>
  {
    if es == [] then [] else NameBlock(es[0].dir, id) + NameTable(es[1..], id + 1)
  }

  lemma {:induction false} NameTableAppend(a: seq<Entry>, b: seq<Entry>, id: int)
    ensures NameTable(a + b, id) == NameTable(a, id) + NameTable(b, id + |a|)
  {
    if a == [] {
      assert a + b == b;
    } else {
      assert (a + b)[0] == a[0] && (a + b)[1..] == a[1..] + b;
      NameTableAppend(a[1..], b, id + 1);
    }
  }

  /** The sizes of the records and blocks, which do not depend on the slots. */
  function SubdirRecordsSize(ds: seq<Dir>): nat
  {
    if ds == [] then 0 else 3 + |ds[0].name| + SubdirRecordsSize(ds[1..])
  }

  function FileRecordsSize(fs: seq<File>): nat
  {
    if fs == [] then 0 else 1 + |fs[0].name| + FileRecordsSize(fs[1..])
  }

  function BlockSize(d: Dir): nat
  {
    SubdirRecordsSize(d.subdirs) + FileRecordsSize(d.files) + 1
  }

  function TableLength(es: seq<Entry>): nat
  {
    if es == [] then 0 else BlockSize(es[0].dir) + TableLength(es[1..])
  }

  lemma {:induction false} SubdirRecordsLength(ds: seq<Dir>, j: int)
    ensures |SubdirRecords(ds, j)| == SubdirRecordsSize(ds)
  {
    if ds != [] {
      SubdirRecordsLength(ds[1..], j + 1 + RecursiveDirCount(ds[0]));
    }
  }

  lemma {:induction false} FileRecordsLength(fs: seq<File>)
    ensures |FileRecords(fs)| == FileRecordsSize(fs)
  {
    if fs != [] {
      FileRecordsLength(fs[1..]);
    }
  }

  /** A name block takes one byte per name byte, three more per
      subdirectory, one more per file and the closing zero. */
  lemma NameBlockLength(d: Dir, id: int)
    ensures |NameBlock(d, id)| == BlockSize(d)
  {
    SubdirRecordsLength(d.subdirs, id);
    FileRecordsLength(d.files);
  }

  lemma {:induction false} NameTableLength(es: seq<Entry>, id: int)
    ensures |NameTable(es, id)| == TableLength(es)
  {
    if es != [] {
      NameBlockLength(es[0].dir, id);
      NameTableLength(es[1..], id + 1);
    }
  }

  /** What a reader of a name block sees: a subdirectory with its slot, or a file. */
  datatype Listing = SubdirListing(name: seq<byte>, slot: int) | FileListing(name: seq<byte>)

  /** Reads the record at the front of s (whose first byte is not the
      closing zero): a length byte with its top bit set starts a subdirectory
      record, any other a file record. Gives the listing and the bytes after
      the record, or None when the record runs past the end of s. */
  function ReadRecord(s: seq<byte>): (r: Option<(Listing, seq<byte>)>)
    requires s != []
    ensures r.Some? ==> |r.value.1| < |s|
  {
    if s[0] >= 0x80 then
      var n := s[0] - 0x80;
      if |s| < n + 3 then None
      else Some((SubdirListing(s[1..n + 1], U16At(s, n + 1) - 0xF000), s[n + 3..]))
    else
      var n := s[0] as int;
      if |s| < n + 1 then None
      else Some((FileListing(s[1..n + 1]), s[n + 1..]))
  }

  /** Reads the name block at the front of s: its listings and the bytes
      after its closing zero, or None when s does not start with a complete
      block. */
  function ParseBlock(s: seq<byte>): Option<(seq<Listing>, seq<byte>)>
    decreases |s|
  {
    if s == [] then None
    else if s[0] == 0 then Some(([], s[1..]))
    else match ReadRecord(s)
      case None => None
      case Some(rec) =>
        match ParseBlock(rec.1)
        case None => None
        case Some(r) => Some(([rec.0] + r.0, r.1))
  }

  function SubdirListings(ds: seq<Dir>, j: int): seq<Listing>
  {
    if ds == [] then []
    else [SubdirListing(ds[0].name, j)] + SubdirListings(ds[1..], j + 1 + RecursiveDirCount(ds[0]))
  }

  function FileListings(fs: seq<File>): seq<Listing>
  {
    if fs == [] then [] else [FileListing(fs[0].name)] + FileListings(fs[1..])
  }

  /** What d's name block says: each subdirectory, in order, with the slot of
      its table entry, then each file. */
  function Listings(d: Dir, id: int): seq<Listing>
  {
    SubdirListings(d.subdirs, id) + FileListings(d.files)
  }

  /** The m-th subdirectory listed carries slot j + ChildOffset(ds, m). */
  lemma {:induction false} SubdirListingAt(ds: seq<Dir>, j: int, m: nat)
    requires m < |ds|
    ensures |SubdirListings(ds, j)| == |ds|
    ensures SubdirListings(ds, j)[m] == SubdirListing(ds[m].name, j + ChildOffset(ds, m))
  {
    if m == 0 {
      SubdirListingsLength(ds[1..], j + 1 + RecursiveDirCount(ds[0]));
    } else {
      SubdirListingAt(ds[1..], j + 1 + RecursiveDirCount(ds[0]), m - 1);
    }
  }

  lemma {:induction false} SubdirListingsLength(ds: seq<Dir>, j: int)
    ensures |SubdirListings(ds, j)| == |ds|
  {
    if ds != [] {
      SubdirListingsLength(ds[1..], j + 1 + RecursiveDirCount(ds[0]));
    }
  }

  predicate FileNamesNonEmpty(fs: seq<File>)
  {
    forall k :: 0 <= k < |fs| ==> |fs[k].name| > 0
  }

  /** The bytes of one listing, as the builder writes it. */
  function EncodeListing(l: Listing): seq<byte>
  {
    match l
    case SubdirListing(name, slot) => DirRecord(name, slot)
    case FileListing(name) => FileRecord(name)
  }

  function EncodeListings(ls: seq<Listing>): seq<byte>
  {
    if ls == [] then [] else EncodeListing(ls[0]) + EncodeListings(ls[1..])
  }

  /** A listing the block format can carry unambiguously. */
  predicate Encodable(l: Listing)
  {
    match l
    case SubdirListing(name, slot) => |name| <= 0x7F && 0 <= slot < 0x1000
    case FileListing(name) => 0 < |name| <= 0x7F
  }

  /** Every listing of ls is encodable. */
  predicate AllEncodable(ls: seq<Listing>)
  {
    ls == [] || (Encodable(ls[0]) && AllEncodable(ls[1..]))
  }

  /** A subdirectory record in front of t reads back as its listing, t left over. */
  lemma ReadDirRecord(name: seq<byte>, slot: int, t: seq<byte>)
    requires |name| <= 0x7F && 0 <= slot < 0x1000
    ensures DirRecord(name, slot) + t != []
    ensures ReadRecord(DirRecord(name, slot) + t) == Some((SubdirListing(name, slot), t))
  {
    var n := |name|;
    var x := LE16(SlotTag(slot));
    var s := DirRecord(name, slot) + t;
    assert LenTag(n) == n + 0x80;
    assert SlotTag(slot) == 0xF000 + slot;
    LE16Decodes(SlotTag(slot));
    assert s == [n + 0x80] + (name + (x + t));
    assert s[1..n + 1] == name;
    assert s[n + 1] == x[0] && s[n + 2] == x[1];
    assert s[n + 3..] == t;
  }

  /** A file record in front of t reads back as its listing, t left over. */
  lemma ReadFileRecord(name: seq<byte>, t: seq<byte>)
    requires 0 < |name| <= 0x7F
    ensures FileRecord(name) + t != []
    ensures ReadRecord(FileRecord(name) + t) == Some((FileListing(name), t))
  {
    var n := |name|;
    var s := FileRecord(name) + t;
    assert s == [n] + (name + t);
    assert s[1..n + 1] == name;
    assert s[n + 1..] == t;
  }

  /** The bytes of an encodable listing read back as that listing; their
      first byte is never the closing zero. */
  lemma ReadRecordEncoding(l: Listing, t: seq<byte>)
    requires Encodable(l)
    ensures EncodeListing(l) + t != [] && (EncodeListing(l) + t)[0] != 0
    ensures ReadRecord(EncodeListing(l) + t) == Some((l, t))
  {
    match l
    case SubdirListing(name, slot) => ReadDirRecord(name, slot, t);
    case FileListing(name) => ReadFileRecord(name, t);
  }

  lemma EncodeListingsCons(ls: seq<Listing>)
    requires ls != []
    ensures EncodeListings(ls) == EncodeListing(ls[0]) + EncodeListings(ls[1..])
  {
  }

  /** Encoded listings followed by a zero read back as those listings, the
      bytes after the zero left over. */
  lemma {:induction false} ParseListings(ls: seq<Listing>, t: seq<byte>)
    requires AllEncodable(ls)
    ensures ParseBlock(EncodeListings(ls) + [0] + t) == Some((ls, t))
    decreases |ls|
  {
    var s := EncodeListings(ls) + [0] + t;
    if ls == [] {
      assert s == [0] + t;
      assert s[1..] == t;
    } else {
      var e0, er := EncodeListing(ls[0]), EncodeListings(ls[1..]);
      var rest := er + [0] + t;
      EncodeListingsCons(ls);
      ConcatAssoc3(e0, er, [0], t);
      ReadRecordEncoding(ls[0], rest);
      ParseListings(ls[1..], t);
      ParseBlockCons(e0 + rest, ls[0], rest, ls[1..], t);
      assert [ls[0]] + ls[1..] == ls;
    }
  }

  /** A record that reads as l in front of a block that parses. */
  lemma ParseBlockCons(s: seq<byte>, l: Listing, rest: seq<byte>, ls: seq<Listing>, t: seq<byte>)
    requires s != [] && s[0] != 0 && ReadRecord(s) == Some((l, rest)) && ParseBlock(rest) == Some((ls, t))
    ensures ParseBlock(s) == Some(([l] + ls, t))
  {
  }

  lemma {:induction false} SubdirRecordsEncode(ds: seq<Dir>, j: int)
    ensures SubdirRecords(ds, j) == EncodeListings(SubdirListings(ds, j))
  {
    if ds != [] {
      SubdirRecordsEncode(ds[1..], j + 1 + RecursiveDirCount(ds[0]));
    }
  }

  lemma {:induction false} FileRecordsEncode(fs: seq<File>)
    ensures FileRecords(fs) == EncodeListings(FileListings(fs))
  {
    if fs != [] {
      FileRecordsEncode(fs[1..]);
    }
  }

  lemma {:induction false} EncodeListingsAppend(a: seq<Listing>, b: seq<Listing>)
    ensures EncodeListings(a + b) == EncodeListings(a) + EncodeListings(b)
  {
    if a == [] {
      assert a + b == b;
    } else {
      assert (a + b)[0] == a[0] && (a + b)[1..] == a[1..] + b;
      EncodeListingsAppend(a[1..], b);
    }
  }

  /** A name block is the encoding of what it lists, closed by a zero byte. */
  lemma NameBlockEncodes(d: Dir, id: int)
    ensures NameBlock(d, id) == EncodeListings(Listings(d, id)) + [0]
  {
    SubdirRecordsEncode(d.subdirs, id);
    FileRecordsEncode(d.files);
    EncodeListingsAppend(SubdirListings(d.subdirs, id), FileListings(d.files));
  }

  lemma {:induction false} AllEncodableAppend(a: seq<Listing>, b: seq<Listing>)
    requires AllEncodable(a) && AllEncodable(b)
    ensures AllEncodable(a + b)
  {
    if a == [] {
      assert a + b == b;
    } else {
      assert (a + b)[0] == a[0] && (a + b)[1..] == a[1..] + b;
      AllEncodableAppend(a[1..], b);
    }
  }

  /** Subdirectory names of at most 0x7F bytes and slots below 0x1000 encode. */
  lemma {:induction false} SubdirListingsEncodable(ds: seq<Dir>, j: nat)
    requires forall m :: 0 <= m < |ds| ==> |ds[m].name| <= 0x7F
    requires j + Span(ds) <= 0x1000
    ensures AllEncodable(SubdirListings(ds, j))
  {
    if ds != [] {
      var ls := SubdirListings(ds, j);
      var next := j + 1 + RecursiveDirCount(ds[0]);
      assert ls[0] == SubdirListing(ds[0].name, j) && ls[1..] == SubdirListings(ds[1..], next);
      assert forall m :: 0 <= m < |ds[1..]| ==> |ds[1..][m].name| <= 0x7F by {
        forall m | 0 <= m < |ds[1..]| ensures |ds[1..][m].name| <= 0x7F {
          assert ds[1..][m] == ds[m + 1];
        }
      }
      SubdirListingsEncodable(ds[1..], next);
    }
  }

  /** Non-empty file names of at most 0x7F bytes encode. */
  lemma {:induction false} FileListingsEncodable(fs: seq<File>)
    requires forall m :: 0 <= m < |fs| ==> 0 < |fs[m].name| <= 0x7F
    ensures AllEncodable(FileListings(fs))
  {
    if fs != [] {
      var ls := FileListings(fs);
      assert ls[0] == FileListing(fs[0].name) && ls[1..] == FileListings(fs[1..]);
      assert forall m :: 0 <= m < |fs[1..]| ==> 0 < |fs[1..][m].name| <= 0x7F by {
        forall m | 0 <= m < |fs[1..]| ensures 0 < |fs[1..][m].name| <= 0x7F {
          assert fs[1..][m] == fs[m + 1];
        }
      }
      FileListingsEncodable(fs[1..]);
    }
  }

  /** Every listing of a block within the capacity limits is encodable. */
  lemma ListingsEncodable(d: Dir, id: nat)
    requires ListingNamesFit(d) && FileNamesNonEmpty(d.files)
    requires id + RecursiveDirCount(d) <= 0x1000
    ensures AllEncodable(Listings(d, id))
  {
    RecursiveDirCountIsSpan(d);
    SubdirListingsEncodable(d.subdirs, id);
    FileListingsEncodable(d.files);
    AllEncodableAppend(SubdirListings(d.subdirs, id), FileListings(d.files));
  }

  /** Decoding a name block gives back exactly what the builder listed: the
      subdirectories with their slots and then the files, and leaves what
      follows the block. File names must be non-empty, or a file record
      would read as the terminating zero. */
  lemma NameBlockRoundTrip(d: Dir, id: nat, t: seq<byte>)
    requires ListingNamesFit(d) && FileNamesNonEmpty(d.files)
    requires id + RecursiveDirCount(d) <= 0x1000
    ensures ParseBlock(NameBlock(d, id) + t) == Some((Listings(d, id), t))
  {
    ListingsEncodable(d, id);
    NameBlockEncodes(d, id);
    ParseListings(Listings(d, id), t);
  }
}
