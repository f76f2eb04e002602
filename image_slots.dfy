/** The directory slots of the finished image: slot j, for every directory
    j but the last, says where the name block of directory j + 1 starts,
    how many files come before it and which directory is its parent; the
    slots of the directories past the last keep the reservation's 0xFF
    bytes. */
module ImageSlots {
  import opened Bytes
  import opened Writer
  import opened Tree
  import opened Names
  import opened TraversalSpec
  import opened LayoutSpec
  import opened Frames
  import opened TableImage
  import opened ImageLayout
  import opened ImageStages

  /** After the traversal, slot j of a directory other than the last holds
      where the next name block starts, from 0x20, and the files before it. */
  lemma TabledSlotFields(root: Dir, j: nat)
    requires Buildable(root) && 1 <= j < TotalDirCount(root)
    ensures j < |Entries(root)| && SlotOffset(j) + 6 <= |Tabled(root)|
    ensures Tabled(root)[SlotOffset(j)..SlotOffset(j) + 4] == LE32(0x8000 + TableLength(Entries(root)[..j]))
    ensures Tabled(root)[SlotOffset(j) + 4..SlotOffset(j) + 6] == LE16(|FileList(Entries(root)[..j])|)
  {
    DirCount(root);
    SlotFields(Reserved(root), Entries(root), j, TotalDirCount(root));
  }

  /** After the traversal, the last two bytes of slot j of a directory other
      than the last hold the tag of the parent of directory j + 1. */
  lemma TabledSlotParent(root: Dir, j: nat)
    requires Buildable(root) && 1 <= j < TotalDirCount(root)
    ensures j < |Entries(root)| && SlotOffset(j) + 8 <= |Tabled(root)|
    ensures Tabled(root)[SlotOffset(j) + 6..SlotOffset(j) + 8] == LE16(SlotTag(Entries(root)[j].parent - 1))
  {
    DirCount(root);
    PreorderParents(root, 1, 0, true, j);
    SlotParent(Reserved(root), Entries(root), j, TotalDirCount(root));
  }

  /** In the image, slot j of every directory but the last describes
      directory j + 1: its name block starts 0x8000 plus the name blocks
      before it from 0x20, the files of the directories before it come first
      in the file-info table, and its parent's number less one, tagged, comes
      last. */
  lemma BuiltSlot(root: Dir, j: nat)
    requires Fits(root) && 1 <= j < TotalDirCount(root)
    ensures j < |Entries(root)| && SlotOffset(j) + 8 <= |Built(root)|
    ensures Built(root)[SlotOffset(j)..SlotOffset(j) + 4] == LE32(0x8000 + TableLength(Entries(root)[..j]))
    ensures Built(root)[SlotOffset(j) + 4..SlotOffset(j) + 6] == LE16(|FileList(Entries(root)[..j])|)
    ensures Built(root)[SlotOffset(j) + 6..SlotOffset(j) + 8] == LE16(SlotTag(Entries(root)[j].parent - 1))
  {
    BuiltSlotFields(root, j);
    BuiltSlotParent(root, j);
  }

  lemma BuiltSlotFields(root: Dir, j: nat)
    requires Fits(root) && 1 <= j < TotalDirCount(root)
    ensures j < |Entries(root)| && SlotOffset(j) + 6 <= |Built(root)|
    ensures Built(root)[SlotOffset(j)..SlotOffset(j) + 4] == LE32(0x8000 + TableLength(Entries(root)[..j]))
    ensures Built(root)[SlotOffset(j) + 4..SlotOffset(j) + 6] == LE16(|FileList(Entries(root)[..j])|)
  {
    TabledSlotFields(root, j);
    SlotKept(root, j);
  }

  lemma BuiltSlotParent(root: Dir, j: nat)
    requires Fits(root) && 1 <= j < TotalDirCount(root)
    ensures j < |Entries(root)| && SlotOffset(j) + 8 <= |Built(root)|
    ensures Built(root)[SlotOffset(j) + 6..SlotOffset(j) + 8] == LE16(SlotTag(Entries(root)[j].parent - 1))
  {
    TabledSlotParent(root, j);
    SlotKept(root, j);
  }

  /** The writes after the traversal leave the slots alone. */
  lemma SlotKept(root: Dir, j: nat)
    requires Fits(root) && 1 <= j < TotalDirCount(root)
    ensures SlotOffset(j) + 8 <= |Tabled(root)| && SlotOffset(j) + 8 <= |Built(root)|
    ensures Built(root)[SlotOffset(j)..SlotOffset(j) + 4] == Tabled(root)[SlotOffset(j)..SlotOffset(j) + 4]
    ensures Built(root)[SlotOffset(j) + 4..SlotOffset(j) + 6] == Tabled(root)[SlotOffset(j) + 4..SlotOffset(j) + 6]
    ensures Built(root)[SlotOffset(j) + 6..SlotOffset(j) + 8] == Tabled(root)[SlotOffset(j) + 6..SlotOffset(j) + 8]
  {
    var o := SlotOffset(j);
    DirCount(root);
    BuiltKeeps(root, o, o + 8);
    SlotParts(Built(root), Tabled(root), o);
  }

  /** Two streams that agree on the eight bytes of a slot agree on its three
      fields. */
  lemma SlotParts(b: seq<byte>, t: seq<byte>, o: nat)
    requires o + 8 <= |b| && o + 8 <= |t| && b[o..o + 8] == t[o..o + 8]
    ensures b[o..o + 4] == t[o..o + 4] && b[o + 4..o + 6] == t[o + 4..o + 6] && b[o + 6..o + 8] == t[o + 6..o + 8]
  {
    forall i | o <= i < o + 8
      ensures b[i] == t[i]
    {
      assert b[i] == b[o..o + 8][i - o] && t[i] == t[o..o + 8][i - o];
    }
  }

  /** The header and the reservation leave zeros in the four bytes after the
      header and 0xFF from there to the name table. */
  lemma ReservedFree(root: Dir, lo: nat, hi: nat)
    requires 0x2C <= lo <= hi <= NameTableStart
    ensures |Reserved(root)| == NameTableStart
    ensures Reserved(root)[0x28..0x2C] == Fill(4, 0)
    ensures Reserved(root)[lo..hi] == Fill(hi - lo, 0xFF)
  {
    var h := HeaderBytes(TotalDirCount(root));
    ReservedBytes(root);
    assert Reserved(root)[0x28..0x2C] == Fill(4, 0);
    assert Reserved(root)[lo..hi] == Fill(0x7FF4, 0xFF)[lo - 0x2C..hi - 0x2C];
  }

  /** The traversal does not touch the slots from that of the last directory
      on. */
  lemma TabledFree(root: Dir, lo: nat, hi: nat)
    requires Buildable(root) && SlotOffset(TotalDirCount(root)) <= lo <= hi <= NameTableStart
    ensures |Reserved(root)| == NameTableStart && hi <= |Tabled(root)|
    ensures Tabled(root)[lo..hi] == Reserved(root)[lo..hi]
  {
    var es, n := Entries(root), TotalDirCount(root);
    DirCount(root);
    ReservedLength(root);
    VisitsChained(0x8020, es, 1, 0);
    EmitAvoidsSlots(Visits(0x8020, es, 1, 0), 1, 0x8020, n);
    AvoidsNarrow(Emit(Visits(0x8020, es, 1, 0), n), SlotOffset(n), 0x8020, lo, hi);
    ApplyKeeps(Reserved(root), Emit(Visits(0x8020, es, 1, 0), n), lo, hi);
  }

  /** In the image, the slot of the last directory and every slot after it
      up to the name table hold 0xFF, except for the first four bytes of the
      root's slot when the root is the only directory. */
  lemma BuiltFreeSlots(root: Dir)
    requires Fits(root)
    ensures NameTableStart <= |Built(root)|
    ensures var lo := Max(0x2C, SlotOffset(TotalDirCount(root)));
      Built(root)[lo..NameTableStart] == Fill(NameTableStart - lo, 0xFF)
  {
    var lo := Max(0x2C, SlotOffset(TotalDirCount(root)));
    DirCount(root);
    ReservedFree(root, lo, NameTableStart);
    TabledFree(root, lo, NameTableStart);
    BuiltKeeps(root, lo, NameTableStart);
  }

  /** With the root the only directory, the first four bytes of its slot
      stay zero. */
  lemma BuiltLoneRoot(root: Dir)
    requires Fits(root) && TotalDirCount(root) == 1
    ensures 0x2C <= |Built(root)| && Built(root)[0x28..0x2C] == Fill(4, 0)
  {
    DirCount(root);
    ReservedFree(root, 0x2C, 0x2C);
    TabledFree(root, 0x28, 0x2C);
    BuiltKeeps(root, 0x28, 0x2C);
  }
}
