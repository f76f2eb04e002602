# ROFS image builder, modelled in Dafny

`rofsc` packs a directory tree into one read-only file-system image (ROFS).
The image is little-endian and has five parts:

- a 0x20-byte header: the magic `ROFS`, -1, 0x20, then the file-info table's
  offset from 0x20, its offset and its size, then -1 and -1;
- a directory table of 8-byte slots from 0x20 up to 0x8020. Slot 0 holds 0x8000,
  0 and the directory count. Slot j, for each directory j but the last, holds
  three values for directory j + 1: where its name block starts (counted from
  0x20), how many files come before it, and its parent's tag;
- the name table from 0x8020: one name block per directory, in pre-order. A
  block holds a record `[len|0x80][name][j|0xF000]` per subdirectory, a record
  `[len][name]` per file, and a closing 0;
- the file-info table, at the first even offset after the name table: a
  (start, end) pair of offsets per file;
- the file data, from the first multiple of 16 after the info table. Each file
  is followed by 0xFF up to the next multiple of 4, always at least one 0xFF.

The model works in layers:

- The input is a `Tree.Dir` value, whose sequences stand for the directory
  listings.
- The builder's writer is a class, `Writer.EndianWriter`. It logs positioned
  writes and holds a position. Its bytes are the writes applied in order to an
  empty stream. A write past the end zero-fills the gap.
- `Main`'s layout is a set of imperative methods in `Layout`, and the recursive
  `WriteDirectories` is a set of methods in `Traversal`. Each method is proved
  against a function of the state it starts from (`LayoutSpec`,
  `TraversalSpec`).
- Those functions are related to the tree's pre-order (`Tree`, `ImageLayout`).
- The finished image is then described byte by byte (`ImageStages`,
  `ImageFields`, `ImageSlots`, `TableImage`, `DataImage`).
- `Names` also gives a reader for name blocks and proves that it recovers
  every directory's listing.
- `Finding` models the one place where the code as written does not do what
  the rest of its layout implies.

In two places the code and the format's description disagree:

- The root is numbered 1, and a directory numbered 0xFFF or higher stops the
  run (line 127). So at most 0xFFE = 4094 directories, the root included, are
  accepted, not 4095. The model follows the code here.
- Main seeks 0x28 before the traversal (line 53). The description, like slot 0,
  puts the root's name block at 0x8020. Here the main model
  (`Layout.BuildImage`, `LayoutSpec.Image`) follows the description and enters
  the traversal at 0x8020. The code as written is `Finding.ImageAsWritten`,
  and `Finding.AsWrittenAgrees` proves the two images equal whenever the root
  has a subdirectory, so every byte-level fact about `Image` also holds for
  the code as written on those trees. For a root without subdirectories they
  differ; see Findings.

## Model

| member | source | states |
|---|---|---|
| Writer.EndianWriter.constructor | rofsc/Program.cs:30 | a new stream has no writes and is at position 0 |
| Writer.EndianWriter.Seek | rofsc/Program.cs:36 | setting the position writes nothing |
| Writer.EndianWriter.WriteBytes | rofsc/Program.cs:33 | the bytes are written at the position, which moves past them |
| Writer.EndianWriter.WriteByte | rofsc/Program.cs:60 | one byte is written at the position, which moves by 1 |
| Writer.EndianWriter.WriteUInt16 | rofsc/Program.cs:44-45 | a 2-byte little-endian value is written at the position, which moves by 2 |
| Writer.EndianWriter.WriteInt32 | rofsc/Program.cs:34-35 | a 4-byte little-endian value is written at the position, which moves by 4 |
| Writer.ApplyAppend | rofsc/Program.cs:32-110 | the stream after two runs of writes is the second run applied to the result of the first |
| Bytes.LE16Decodes | rofsc/Program.cs:44-45 | reading back a 16-bit little-endian encoding gives the value mod 2^16 |
| Bytes.LE32Decodes | rofsc/Program.cs:34-35 | reading back a 32-bit little-endian encoding gives the value mod 2^32 |
| Bytes.PutBytes | rofsc/Program.cs:36 | a write changes exactly the bytes it covers, grows the stream only as far as its end, and leaves zeros in any gap past the old end |
| Tree.GetRecursiveDirCount | rofsc/Program.cs:234-244 | the loop returns the number of directories strictly below d, the recursive definition |
| Tree.RecursiveDirCountIsSpan | rofsc/Program.cs:165-172 | the directories below d are exactly the identifiers its children's subtrees take, one each plus each child's own count |
| Tree.ChildOffsetBounds | rofsc/Program.cs:172 | the next child's slot j is the previous one's plus 1 plus its recursive count, and stays within the siblings' range |
| Tree.PreorderLength | rofsc/Program.cs:133-197 | a directory numbered id and the directories below it take 1 + its recursive count identifiers |
| Tree.SiblingRange | rofsc/Program.cs:144-172 | the m-th child's subtree occupies exactly its own contiguous range of the siblings' pre-order, starting at its slot |
| Tree.ChildEntry | rofsc/Program.cs:225-228 | the m-th child's entry sits at 1 plus its offset in its parent's pre-order, with the parent's number as parent |
| Tree.PreorderParents | rofsc/Program.cs:217-221 | in a subtree's pre-order only the first entry can be the root, and every later entry's parent was numbered before it |
| Tree.FileListSize | rofsc/Program.cs:193-205 | the pre-order's file list has as many files as the tree |
| Names.NameBlockLength | rofsc/Program.cs:144-196 | a name block is 3 + the name length per subdirectory, 1 + the name length per file, and 1 for the closing zero |
| Names.NameTableAppend | rofsc/Program.cs:223-228 | the name table of two runs of directories is the first run's blocks followed by the second's, numbered on from the first |
| Names.ReadDirRecord | rofsc/Program.cs:161-163 | a subdirectory record reads back as the name and its slot j, and the rest is left unread |
| Names.ReadFileRecord | rofsc/Program.cs:191-192 | a file record with a non-empty name reads back as the name |
| Names.NameBlockRoundTrip | rofsc/Program.cs:144-196 | parsing a directory's name block gives back its subdirectory names with their slots and its file names, and leaves what follows unread |
| Capacity.SubdirCheckNone | rofsc/Program.cs:155-170 | the subdirectory loop passes iff every name is at most 0x7F bytes and the children's subtrees fit below 0xFFF |
| Capacity.FileNameCheckNone | rofsc/Program.cs:185-189 | the file loop passes iff every file name is at most 0x7F bytes |
| Capacity.NoErrorIff | rofsc/Program.cs:127-203 | a traversal runs to the end iff the last identifier stays below 0xFFF, every name fits, and the file total stays below 0xFFFF |
| Capacity.SubtreesNoErrorIff | rofsc/Program.cs:225-228 | the children's traversals run to the end iff their identifiers fit below 0xFFF, their names fit and their files stay below 0xFFFF |
| LayoutSpec.RoundUp | rofsc/Program.cs:70-74 | the result is the least multiple of m at or above x |
| LayoutSpec.RoundUpLeast | rofsc/Program.cs:58-61 | any multiple of m between x and the rounded value is the rounded value |
| TraversalSpec.TraverseError | rofsc/Program.cs:125-232 | the traversal fails exactly when one of its checks fails, with that check's error, in the order the checks run |
| TraversalSpec.TraverseEffect | rofsc/Program.cs:125-232 | a traversal that succeeds writes the name blocks and slot patches of the subtree's pre-order, ends at the block's end, advances the counter by 1 + the recursive count and appends the subtree's files |
| TraversalSpec.TraverseAllEffect | rofsc/Program.cs:225-228 | the children's traversals, one after another, write their subtrees' blocks contiguously from lastNamePos and advance the counter by the siblings' span |
| TraversalSpec.PreorderVisits | rofsc/Program.cs:133-223 | the recursive visits are the visits of the pre-order list; the table size and the file list are those of the pre-order |
| Traversal.WriteSubdirRecord | rofsc/Program.cs:161-163 | writes the length byte with 0x80, the name and j with 0xF000, and moves past them |
| Traversal.WriteSubdirRecords | rofsc/Program.cs:144-173 | stops with the first failing check; otherwise writes one record per subdirectory from lastNamePos, with consecutive slots, and moves lastNamePos past them |
| Traversal.WriteFileRecord | rofsc/Program.cs:191-192 | writes the length byte and the name, and moves past them |
| Traversal.WriteFileRecords | rofsc/Program.cs:175-195 | stops at the first name over 0x7F bytes; otherwise writes one record per file and the closing zero, and appends the files to the list |
| Traversal.WriteNameBlock | rofsc/Program.cs:144-196 | writes the directory's name block at lastNamePos, or at the position when there are no subdirectories, and leaves lastNamePos and the position at its end |
| Traversal.VisitDirectory | rofsc/Program.cs:127-223 | the visit of one directory leaves the state, or stops with the error, that the specification Visit gives |
| Traversal.WriteDirectories | rofsc/Program.cs:125-232 | the recursive traversal leaves the state, or stops with the error, that the specification Traverse gives |
| Layout.WriteHeader | rofsc/Program.cs:32-45 | writes the magic, -1, 0x20, skips 12 bytes, writes -1, -1, then slot 0: 0x8000, 0 and the directory count, and ends at 0x28 |
| Layout.ReserveTable | rofsc/Program.cs:46-51 | skips 4 bytes, then writes -1 every 4 bytes from 0x2C up to 0x8020 |
| Layout.PatchHeader | rofsc/Program.cs:58-66 | pads with zero to an even position, which becomes fileInfoPos, then patches 0xC..0x17 with fileInfoPos - 0x20, fileInfoPos and the file count times 8 |
| Layout.AlignData | rofsc/Program.cs:70-74 | the loop returns the first multiple of 16 at or after its start |
| Layout.PadData | rofsc/Program.cs:92-96 | writes one 0xFF, then 0xFF up to the next multiple of 4 |
| Layout.WriteFile | rofsc/Program.cs:87-100 | writes the file's start offset in its info entry, its contents there, the 0xFF padding and its end offset; the next file starts where the padding ends |
| Layout.WriteFiles | rofsc/Program.cs:78-105 | the first file of 0xFFFFFFFF bytes or more stops the run; otherwise it writes every file's entry and data in list order |
| Layout.FillTo | rofsc/Program.cs:107-110 | writes 0xFF from the position up to fileDataPos |
| Layout.WriteFileData | rofsc/Program.cs:68-110 | writes the info table from fileInfoPos, the data from the first multiple of 16 after it, and 0xFF between the two |
| Layout.BuildImage | rofsc/Program.cs:32-110 | the method produces exactly the image, or the error, that the specification Image gives |
| ImageLayout.FileSizeCheckNone | rofsc/Program.cs:81-85 | the file loop fails iff some file has 0xFFFFFFFF bytes or more, and only with FileTooBig |
| ImageLayout.TraverseFinal | rofsc/Program.cs:53-57 | a successful traversal leaves the pre-order's name blocks and slot patches after the reservation, at the end of the name table, with every file listed in pre-order |
| ImageLayout.ImageSuccessIff | rofsc/Program.cs:32-110 | an image is produced iff the tree is within every limit; otherwise the error is the first check that fails, in the order the builder runs them |
| ImageStages.ReservedBytes | rofsc/Program.cs:32-51 | before the traversal the stream is the header, 4 zero bytes and 0xFF up to 0x8020 |
| ImageStages.TabledBytes | rofsc/Program.cs:144-198 | after the traversal the stream ends with the name table: every block in pre-order, from 0x8020 |
| ImageStages.ImageStaged | rofsc/Program.cs:58-110 | the image is the traversal's result with the padding, the header patch, the file data and the 0xFF fill applied on top |
| ImageStages.BuiltKeeps | rofsc/Program.cs:58-110 | the writes after the traversal change nothing in the table or name table except the header fields at 0xC..0x17 |
| ImageFields.BuiltHeader | rofsc/Program.cs:32-45 | the image's first 0x28 bytes are the final header: magic, -1, 0x20, the info table's offset from 0x20, its offset, its size, -1, -1, 0x8000, 0, the directory count |
| ImageFields.BuiltNameTable | rofsc/Program.cs:144-198 | from 0x8020 the image holds the name blocks of all directories in pre-order, numbered from 1 |
| ImageFields.BuiltFile | rofsc/Program.cs:87-100 | the k-th file's info entry holds its start and end, its contents lie at the start, and 0xFF runs to the next file's start |
| ImageFields.BuiltGap | rofsc/Program.cs:107-110 | between the end of the info table and the first file's data the image holds 0xFF |
| ImageSlots.BuiltSlot | rofsc/Program.cs:207-221 | slot j of every directory but the last holds three values for directory j + 1: where its block starts, from 0x20; the files before it; and its parent's number less one, tagged with 0xF000 |
| ImageSlots.BuiltFreeSlots | rofsc/Program.cs:46-51 | the slots from the last directory's up to 0x8020 keep the reservation's 0xFF |
| ImageSlots.BuiltLoneRoot | rofsc/Program.cs:46 | when the root is the only directory, the 4 bytes skipped at 0x28 stay zero |
| TableImage.NameWritesApply | rofsc/Program.cs:144-196 | a directory's record writes put its name block down at its start |
| TableImage.EmitBlocks | rofsc/Program.cs:223 | visits chained end to end from the stream's end lay their blocks contiguously after it |
| TableImage.SlotFields | rofsc/Program.cs:207-215 | after the visits, slot j holds the start of block j + 1 from 0x20 and the file count of the first j directories |
| TableImage.SlotParent | rofsc/Program.cs:217-221 | after the visits, the last two bytes of slot j hold the tagged parent of directory j + 1 |
| TableImage.EmitAvoidsSlots | rofsc/Program.cs:210-221 | no visit writes the slot of the last directory or any slot after it |
| DataImage.DataStartNext | rofsc/Program.cs:92-98 | each file's data starts at the previous file's end plus one, rounded up to 4 |
| DataImage.DataFields | rofsc/Program.cs:78-105 | the file writes lay out every file with its entry, contents and padding |
| DataImage.DataAvoids | rofsc/Program.cs:78-105 | the file writes touch nothing outside the info table and the data section |
| DataImage.FFBounds | rofsc/Program.cs:107-110 | an 0xFF fill writes only between its two ends |
| Finding.AsWrittenAgrees | rofsc/Program.cs:53-57 | as written, a root with at least one subdirectory gives exactly the image the model describes, because line 147 moves the stream to 0x8020 before the first record; so BuiltHeader, BuiltNameTable, BuiltFile, BuiltGap, BuiltSlot and BuiltFreeSlots hold for the code as written on every such tree |
| Finding.AsWrittenLayout | rofsc/Program.cs:53-57 | as written, a root without subdirectories gets its name block at 0x28, followed by the usual tail |
| Finding.AsWrittenImage | rofsc/Program.cs:53-57 | as written, such an image is the reservation with the root's block put at 0x28, then the tail |
| Finding.TailAvoidsBelow | rofsc/Program.cs:58-110 | the writes after the traversal miss the bytes between the header fields and the name block's end |
| Finding.AsWrittenNamesInTable | rofsc/Program.cs:53 | as written, every accepted root without subdirectories has its name block at 0x28, inside the directory table |
| Finding.AsWrittenLoneRoot | rofsc/Program.cs:53 | as written, the image of a root holding one file `a` has 1, 'a', 0 at 0x28 |
| Finding.CorrectedNamesAtTable | rofsc/Program.cs:46-47 | entered at 0x8020, a root without subdirectories keeps 0x28..0x2B zero and has its name block at 0x8020 |
| Finding.CorrectedLoneRoot | rofsc/Program.cs:46-47 | corrected, the image of that root has zeros at 0x28 and 1, 'a', 0 at 0x8020 |
| Finding.AsWrittenDiffers | rofsc/Program.cs:53 | the image as written and the corrected image of that root differ |
| Finding.LoneEntries | rofsc/Program.cs:43 | a root without subdirectories is the only directory, and its files are the whole file list |
| Finding.LoneTable | rofsc/Program.cs:47 | the name table of such a root is its own block |

## Left out

- Argument handling, the input and output path checks, console messages and
  `Exit()` (lines 10-28, 112-123) are left out. A run that stops is a
  `Failure` carrying the error in place of the message. A stopped run leaves
  a partly written file; that partial output is not modelled.
- The progress percentage (lines 102-104) is floating point and does not
  affect the image, so it is left out.
- The file system is given as a `Dir` value. `Directory.GetDirectories` and
  `Directory.GetFiles` are its sequences, in listing order. `FileInfo` and
  `WriteStreamedBytesFromFile` are a file's in-memory contents.
- `EndianWriter` is not part of this model. Only the behaviour the builder
  relies on is modelled: seek, write, zero-fill past the end, and
  little-endian integers.
- `DirNode` (lines 247-256) becomes the parent's number in each pre-order
  entry. `node = node.parent` (lines 230-231) has no effect and is left out.
- Names are byte strings. With non-ASCII names, `Length` counts characters
  and not bytes; that case is not modelled.
- The `null` name checks (lines 149-153, 179-183) cannot fail for entries
  of a listing, so they are left out.
- `startIndex` is always 0 and is left out.
- The `ushort` and `int` casts do not wrap once the capacity checks pass, so
  they are written as plain arithmetic. The exceptions are the directory
  count in `Layout.BuildImage`, taken mod 2^16, and the `uint` data offsets,
  taken mod 2^32.
- Layout.BuildImage enters the traversal at 0x8020 rather than 0x28. The
  as-written entry is modelled separately, in `Finding`; the two agree on
  every root with a subdirectory (`Finding.AsWrittenAgrees`).
- Above 4 GiB the `uint` data offsets wrap, and the data overwrites
  earlier parts of the image. `Layout.BuildImage` models that wrap, but
  the byte-level lemmas below require `Fits` (the file data ends below
  4 GiB) and say nothing about larger images:
- ImageFields.BuiltHeader: requires `Fits`, as above.
- ImageFields.BuiltNameTable: requires `Fits`, as above.
- ImageFields.BuiltFile: requires `Fits`, as above.
- ImageFields.BuiltGap: requires `Fits`, as above.
- ImageSlots.BuiltSlot: requires `Fits`, as above.
- ImageSlots.BuiltFreeSlots: requires `Fits`, as above.
- ImageSlots.BuiltLoneRoot: requires `Fits`, as above.
- Finding.CorrectedNamesAtTable: requires `Fits`, as above.
- DataImage.DataFields: requires the data to end below 4 GiB (`DataLimit`), as above.
- DataImage.DataStartNext: requires the data to end below 4 GiB (`DataLimit`), as above.
- DataImage.DataAvoids: requires the data to end below 4 GiB (`DataLimit`), as above.
- Finding.TailAvoidsBelow: requires the data to end below 4 GiB (`DataLimit`), as above.
- Finding.AsWrittenNamesInTable: requires the as-written data section to
  end below 4 GiB, for the same reason.

## Findings

| source | as written | input that shows it | evidently intended | confidence | as-written member | corrected member |
|---|---|---|---|---|---|---|
| rofsc/Program.cs:53 | Main seeks 0x28 before the traversal. The traversal seeks lastNamePos (0x8020) only inside its subdirectory loop (line 147). So a root without subdirectories writes its file records and closing zero at 0x28, inside the directory table. The file-info table and file data follow right after, at 0x2C and 0x40, over the reserved 0xFF slots. Slot 0 still says the name table is at 0x8020 | a root `r` holding one empty file `a` and no subdirectory: as written, bytes 0x28..0x2A are 1, 'a', 0 | the traversal starts at `lastNamePos` = 0x8020, so every name block is in the name table and the 4 bytes at 0x28 stay zero | not executed; proved in the model | Finding.AsWrittenNamesInTable | Finding.CorrectedNamesAtTable |
