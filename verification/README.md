# Verified models of ModuOS components

Dafny models of the parts of ModuOS that carry the most state and the most arithmetic, with proofs of what those parts are
for. `dafny verify dfyconfig.toml` checks everything. Imperative code is modelled as classes, arrays and loops; each method
is proved against a specification, and the laws are proved about the specification.

**Userland heap** (`LittleEndian`, `HeapMemory`, `HeapLayout`, `UserHeap`, `HeapFacts`, `HeapRuns`, `HeapExamples`). `malloc`,
`free`, `calloc` and `realloc` work on a byte array in which the 24-byte headers lie, exactly where the C code puts them. The
invariant of class `Heap` says: headers in memory agree with the block map, blocks are pairwise disjoint and tile the bytes
obtained from `sbrk`, the list links exactly the free blocks by rising address, and everything else that ever was a header is
wiped or inside a free block. `HeapRuns.Run` lifts the single calls to whole runs of a program that remembers what it wrote, with
the kernel answering at the break or above it.

**ext2 write path** (`Ext2Bytes`, `Ext2Bitmap`, `Ext2Dir`, `Ext2Volume`, `Ext2State`, `Ext2Walk`, `Ext2Paths`, `Ext2Links`,
`Ext2Driver`, `Ext2Tree`, `Ext2Examples`). Bitmaps are packed bytes, directory blocks are 4096 bytes of chained records as in the
linked-list directory of "The Second Extended File System: Internal Layout", section 4.1, indirect tables are blocks of little-endian words.
The volume invariant `Ext2State.WF` ties bitmaps, inodes, block maps and directories together. Paths are followed as the code
does it, whatever kind of inode they reach. `Ext2Tree.Run` shows that the driver refines a finite map from paths to files and
directories, over any run, and that link counts stay right.

**6502 core and console** (`Mos6502`, `Mos6502Bits`, `Mos6502Core`, `Mos6502Facts`, `Mos6502Long`, `Mos6502Chart`,
`Mos6502Program`, `Atari2600`). The in-place processor, with the bit operations of the code, is proved equal to a step function;
the step function is proved equal to a chart of all 256 opcodes by their bit fields; stack discipline, multi-byte arithmetic and a
program of machine code that adds numbers of up to 256 bytes are proved about it. The console adds frame length and the exact timer.

**Smaller cores**: the package manifest printer and parser (`JsonSpec`, `JsonManifest`, `JsonRoundTrip`,
`JsonLayout`; white space as in section 2 of RFC 8259, five of the string escapes of its section 7), Minesweeper (`Minefield`, `Minesweeper`, for any board size and number of mines), streaming
SHA-256 (`Sha256Spec`, `Sha256`, `Sha256Bits`, `Sha256Constants`), line drawing (`DrawLine`) and the init process's respawn limiter (`Automan`).

`Basics` and `ByteBits` hold the few definitions they share.

What the proofs show about the code, where it does less than its comments or callers suggest. Each has the exact condition, and
a concrete input:

- The allocator keeps 8-byte alignment of payloads, not 16: the header is 24 bytes and the rounding is applied to header plus
  payload. `HeapExamples.Sixteen` says when a payload is on a 16-byte boundary; `OnlyEight` gives one that is not.
- Sizes above 2^64 - 16 round to 0. `malloc` then hands out a block smaller than asked for, and `calloc` clears past the end of
  it; `realloc` cuts a block to less than 56 bytes and returns it. `Malloc`, `Calloc` and `Realloc` say that this happens for just
  these sizes, `TooSmall` and `PastTheEnd` are such calls.
- Two free blocks touch after `realloc` cuts a block exactly when a free block lay behind it, and after no other call
  (`HeapRuns.Step`, `TouchAfterShrink`). After a `free` that does something, none do.
- `ext2_mkdir` writes back a parent inode it read before the entry was added. If the parent had to grow for the entry, the new
  directory is lost from it, with the blocks taken. `MkdirShows` has the exact condition, that the name fits into a block the
  parent already has; `Ext2Examples.LostDirectory` is a run in which it does not.
- Creating and unlinking a file restores the block bitmap exactly under the same condition; the block a directory grew by
  stays with it (`CreateThenUnlink`, `GrownForGood`).
- `ext2_rmdir` gives back direct blocks only, so the indirect table of a long directory stays marked used and unnamed:
  `RmdirGivesBack` and `LeakedTable`.
- Looking a path up, the code does not ask whether an inode on the way is a directory, and reads the bytes of a file as records.
  `Ext2Walk.ClearExactly` says when that makes no difference; in `ThroughAFile` it does. An operation then acts in the directory
  it was led to (`Ext2Tree.Step`).
- The text of a parent is cut to 511 bytes (`CutExactly`). A longer parent is then another one: `RefusedThere`, `MadeElsewhere`.
  An unlink or rmdir with such a parent keeps the volume sound exactly when the entry it takes out is the target's (`Unlink`,
  `Rmdir`, `CrossedUnlink`).
- The service table refuses new services exactly when 64 slots are in use, even if one of them could be reused:
  `Automan.FullTable`.
- A round trip through the manifest keeps a field exactly when it is shorter than its buffer; longer ones are cut
  (`JsonRoundTrip.RoundTrip`, `NameTooLong`).
- A manifest that stops right behind a token inside the list is accepted as far as it goes; with white space behind that token
  it is refused. Nowhere else does white space between tokens matter (`JsonLayout.ParseAlike`, `Unclosed`).
- A mkdir whose entry is lost leaves its link in the parent. Until then a directory has exactly two links and one for each live
  subdirectory (`Ext2Links.MadeStep`, `Ext2Tree.Run`); in `Ext2Examples.LostDirectory` the root has one more.

## Model

| member | source | states |
|---|---|---|
| `LittleEndian.LoadStore` | userland/libc.h:804-809 | a value stored little-endian over any number of bytes is read back, if it fits them |
| `HeapMemory.StoredHeader` | userland/libc.h:804-809 | a header written as its 24 bytes reads back as the same size, next, magic and free, and no other byte changes |
| `UserHeap.AlignUp` | userland/libc.h:815-817 | the result is a multiple of 16; rounding adds less than 16, except for the top 15 sizes, which wrap to 0 |
| `UserHeap.Heap.constructor` | userland/libc.h:813 | the empty heap satisfies the whole invariant: no block, no memory obtained, an empty list |
| `UserHeap.Heap.FindPlace` | userland/libc.h:823-827 | the place found is between the last free block below the new one and the first above it |
| `UserHeap.Heap.InsertFree` | userland/libc.h:820-830 | the list holds exactly one block more, is still linked in address order, and only header bytes changed |
| `HeapLayout.RelinkedLinks` | userland/libc.h:823-829 | linking a block in between two neighbours keeps every free block linked to the next higher one |
| `HeapLayout.UnlinkedLinks` | userland/libc.h:832-842 | taking a block out of the list keeps every other free block linked to the next higher one |
| `UserHeap.Heap.RemoveFree` | userland/libc.h:832-842 | the list without exactly that block is linked in address order; only header bytes changed |
| `HeapLayout.MergedLinks` | userland/libc.h:857-862 | merging a free block with the one behind it keeps the list linked in address order |
| `HeapLayout.AbsorbedTiles` | userland/libc.h:856-860 | the merged block and the others still tile the same bytes |
| `HeapLayout.MergedNoTouch` | userland/libc.h:855-866 | a merge leaves every earlier pair of free blocks apart |
| `UserHeap.Heap.Merge` | userland/libc.h:856-862 | after one merge the whole heap invariant holds, with one block less and only header bytes changed |
| `UserHeap.Heap.Coalesce` | userland/libc.h:850-868 | whatever was free before, no two free blocks touch afterwards; live blocks and their bytes are as before |
| `UserHeap.KernelSize` | userland/libc.h:870-878 | both overflow checks pass exactly when the rounded total holds header and payload; the total is then a multiple of 8 |
| `HeapLayout.GrownTiles` | userland/libc.h:880-887 | the new block and the old ones tile the old bytes and those the kernel gave |
| `UserHeap.Heap.RequestFromKernel` | userland/libc.h:870-889 | a new live block exactly when the checks pass and the kernel grants; otherwise nothing changes |
| `HeapLayout.SplitShape` | userland/libc.h:895-902 | the two halves of a split are apart from each other and from every other block |
| `HeapLayout.SplitTiles` | userland/libc.h:895-902 | the two halves and the other blocks tile the same bytes |
| `HeapLayout.SplitNoTouch` | userland/libc.h:891-905 | cutting a block leaves two free blocks touching exactly when a free block lies right behind it |
| `UserHeap.Heap.CutTail` | userland/libc.h:895-904 | the tail becomes a free block in the list; the invariant holds and only header bytes change |
| `UserHeap.Heap.SplitIfNeeded` | userland/libc.h:891-905 | the block shrinks to the need exactly when at least a header and 32 bytes remain; its kept bytes and all other live blocks stay |
| `UserHeap.Heap.FindFit` | userland/libc.h:911-927 | the lowest free block that is large enough, or none is; the corrupted-header exit is never taken |
| `UserHeap.Heap.Take` | userland/libc.h:916-920 | the block leaves the list and becomes live; all other live blocks keep their bytes |
| `UserHeap.Heap.Allocate` | userland/libc.h:911-933 | first fit, or fresh memory when nothing fits, or nothing; at most a header and 31 bytes too large; all live blocks keep their bytes |
| `UserHeap.Heap.Malloc` | userland/libc.h:907-934 | which block is given and when none is; the block is new, at least the aligned size, less than a header and 32 bytes larger, on an 8-byte boundary, and smaller than asked for exactly for sizes above 2^64 - 16; every other live block keeps its bytes; free blocks that did not touch still do not; a failing call changes nothing |
| `UserHeap.Heap.SpentIgnored` | userland/libc.h:936-940 | the header before a freed pointer, merged or not, no longer claims a block in use |
| `UserHeap.Heap.Free` | userland/libc.h:936-944 | exactly that block leaves the live ones, no two free blocks touch afterwards; null, foreign headers and a second free change nothing, and a freed pointer stays harmless over further frees |
| `UserHeap.CallocFits` | userland/libc.h:947-948 | the division test refuses exactly the products that do not fit 64 bits |
| `UserHeap.Heap.Write` | userland/libc.h:953 | a program that writes inside its block changes that block only |
| `UserHeap.Heap.Calloc` | userland/libc.h:946-955 | null exactly for a zero or overflowing product or when nothing fits and the kernel gives nothing; otherwise a new block of zeros, other blocks untouched, except that the clearing overruns exactly for products above 2^64 - 16 that a free block or the kernel serves |
| `UserHeap.Heap.OnFreeList` | userland/libc.h:980-989 | the scan finds the peeked header exactly when it is a free block |
| `UserHeap.Heap.Swallow` | userland/libc.h:995-1000 | the live block has grown over the free block behind it and keeps its bytes; every other live block is as before |
| `UserHeap.Heap.ResizeInPlace` | userland/libc.h:964-1004 | resized in place exactly when the block is large enough or the free block behind it makes it so; the bytes both sizes share are kept; otherwise nothing changes; the overflow exit is never taken |
| `UserHeap.Heap.CopyTo` | userland/libc.h:1009 | the larger block begins with the bytes of the smaller one; nothing else changes |
| `UserHeap.Heap.Move` | userland/libc.h:1006-1011 | the contents are in a new, large enough block and the old one is gone; it fails exactly when nothing fits and the kernel gives nothing |
| `UserHeap.Heap.Realloc` | userland/libc.h:957-1012 | the first min(old, new) bytes survive in every branch, all other blocks keep theirs, the address stays exactly when it fits in place, and it fails, leaving the block alone, exactly when nothing fits and the kernel gives nothing; the block is smaller than asked for exactly for sizes above 2^64 - 16; null and size 0 act as malloc and free; free blocks come to touch exactly when a block is cut in front of a free one |
| `HeapFacts.PayloadsApart` | userland/libc.h:907-1012 | in any heap that satisfies the invariant, payloads start on 8-byte boundaries and two of them have at least a header between them |
| `HeapFacts.WalkMeetsAll` | userland/libc.h:913-927 | following next fields from any free block meets every free block from there on once, in rising order |
| `HeapFacts.FreeListExact` | userland/libc.h:819-842 | following the list from its head gives exactly the free blocks, strictly by address, and ends |
| `HeapFacts.Conserved` | userland/libc.h:850-889 | header plus payload, summed over all blocks, is the number of bytes obtained from the kernel |
| `HeapFacts.OneBlockLeft` | userland/libc.h:844-868 | blocks that tile one stretch of memory, all free and none touching, are a single block that spans it |
| `HeapFacts.HeapLaws` | userland/libc.h:813-1012 | in every heap that satisfies the invariant: payloads aligned and a header apart, the list from its head gives exactly the free blocks by address, and the blocks add up to the bytes obtained |
| `HeapFacts.AllOne` | userland/libc.h:844-868 | a heap in one stretch with nothing live and nothing touching has one free block that spans the stretch, and the list holds just it |
| `HeapFacts.FreeLast` | userland/libc.h:936-944 | freeing the only live block of a heap in one stretch leaves one free block that spans all of it, whatever the free blocks were before |
| `HeapRuns.Step` | userland/libc.h:907-1012 | one call by a program keeps the invariant and what the program counts on in every block it holds, and succeeds exactly when a free block, the kernel or the block itself serves it; an answer at the break keeps the memory one stretch; no free blocks touch after a free of a held block, and they come to touch exactly at a shrinking realloc in front of a free block |
| `HeapRuns.Run` | userland/libc.h:907-1012 | over any sequence of malloc, calloc, realloc, free, repeated free and writes, with kernel answers at or above the break: the heap laws hold, every held block is distinct, has its room and begins with the bytes last known to be there, and every call of the run succeeds and leaves free blocks touching exactly as for a single call; with answers at the break the memory is one stretch, and when nothing is live and nothing touches it is one free block |
| `HeapExamples.Sixteen` | userland/libc.h:907-934 | a payload is on a 16-byte boundary exactly when its header is 8 off one: for fresh memory, exactly when the kernel answers 8 off one |
| `HeapExamples.OnlyEight` | userland/libc.h:907-934 | a first malloc that the kernel answers at address 16 gives a payload that is not on a 16-byte boundary |
| `HeapExamples.TooSmall` | userland/libc.h:815-817 | malloc of 2^64 - 1 bytes succeeds with a smaller block |
| `HeapExamples.PastTheEnd` | userland/libc.h:946-955 | calloc of 2^64 - 1 bytes overruns its block |
| `HeapExamples.TouchAfterShrink` | userland/libc.h:964-968 | two mallocs, a free of the second and a realloc of the first to a smaller size leave two free blocks touching |
| `Ext2Bitmap.BitSet` | modules/ext2_sqrm.c:1415-1420 | setting a bit in the packed bytes adds exactly that number to the marked set |
| `Ext2Bitmap.BitCleared` | modules/ext2_sqrm.c:662-678 | clearing a bit in the packed bytes removes exactly that number from the marked set |
| `Ext2Bitmap.TakeBit` | modules/ext2_sqrm.c:1433-1445 | the lowest clear bit of the range is set, or every bit of the range was set and nothing changes |
| `Ext2Bitmap.MarkRange` | modules/ext2_sqrm.c:1600-1609 | exactly the numbers of the range are added |
| `Ext2Driver.Volume.AllocBlock` | modules/ext2_sqrm.c:1422-1446 | the lowest free block becomes used, or all are used |
| `Ext2Driver.Volume.FreeBlock` | modules/ext2_sqrm.c:662-678 | exactly that block becomes free |
| `Ext2Driver.Volume.AllocInode` | modules/ext2_sqrm.c:1448-1474 | the lowest free inode above 11 becomes used, or none is free |
| `Ext2Driver.Volume.FreeInode` | modules/ext2_sqrm.c:680-697 | exactly that inode becomes free |
| `Ext2Volume.TableSet` | modules/ext2_sqrm.c:1483-1502 | after one entry of a zeroed or existing indirect table is written, every logical block but that one is where it was |
| `Ext2Driver.Volume.SetBlockPtr` | modules/ext2_sqrm.c:1476-1505 | one logical block is remapped and all others stay; a table is taken only when the first indirect block is set; failure changes nothing and means the map or the volume is full |
| `Ext2Driver.Volume.FreeBlocks` | modules/ext2_sqrm.c:1022-1046 | exactly the blocks the inode names become free: direct ones, those in the table, and the table |
| `Ext2Driver.Volume.ReadInodeData` | modules/ext2_sqrm.c:413-447 | the block-by-block copy gives the file contents from the offset on, cut at the size asked for and at the end of the file, with holes as zeros |
| `Ext2Volume.NamedTaken` | modules/ext2_sqrm.c:1238-1250 | the blocks taken while a file grows are exactly those its inode names at the end, and all of them were free |
| `Ext2Volume.FilledContent` | modules/ext2_sqrm.c:1244-1256 | an inode whose blocks hold the zero-padded chunks of a byte string, with that size, has that string as contents |
| `Ext2Driver.Volume.WriteData` | modules/ext2_sqrm.c:1230-1252 | every chunk is in its own freshly taken block, nothing else on the disk changes, and just the blocks for the data and its table are taken; it fails only when the string is too long or the volume had fewer free blocks than that |
| `Ext2Dir.MinLen` | modules/ext2_sqrm.c:741-743 | the length is at least header plus name and wastes less than four bytes |
| `Ext2Dir.WrittenAt` | modules/ext2_sqrm.c:793-798 | a record written into a block reads back as that record and the bytes around it stay |
| `Ext2Dir.ReuseGains` | modules/ext2_sqrm.c:790-815 | filling a free record, whole or with a free rest, keeps the block partitioned and adds exactly one entry, of the given file type |
| `Ext2Dir.ShareGains` | modules/ext2_sqrm.c:817-835 | splitting the slack of a live record keeps the block partitioned and adds exactly one entry, of the given file type |
| `Ext2Dir.RemoveLoses` | modules/ext2_sqrm.c:903-907 | marking a record free keeps the block partitioned and takes exactly its entry away |
| `Ext2Dir.RoomLeft` | modules/ext2_sqrm.c:741-743 | what the live records of a block need never exceeds their lengths, and room for one more means that it still fits |
| `Ext2Dir.LookupInBlock` | modules/ext2_sqrm.c:478-495 | the loop over any 4096 bytes, directory or not, compares names as NUL-terminated strings and ends at a zero length |
| `Ext2Dir.ScanIsFind` | modules/ext2_sqrm.c:478-495 | in a directory block that loop gives the inode of the first live record of the name, or none has it |
| `Ext2Dir.FindRoom` | modules/ext2_sqrm.c:785-841 | the first record with room is found, exactly when the block has one |
| `Ext2Dir.AddToBlock` | modules/ext2_sqrm.c:785-841 | the entry is added exactly when some record has room for it; the block stays a directory block with one entry more, of the given file type, and the same answers for other names |
| `Ext2Dir.RemoveFromBlock` | modules/ext2_sqrm.c:899-911 | the entry is taken out exactly when the name is there; the block stays a directory block and other names keep their answers |
| `Ext2Dir.OnlyDotsFind` | modules/ext2_sqrm.c:1139-1151 | the emptiness scan succeeds exactly when no name but the two dots would be found |
| `Ext2Dir.EmptyInBlock` | modules/ext2_sqrm.c:1139-1151 | the scan of one block answers whether it holds only the dot entries |
| `Ext2Dir.DotsBlock` | modules/ext2_sqrm.c:992-1010 | the block of a new directory parses as exactly its two dot records |
| `Ext2Dir.RootBlock` | modules/ext2_sqrm.c:1678-1700 | the root block of a new volume parses as the two dot records and lost+found |
| `Ext2Driver.Volume.LookupInDir` | modules/ext2_sqrm.c:467-500 | the lookup over all blocks of any inode, whatever its kind: the first block in which the loop does not miss decides |
| `Ext2Volume.LookIsLookup` | modules/ext2_sqrm.c:467-500 | for a directory that is the inode its entries give for the name |
| `Ext2Driver.Volume.AddInPlace` | modules/ext2_sqrm.c:776-842 | the entry goes into an existing block exactly when some record has room; no block or inode bit changes |
| `Ext2Driver.Volume.AddInNewBlock` | modules/ext2_sqrm.c:844-875 | the directory grows by one block holding only the new entry; failure leaves every file and directory as it was and means that the directory has all its blocks or the volume had too few free ones for it to grow |
| `Ext2Driver.Volume.DirAddEntry` | modules/ext2_sqrm.c:755-876 | one entry more, of the given file type, and the rest of the volume unchanged; the directory keeps its mode and its link count; it fails only for a non-directory, an existing name, or without room when the directory cannot grow |
| `Ext2Driver.Volume.DirRemoveEntry` | modules/ext2_sqrm.c:878-916 | succeeds exactly when the name is there and takes just that entry away |
| `Ext2State.RoomInside` | modules/ext2_sqrm.c:755-876 | the live entries of a directory fit into its blocks, and one more for which there is room does, too |
| `Ext2State.AddedSays` | modules/ext2_sqrm.c:755-876 | after an entry is added, the new name leads to the new inode and every other name to what it did |
| `Ext2State.LostSays` | modules/ext2_sqrm.c:878-916 | after an entry is removed, its name leads nowhere and every other name to what it did |
| `Ext2State.KeptSays` | modules/ext2_sqrm.c:755-1261 | an inode whose blocks an operation leaves alone still has the same contents, directory entries and lookups |
| `Ext2State.FreedOk` | modules/ext2_sqrm.c:1210-1217 | giving back an inode and its blocks keeps the volume invariant and every other inode |
| `Ext2State.FilePut` | modules/ext2_sqrm.c:1230-1258 | writing the inode of a freshly grown file keeps the volume invariant and every other inode |
| `Ext2State.EntryAdded` | modules/ext2_sqrm.c:790-835 | rewriting one directory block with one entry more keeps the volume invariant and every other inode |
| `Ext2State.EntryAppended` | modules/ext2_sqrm.c:844-875 | a directory longer by one block with one entry keeps the volume invariant and every other inode, also when the block needs a new table |
| `Ext2State.EntryRemoved` | modules/ext2_sqrm.c:903-907 | taking the entry out keeps the volume invariant and leaves the inode without a name |
| `Ext2State.NewDirOk` | modules/ext2_sqrm.c:980-1013 | the inode and block of a new directory keep the volume invariant and every other inode |
| `Ext2State.PinBack` | modules/ext2_sqrm.c:1015-1017 | writing the old parent inode back keeps the volume invariant, and the new name survives it exactly when the entry fitted into a block the parent already had |
| `Ext2Driver.Volume.Overwrite` | modules/ext2_sqrm.c:1204-1258 | the file holds the new bytes with the mode and links it had and the sectors of its blocks; its old blocks are given back and exactly those it now names are taken, as many as the bytes need; every other inode stays; it fails only for a too long string or when the free blocks and those given back are too few |
| `Ext2Driver.Volume.Create` | modules/ext2_sqrm.c:1219-1258 | a new inode of mode 0100644 with one link, the sectors of its blocks and the bytes, named in the directory by a record of type 1; block bits differ by just its own blocks exactly when the entry fitted into an existing directory block; it fails only for a name that is there, a too long string, no free inode, no room in a directory that cannot grow, or fewer free blocks than data, table and growth need |
| `Ext2Walk.WalkLast` | modules/ext2_sqrm.c:502-566 | resolving a path is resolving its parent and looking the last component up |
| `Ext2Paths.LeafWalk` | modules/ext2_sqrm.c:502-566 | adding one entry for an inode without entries changes no path but those that now lead to it |
| `Ext2Driver.Volume.ResolvePath` | modules/ext2_sqrm.c:502-566 | component by component, the inode the lookups of the code lead to, through any kind of inode; or none; or a mark that they leave the volume |
| `Ext2Walk.ClearExactly` | modules/ext2_sqrm.c:467-566 | for a path and all its prefixes, the lookups of the code lead where the entries of directories lead, exactly when no proper prefix leads to a file in whose bytes the next component is found |
| `Ext2Walk.ClearIf` | modules/ext2_sqrm.c:502-566 | a path whose parent is a directory is such a path |
| `Ext2Walk.CutExactly` | modules/ext2_sqrm.c:934-942 | the text of a parent is cut exactly when it is longer than its buffer |
| `Ext2Walk.StraightOn` | modules/ext2_sqrm.c:918-948 | for a path of that kind whose parent has a text of at most 511 bytes, the code finds the inode the path leads to and that of its parent |
| `Ext2Walk.LedByParent` | modules/ext2_sqrm.c:918-948 | if such a text leads to a directory, through a file or not, the path is looked up in that directory |
| `Ext2Paths.StraightRefusals` | modules/ext2_sqrm.c:950-1200 | on such a path a write is refused exactly for a bad parent or a target that is no file, a mkdir exactly for a bad parent or an existing target |
| `Ext2Driver.Volume.WriteFile` | modules/ext2_sqrm.c:1178-1261 | for strings up to 1036 blocks, in what the code takes for the parent: the named file, new or not, holds exactly these bytes and no other file, directory or entry changes; where the path is straight, the path leads to it and only that path changes; the bitmaps change by what the file names; refused, with nothing changed, exactly for a parent that is no directory, a target that is no file, or the root; it fails otherwise only for a too long string, a name that is there, or a volume without the inode, blocks or room needed |
| `Ext2Driver.Volume.ReadFile` | modules/ext2_sqrm.c:593-605 | succeeds exactly when the lookups of the code lead to a regular file, and gives its contents up to the buffer size; on a clear path that is the file the path leads to |
| `Ext2Driver.Volume.Unlink` | modules/ext2_sqrm.c:1048-1096 | succeeds exactly when what the code takes for the parent has the name and the target is no directory; the entry, inode and blocks are gone, unless the entry was not the target's, which is exactly when the volume is no longer sound; on a straight path exactly that path is gone; otherwise nothing changes |
| `Ext2Driver.Volume.MakeDir` | modules/ext2_sqrm.c:967-1019 | the new directory has mode 040755, two links and one block with only its dot entries; the parent's inode is the one it was with just one link more; the name can be looked up, by a record of type 2, exactly when it fitted into an existing block of the parent; otherwise the blocks taken for the parent stay used as well |
| `Ext2Driver.Volume.Mkdir` | modules/ext2_sqrm.c:950-1020 | in what the code takes for the parent, which has one link more and is otherwise the inode it was, an empty directory of two links, found there exactly when its entry fitted into an existing block; on a straight path it is at the path exactly then, and every resolvable path stays; the block bitmap gains one block, and one or two more when the parent grew; refused, with nothing changed, exactly for an existing target or a parent that is no directory; it fails otherwise only for a name that is there or a volume without the inode, blocks or room needed |
| `Ext2Driver.Volume.DirIsEmpty` | modules/ext2_sqrm.c:1127-1156 | the scan answers whether the directory has a name other than the two dots |
| `Ext2Driver.Volume.Rmdir` | modules/ext2_sqrm.c:1098-1176 | succeeds exactly when what the code takes for the parent has the name and the target is an empty directory; entry, inode and direct blocks are gone, unless the entry was not the target's, which is exactly when the volume is no longer sound; the parent's inode is the one it was with one link less, but not less than two; on a straight path exactly that path is gone; otherwise nothing changes |
| `Ext2Paths.NotCrossed` | modules/ext2_sqrm.c:918-948 | with a parent of at most 511 bytes the entry is always the target's |
| `Ext2Paths.Dangling` | modules/ext2_sqrm.c:1048-1096 | if it is not, the target's inode is free and still has its entry |
| `Ext2Driver.FormatBitmaps` | modules/ext2_sqrm.c:1596-1609 | exactly the 14 first blocks, the 11 reserved inodes and the padding are marked |
| `Ext2Driver.Volume.Mkfs` | modules/ext2_sqrm.c:1507-1720 | a fresh volume of any size from 32 to 32768 blocks satisfies the volume invariant and holds only the root and lost+found |
| `Ext2Links.NewLinked` | modules/ext2_sqrm.c:1655-1668 | on a new volume the root has three links and lost+found two: two, and one for each live subdirectory |
| `Ext2Links.CountsElse` | modules/ext2_sqrm.c:755-1176 | when only entries for one inode come or go, the live subdirectories of every other directory, and the directories whose .. leads to it, change by just that inode |
| `Ext2Links.MadeStep` | modules/ext2_sqrm.c:967-1019 | after a mkdir every directory still has at least two links and one for each live subdirectory, and at most one more for each directory whose .. leads to it; if it was exactly two plus the live subdirectories before, it is so after exactly when the entry fitted, and one more otherwise |
| `Ext2Links.RemovedStep` | modules/ext2_sqrm.c:1158-1174 | an rmdir keeps all these counts: the link it takes from the parent is the one the directory had given it |
| `Ext2Links.CreatedStep` | modules/ext2_sqrm.c:1219-1258 | creating a file keeps all these counts |
| `Ext2Links.OverwrittenStep` | modules/ext2_sqrm.c:1204-1258 | overwriting a file keeps all these counts |
| `Ext2Links.UnlinkedStep` | modules/ext2_sqrm.c:1048-1096 | unlinking a file keeps all these counts |
| `Ext2Links.LinkedProbed` | modules/ext2_sqrm.c:290-295 | such a volume passes the driver's probe: inode 2 is a directory with at least two links |
| `Ext2Links.LinksFit` | modules/ext2_sqrm.c:1015-1016 | no link count exceeds 259, so the 16-bit field never wraps |
| `Ext2Tree.NamedOnce` | modules/ext2_sqrm.c:1422-1505 | in every volume that satisfies the invariant, a block named by a direct field, an indirect table or the table field is a used data block and named nowhere else |
| `Ext2Tree.OnePath` | modules/ext2_sqrm.c:502-566 | no two paths without dot components lead through the entries of directories to the same inode |
| `Ext2Tree.OneClearPath` | modules/ext2_sqrm.c:502-566 | nor do two such paths take the code to the same inode, if no file on the way holds their next component |
| `Ext2Tree.WriteShows` | modules/ext2_sqrm.c:1178-1261 | a successful write changes the tree seen through paths at its own path only |
| `Ext2Tree.UnlinkShows` | modules/ext2_sqrm.c:1048-1096 | a successful unlink removes just its path from the tree |
| `Ext2Tree.MkdirShows` | modules/ext2_sqrm.c:950-1020 | a successful mkdir adds a directory at its path, or nothing when the parent had to grow; all else stays |
| `Ext2Tree.RmdirShows` | modules/ext2_sqrm.c:1098-1176 | a successful rmdir removes just its path from the tree |
| `Ext2Tree.WriteThenRead` | modules/ext2_sqrm.c:1178-1261 | on a straight path, what is read after a successful write is what was written, up to the buffer size, and the write fails only for a stated reason |
| `Ext2Tree.CreateThenUnlink` | modules/ext2_sqrm.c:1048-1261 | on a straight path, creating a file of any size and unlinking it restores the inode bitmap and every directory lookup; the block bitmap is restored exactly when the entry fitted into an existing directory block |
| `Ext2Tree.MkdirThenRmdir` | modules/ext2_sqrm.c:950-1176 | making a directory on a straight path and removing it: the removal works exactly when the entry fitted into an existing parent block, and then both bitmaps and every lookup are as before; otherwise inode and blocks stay used |
| `Ext2Tree.RmdirGivesBack` | modules/ext2_sqrm.c:1158-1174 | rmdir gives back all the blocks the directory names exactly when it has no indirect table; a table stays marked used |
| `Ext2Tree.SpotIs` | modules/ext2_sqrm.c:918-1261 | on a straight path an operation acts at that path |
| `Ext2Tree.WriteActs` | modules/ext2_sqrm.c:1178-1261 | a write acts on the tree at its name in the directory the code takes for the parent, through whatever the path led there; not at all if no path leads to that directory |
| `Ext2Tree.MkdirActs` | modules/ext2_sqrm.c:950-1020 | a mkdir acts there when its entry fitted into an existing block, and not at all otherwise |
| `Ext2Tree.UnlinkActs` | modules/ext2_sqrm.c:1048-1096 | an unlink acts there |
| `Ext2Tree.RmdirActs` | modules/ext2_sqrm.c:1098-1176 | an rmdir acts there |
| `Ext2Tree.Step` | modules/ext2_sqrm.c:918-1261 | for any path whose parent has a text of at most 511 bytes, one operation does to the volume what the matching map update, at the place where it acts, does to the tree, and keeps the link counts; or it is refused for a stated reason and changes nothing; or the volume lacked the space before the call |
| `Ext2Tree.Run` | modules/ext2_sqrm.c:918-1720 | from mkfs through any sequence of writes, unlinks, mkdirs and rmdirs with such paths, through files or not, every volume passed through satisfies the invariant, passes the driver's probe and shows exactly the tree computed from the operations before it; every directory has at least two links and one for each live subdirectory, and exactly that many while the entry of every mkdir fitted; refused operations change nothing and the run goes on; it ends early only for lack of space, or at a path that leads out of the volume |
| `Ext2Examples.LostDirectory` | modules/ext2_sqrm.c:1015-1017 | from mkfs, on a volume of any size, one of the first 16 mkdirs with 255-byte names in the root succeeds and its path leads nowhere, while the root keeps one link more than its live subdirectories account for |
| `Ext2Examples.GrownForGood` | modules/ext2_sqrm.c:1048-1261 | after that an empty file can be created in the root and unlinked, and the block bitmap is not as before |
| `Ext2Examples.LeakedTable` | modules/ext2_sqrm.c:1158-1174 | from mkfs: 195 files with long names are created in a directory and unlinked; rmdir of the directory succeeds and its indirect table is still marked used |
| `Ext2Examples.ThroughAFile` | modules/ext2_sqrm.c:467-566 | from mkfs: a file f with the bytes of a record x for the root; writing f/x/y succeeds and makes y in the root, though nothing is at f/x |
| `Ext2Examples.RefusedThere` | modules/ext2_sqrm.c:934-942 | from mkfs: two nested directories with 255-byte names are there, and a file in the inner one is refused |
| `Ext2Examples.MadeElsewhere` | modules/ext2_sqrm.c:934-942 | from mkfs: the inner directory has a name one byte shorter than that in the path; the write succeeds, makes the file there, and reading the path fails |
| `Ext2Examples.CrossedUnlink` | modules/ext2_sqrm.c:1048-1096 | from mkfs: a run after which an unlink with a longer parent succeeds and leaves a volume that is not sound |
| `Mos6502.FlagsRoundTrip` | userland/emu6502.c:9-17 | packing the eight flags into the status byte and unpacking gives the same flags |
| `Mos6502.PulledPushed` | userland/emu6502.c:232-233 | a status pushed with B and U set and pulled with B clear and U set is unchanged, if U was set and B clear |
| `Mos6502.Cycles` | userland/emu6502.c:142-148 | every one of the instructions costs 2 to 7 cycles |
| `Mos6502Bits.OverflowBit` | userland/emu6502.c:96 | the bit test for overflow holds exactly when both operands have a sign other than that of the result |
| `Mos6502Bits.Inverted` | userland/emu6502.c:101-103 | the inverted bits of v are 255 - v |
| `Mos6502Bits.ShiftedLeft` | userland/emu6502.c:105-124 | shifting left, and setting the low bit, as arithmetic modulo 256 |
| `Mos6502Bits.ShiftedRight` | userland/emu6502.c:111-130 | shifting right, and setting the high bit, as halving |
| `Mos6502Bits.Shift` | userland/emu6502.c:105-130 | each of the four bit operations gives the doubled or halved byte with the carry moved in, and the bit that goes out |
| `Mos6502Core.Core.Push8` | userland/emu6502.c:27-30 | one byte on the page-1 stack, the stack index wrapping |
| `Mos6502Core.Core.Pop8` | userland/emu6502.c:31-34 | the byte above the stack index, the index wrapping |
| `Mos6502Core.Core.Effective` | userland/emu6502.c:68-85 | the address each mode computes, with zero-page and 16-bit wrap-around, and how far it advances |
| `Mos6502Core.Core.AdcBin` | userland/emu6502.c:90-99 | the sum with its carry and the test of the two exclusive-ors leave the specified accumulator and flags: wrapped sum, carry out, and V exactly when both operands have the other sign than the result |
| `Mos6502Core.Core.SbcBin` | userland/emu6502.c:101-103 | adding the inverted bits is subtraction with borrow, flags included |
| `Mos6502Core.Core.Shifted` | userland/emu6502.c:105-130 | the shifts and rotates, by bit operations, are the doubling and halving of the specification with the carry moved in and out |
| `Mos6502Core.Core.ExecCall` | userland/emu6502.c:211-384 | JSR, RTS, BRK and RTI by single pushes and pulls have the specified effect on stack, flags and program counter |
| `Mos6502Core.Core.ExecStack` | userland/emu6502.c:230-233 | PHA, PLA, PHP and PLP have the specified effect |
| `Mos6502Core.Core.Step` | userland/emu6502.c:150-394 | fetching, decoding and executing in place is the step of the specification, for every opcode, and takes 2 to 7 cycles; `Mos6502Chart.StepIsChart` says by the bits of the opcode what that step is |
| `Mos6502Facts.RunSettled` | userland/emu6502.c:55-63 | over any run of any program, U stays set and B clear in the status |
| `Mos6502Facts.RunCycles` | userland/emu6502.c:143-394 | n steps of any program take between 2n and 7n cycles |
| `Mos6502Facts.Balanced` | userland/emu6502.c:211-233 | any well-bracketed sequence of at most 256 bytes depth without other page-1 writes restores the stack index and the stack above it |
| `Mos6502Facts.Pairwise` | userland/emu6502.c:364-384 | what was pushed comes back: A after PLA, the status after PLP and RTI, the address behind the JSR after RTS, the pushed address after RTI |
| `Mos6502Facts.FollowSteps` | userland/emu6502.c:150-394 | a bracketed sequence is a run of as many single steps |
| `Mos6502Facts.PairSteps` | userland/emu6502.c:211-384 | a call or push, anything well bracketed, and the matching return or pull, counted in single steps: stack index and saved value are back |
| `Mos6502Facts.RunSteps` | userland/emu6502.c:150-394 | the processor, stepped n times in place, is in the state the step function gives after n steps |
| `Mos6502Facts.RunBracketed` | userland/emu6502.c:150-394 | the processor run over a well-bracketed program leaves the stack index and the stack above it as they were |
| `Mos6502Facts.RunPair` | userland/emu6502.c:211-384 | the processor run over a pair gives back what was saved: A, status, or the address to go on at |
| `Mos6502Facts.PowerOn` | userland/emu6502.c:50-63 | from power-on over any memory, n steps of the processor keep U set and B clear and take 2n to 7n cycles |
| `Mos6502Long.SignedIs` | userland/emu6502.c:90-99 | the signed reading of n bytes is the two's complement of the unsigned one |
| `Mos6502Long.SumLong` | userland/emu6502.c:90-99 | adding n-byte numbers byte by byte gives their sum modulo 256^n, with the true carry |
| `Mos6502Long.OverflowLong` | userland/emu6502.c:90-99 | V after the last byte is set exactly on two's-complement overflow of the n-byte sum |
| `Mos6502Long.DifferenceLong` | userland/emu6502.c:101-103 | subtracting byte by byte gives the difference modulo 256^n; carry is set exactly when there is no borrow |
| `Mos6502Long.SubOverflowLong` | userland/emu6502.c:101-103 | V after the last byte is set exactly on two's-complement overflow of the n-byte difference |
| `Mos6502Long.AddNumbers` | userland/emu6502.c:90-99 | running the processor's own addition over the bytes computes that fold |
| `Mos6502Long.SubNumbers` | userland/emu6502.c:101-103 | running the processor's own subtraction over the bytes computes that fold of subtractions |
| `Mos6502Chart.Ands` | userland/emu6502.c:263-270 | AND works digit by digit on the binary digits of the two bytes |
| `Mos6502Chart.Ors` | userland/emu6502.c:272-279 | ORA works digit by digit |
| `Mos6502Chart.Xors` | userland/emu6502.c:281-288 | EOR works digit by digit |
| `Mos6502Chart.Adds` | userland/emu6502.c:90-99 | ADC is the sum with carry modulo 256, C the carry, V set exactly when the sum of the signed bytes and the carry is outside -128 to 127 |
| `Mos6502Chart.Takes` | userland/emu6502.c:101-103 | SBC is the difference less the borrow modulo 256, C set exactly without a borrow, V exactly when the signed difference is out of range |
| `Mos6502Chart.Compares` | userland/emu6502.c:310-325 | a comparison sets C, Z and N as the difference modulo 256 says |
| `Mos6502Chart.StatusIs` | userland/emu6502.c:232 | the status byte on the stack is N V 1 1 D I Z C, from bit 7 down |
| `Mos6502Chart.FromStatusIs` | userland/emu6502.c:233 | a pulled status byte gives the flags of those bits, with U set and B clear |
| `Mos6502Chart.PlaceOf1` | userland/emu6502.c:68-85 | the addresses of the eight modes, by the middle three bits of the opcode and remainders modulo 256 and 65536 |
| `Mos6502Chart.Decode1` | userland/emu6502.c:156-317 | opcodes ending in 01: the top three bits choose OR, AND, XOR, ADC, STA, LDA, CMP or SBC, the next three the mode |
| `Mos6502Chart.Chart1` | userland/emu6502.c:156-317 | what a step does on each of these 64 opcodes, in registers, flags, memory, program counter and cycles |
| `Mos6502Chart.Chart2` | userland/emu6502.c:165-361 | the same for the shifts, counts and X register of the group ending in 10 |
| `Mos6502Chart.Chart0` | userland/emu6502.c:171-329 | the same for BIT, the Y register and the comparisons of the group ending in 00 |
| `Mos6502Chart.ChartBranch` | userland/emu6502.c:291-298 | branches: bits 7 and 6 choose N, V, C or Z and bit 5 the value at which the program goes on at the signed distance from the next instruction |
| `Mos6502Chart.ChartFlow` | userland/emu6502.c:209-384 | jumps, with the page wrap of the indirect one, calls, returns, BRK and RTI: which bytes go to the stack and where the program goes on |
| `Mos6502Chart.ChartOther` | userland/emu6502.c:195-394 | the one-byte opcodes on registers, flags and stack, and the opcodes that only take two cycles |
| `Mos6502Chart.StepIsChart` | userland/emu6502.c:150-394 | on every state and every opcode, the step is what a chart of the opcode's bits says, written with signed numbers and remainders and without the decoder |
| `Mos6502Chart.StepByChart` | userland/emu6502.c:150-394 | so is the step of the processor itself |
| `Mos6502Program.RoundAgain` | userland/emu6502.c:150-394 | one round of the loop LDA, ADC, STA, INX, DEY, BNE in memory adds one more byte with its carry |
| `Mos6502Program.Sums` | userland/emu6502.c:150-394 | the bytes 18 BD .. .. 7D .. .. 9D .. .. E8 88 D0 F3, anywhere in memory: after 6n + 1 steps the n bytes of the result and the carry are the sum of the two n-byte numbers, for n from 1 to 256, nothing else is written, and 19n + 2 cycles are gone |
| `Mos6502Program.AddInMemory` | userland/emu6502.c:150-394 | the processor, run in place on that program, leaves that sum in memory |
| `Mos6502Program.CompareAndBranch` | userland/emu6502.c:291-317 | CMP in any mode and then BEQ, BCC or BCS: the branch is taken exactly when the bytes are equal, the accumulator is less, or it is not less |
| `Mos6502Program.RunCompare` | userland/emu6502.c:291-317 | so it is on the processor run in place |
| `Atari2600.Console.UpdateTimer` | userland/lib_a2600.c:25-43 | the timer is what it was less the whole intervals since the last count, stopped at 0; underflow is set exactly when one of them takes it to 0; over any polls since the load it shows the loaded value less the sum of the whole intervals each of them found, stopped at 0 |
| `Atari2600.PassedIs` | userland/lib_a2600.c:29-30 | the quotient is the number of times the interval fits into the cycles |
| `Atari2600.Console.Rate` | userland/lib_a2600.c:25-43 | since the load the timer has lost at most one per interval and, while it runs, at least one per interval plus six cycles |
| `Atari2600.TicksRate` | userland/lib_a2600.c:25-43 | the same of any polls that come at least every interval and six cycles |
| `Atari2600.EveryCycle` | userland/lib_a2600.c:25-43 | with an interval of one cycle no cycle is lost, however the timer is polled |
| `Atari2600.Console.Write` | userland/lib_a2600.c:287-304 | the four timer registers load the timer and choose its interval; other registers leave it alone |
| `Atari2600.Console.Serve` | userland/lib_a2600.c:280-304 | of the accesses of a step, the last write to a timer register decides value, interval and start |
| `Atari2600.Console.Step` | userland/lib_a2600.c:110-120 | polled before each step, the timer stays exact and within its bounds for any opcode and any timer accesses; the last write to a timer register decides value and interval |
| `Atari2600.Console.StepFrame` | userland/lib_a2600.c:101-130 | for any program the frame ends without the fault exit, 23712 to 23718 cycles after its start, at the first step past 23712; the cycles are those of its opcodes and the timer was last loaded by the last of its writes |
| `Minefield.CountsNeighbours` | userland/minesgfx.c:346-354 | the nine-step count is the number of marked cells next to the cell |
| `Minefield.SameAround` | userland/minesgfx.c:425-426 | if all marked neighbours are mines and both counts agree, all mines around are marked |
| `Minefield.ReachSafe` | userland/minesgfx.c:375-395 | from a safe start, passing only cells with no mine around reaches no mine |
| `Minesweeper.Game.constructor` | userland/minesgfx.c:439-446 | a new board has every cell hidden and no mine |
| `Minesweeper.Game.ComputeAdj` | userland/minesgfx.c:342-358 | every cell gets the number of mines around it, mines get 0 |
| `Minesweeper.Game.PlaceMines` | userland/minesgfx.c:360-373 | the mines are those the draws used so far pick, never the safe cell; exactly the asked number when it finishes, with every number counted; it stops short only when the draws run out |
| `Minesweeper.Game.Reveal` | userland/minesgfx.c:375-395 | the recursion ends and reveals exactly the hidden, unflagged cells reachable from the cell through cells with no mine around; the game is lost exactly when a mine is among them |
| `Minesweeper.Game.CheckWin` | userland/minesgfx.c:397-405 | won exactly when every cell without a mine is revealed |
| `Minesweeper.Game.FlagsAround` | userland/minesgfx.c:407-418 | the number of flagged neighbours |
| `Minesweeper.Game.ChordReveal` | userland/minesgfx.c:420-437 | around a satisfied number exactly the cells reachable from some neighbour are revealed; otherwise nothing changes |
| `Minesweeper.Game.RevealSafely` | userland/minesgfx.c:375-395 | with counted numbers, revealing a cell without a mine reveals no mine and does not end the game |
| `Minesweeper.Game.ChordSafely` | userland/minesgfx.c:420-437 | a chord whose surrounding flags all sit on mines reveals no mine and does not end the game |
| `JsonManifest.SkipWs` | userland/lib_json.c:4-10 | everything passed is a space, line feed, carriage return or tab, and the character it stops at is none of them |
| `JsonManifest.ExpectChar` | userland/lib_json.c:12-17 | succeeds exactly when that character follows the white space, and then stands just before the cursor |
| `JsonManifest.ParseString` | userland/lib_json.c:19-45 | the cursor loop reads the string the grammar gives, cut to the buffer, or fails where the grammar fails |
| `JsonManifest.ParseObject` | userland/lib_json.c:75-98 | the member loop gives the package the grammar gives, for known and unknown keys and stray commas |
| `JsonManifest.ParseManifest` | userland/lib_json.c:57-107 | the whole parser is the grammar function, on every text and every limit |
| `JsonManifest.AppendStr` | userland/lib_json.c:109-116 | appends all or fails, exactly by whether text and terminator fit |
| `JsonManifest.AppendEscaped` | userland/lib_json.c:118-136 | appends the escaped text or fails, exactly by whether it fits |
| `JsonManifest.AppendPkg` | userland/lib_json.c:145-152 | one package is printed exactly when it fits |
| `JsonManifest.WriteManifest` | userland/lib_json.c:138-161 | the buffer holds the printed manifest exactly when it fits |
| `JsonRoundTrip.StringBack` | userland/lib_json.c:19-45 | an escaped string, quotes, backslashes and newlines included, is read back up to the buffer |
| `JsonRoundTrip.MemberBack` | userland/lib_json.c:79-93 | a printed member sets its field to the printed value, cut to the field |
| `JsonRoundTrip.MembersBack` | userland/lib_json.c:75-98 | a printed package is read back, each field cut to its size |
| `JsonRoundTrip.ParseRender` | userland/lib_json.c:57-161 | parsing a printed list gives the list with fields cut to size, exactly when the caller has room for all of it |
| `JsonRoundTrip.RoundTrip` | userland/lib_json.c:57-161 | the round trip gives the same packages exactly when every field fits and the caller has room |
| `JsonRoundTrip.NameTooLong` | userland/lib_json.c:57-161 | a name of 64 characters, one more than the field holds before its NUL, comes back with 63 |
| `JsonManifest.WriteThenParse` | userland/lib_json.c:57-161 | writing and parsing succeed exactly when text and list fit, and give the packages back |
| `JsonLayout.ParseAlike` | userland/lib_json.c:57-107 | for every sequence of tokens, closed strings and single characters, the result does not depend on which of the four white-space characters, and how many, stand between them |
| `JsonLayout.ManifestLay` | userland/lib_json.c:138-161 | the printed manifest is such a sequence of tokens, with the printer's own spacing |
| `JsonLayout.SpacedBack` | userland/lib_json.c:57-161 | a printed manifest with any other spacing, CR LF and tabs included, gives the same packages |
| `JsonLayout.ParseSpaced` | userland/lib_json.c:57-107 | so does the parser itself on its text |
| `JsonLayout.Unclosed` | userland/lib_json.c:75-107 | a text that stops right behind an opening brace is accepted as one package, and refused with a space behind it |
| `JsonLayout.Unescapes` | userland/lib_json.c:32-39 | of the escapes of section 7 of RFC 8259 exactly five are known: quote, backslash, n, r and t stand for quote, backslash, line feed, carriage return and tab |
| `JsonLayout.Escapes` | userland/lib_json.c:118-136 | the printer escapes exactly quote, backslash and line feed, with a backslash and a character that is read back as the one meant |
| `JsonLayout.KeyCase` | userland/lib_json.c:47-55 | keys agree exactly when they have the same length and in each place the same character or the same of the 26 letters in either case |
| `JsonLayout.KeysAlike` | userland/lib_json.c:47-93 | a key in any case sets the same field with the same limit |
| `JsonLayout.MemberAnyCase` | userland/lib_json.c:79-93 | a member whose key is written in any case is read like the one in the usual case |
| `Sha256Spec.GapIsLeast` | userland/login.c:98-106 | the number of zero bytes is the least that leaves eight bytes of a block (section 5.1.1 of FIPS 180-4) |
| `Sha256Spec.Padded` | userland/login.c:98-111 | the padded message is whole blocks |
| `Sha256Bits.RotrBit` | userland/login.c:28 | bit i of the rotation by n is bit (i + n) mod 32 |
| `Sha256Bits.ShrBit` | userland/login.c:34-35 | bit i of the shift by n is bit i + n, or clear |
| `Sha256Bits.ChooseBit` | userland/login.c:29 | each bit of the choice is y's where x's is set and z's where it is not |
| `Sha256Bits.MajorityBit` | userland/login.c:30 | each bit of the majority is set where at least two of the three are |
| `Sha256Bits.BigSigma0Bit` | userland/login.c:32 | each bit is the parity of those of the rotations by 2, 13 and 22 |
| `Sha256Bits.BigSigma1Bit` | userland/login.c:33 | the same for 6, 11 and 25 |
| `Sha256Bits.SmallSigma0Bit` | userland/login.c:34 | the same for 7 and 18 and the shift by 3 |
| `Sha256Bits.SmallSigma1Bit` | userland/login.c:35 | the same for 17 and 19 and the shift by 10 |
| `Sha256Bits.AddBit` | userland/login.c:67-80 | a sum, bit by bit: the parity of the two bits and what is carried in |
| `Sha256Bits.CarryBit` | userland/login.c:67-80 | nothing is carried into bit 0, and into any other bit what the majority one below says |
| `Sha256Bits.WordAtBit` | userland/login.c:48-50 | the bits of a word read from a block are those of its four bytes, the high byte first |
| `Sha256Bits.BytesThenWord` | userland/login.c:48-57 | the four bytes written for a word read back as the word |
| `Sha256Bits.WordThenBytes` | userland/login.c:48-57 | a word read from a block is written as the bytes it was read from |
| `Sha256Bits.OutputWords` | userland/login.c:113 | the digest is the eight words, in order |
| `Sha256Constants.FirstPrimes` | userland/login.c:37-46 | the numbers behind the constants are the first 64 primes |
| `Sha256Constants.RoundConstants` | userland/login.c:37-46 | each of the 64 constants is the first 32 binary places of the cube root of its prime (section 4.2.2 of FIPS 180-4) |
| `Sha256Constants.InitialValue` | userland/login.c:59-62 | the eight initial words are the first 32 binary places of the square roots of the first eight primes (section 5.3.3 of FIPS 180-4) |
| `Sha256Constants.OnlyRoot` | userland/login.c:37-46 | no other word has that property |
| `Sha256Constants.OnlySquareRoot` | userland/login.c:59-62 | nor do other words have that of the square roots |
| `Sha256.MakeSchedule` | userland/login.c:67-69 | the array holds the 64 words of the recursive schedule (section 6.2.2 of FIPS 180-4) |
| `Sha256.RoundStep` | userland/login.c:72-77 | eight moves one after the other are one round |
| `Sha256.BlockStep` | userland/login.c:66-80 | the loops compute the compression function (section 6.2.2 of FIPS 180-4) |
| `Sha256.Absorb` | userland/login.c:66-80 | the loops carry the hash value of some blocks to that of those blocks and one more |
| `Sha256.Stream.Update` | userland/login.c:82-96 | whatever the buffer held, the state stands for the message with the piece appended: whole blocks compressed, rest buffered, length counted |
| `Sha256.Stream.PadBuffer` | userland/login.c:99-106 | marker and zeros reach the length field with exactly the gap of the standard, in one or two blocks |
| `Sha256.Stream.WriteLength` | userland/login.c:108-110 | writing the length from the last byte back gives its eight bytes, high byte first |
| `Sha256.Stream.Final` | userland/login.c:98-114 | the hash value is that of all blocks of the padded message, each compressed by the loops of the code |
| `Sha256.LengthKept` | userland/login.c:83 | a wrapping 64-bit bit count prints the same eight bytes as an unbounded one |
| `Sha256.Feed` | userland/login.c:82-96 | the pieces given one after the other leave the state of the whole message |
| `Sha256.Sha256Of` | userland/login.c:59-114 | however a message is cut into pieces, the loops, buffer and padding of the code give the digest the standard defines for the whole message |
| `DrawLine.Advance` | userland/gfxclock.c:70-74 | one step of the loop keeps the pixel within half a pixel of the line and moves one along the longer axis |
| `DrawLine.Arrived` | userland/gfxclock.c:71 | after as many steps as the longer axis is long, the end point is reached |
| `DrawLine.OnlyOne` | userland/gfxclock.c:66-75 | at each step along the longer axis there is one pixel that close to the line, a tie included |
| `DrawLine.StepOn` | userland/gfxclock.c:72-74 | the error term and both coordinates after a step are those of the next pixel, an 8-neighbour |
| `DrawLine.Line` | userland/gfxclock.c:62-76 | for all end points: exactly max(abs(dx),abs(dy))+1 pixels, from the first point to the last, pixel k being k steps along the longer axis, each next to the one before, none more than half a pixel off the line; of two pixels just half a pixel off, the one beyond the line on the y side and the one short of it on the x side |
| `Automan.AllRecent` | userland/automan.c:140-149 | five recent times in the ring mean that the last five respawns were recent, and the other way round |
| `Automan.Recorded` | userland/automan.c:151-155 | recording a respawn that was not refused keeps the last five in the ring and any six in a row at least 30 s apart |
| `Automan.WithPid` | userland/automan.c:100-104 | the first service with that process id, and no earlier one has it |
| `Automan.FreeSlot` | userland/automan.c:117-127 | the first slot whose service is dead or done, and no earlier one is |
| `Automan.Table.Register` | userland/automan.c:112-134 | the new service, with the flags given, stopped, without a process and with an empty ring, is in the first reusable slot or behind the last, and nothing else changes; refused exactly when 64 slots are in use, reusable or not |
| `Automan.Table.RateExceeded` | userland/automan.c:140-149 | true exactly when the last five respawns all lie within the 30 s before now |
| `Automan.Table.RecordRespawn` | userland/automan.c:151-155 | the time is appended to the history and the ring still holds the last five |
| `Automan.Table.HandleExit` | userland/automan.c:190-234 | only the service of that process changes: done or crashed, dead exactly when its last five respawns are recent, respawned and recorded otherwise; the halt exactly for a critical one that dies |
| `Automan.Run` | userland/automan.c:112-234 | in every table of any run with a running clock, rings hold the last five respawns, any six in a row take at least 30 s, dead services had five within 30 s, and each table comes from the one before by its event |
| `Automan.FullTable` | userland/automan.c:112-127 | 64 services of which the first has ended: its slot could be reused, and the next service is refused |

## Left out

- Port and PCI drivers, USB, sound and graphics modules, `netman`: their correctness depends on hardware or on stubs.
- System call wrappers, formatted output, console and keyboard input, and the rest of `userland/libc.h`: foreign calls and plumbing.
- FAT16, the MDFS image tool, the ELF loader, package unpacking: read-only walks, one-off scripts, or code that rests on kernel mappings and a decompressor that are not part of this model.
- TIA rendering, palettes, fonts, window code, circles and the clock face: drawing without laws to prove.
- `sbrk` is a parameter: it refuses, or grants memory at or above the previous break on an 8-byte boundary; its signed argument is not modelled, and a header's worth of bytes past the break can be read, as the peek in `realloc` needs.
- UserHeap.Heap.Free: a pointer that was never given out, but is preceded by bytes that look like the header of a block in use, is excluded.
- UserHeap.Heap.Realloc: a pointer already freed whose header is intact, and a pointer that was never given out but is preceded by the magic number, are excluded; both are errors of the caller that the code does not detect.
- HeapRuns.Run: calls of `calloc` that overrun their block are not part of a run; `Calloc` says when they do.
- UserHeap.Heap.Calloc: for products above 2^64 - 16 the memory after the overrun is not described, only that the call ends there.
- Ext2 volumes are those of `ext2_mkfs`: one group, 4096-byte blocks, 32 to 32768 blocks, no symbolic links, no double-indirect blocks. Superblock, group descriptor and inode table are typed values, not bytes; the free counts in them are never updated by the code.
- Ext2 paths are sequences of names of 1 to 255 bytes; splitting the text at slashes and trailing slashes are not modelled.
- Ext2 reads, writes and kernel allocations always succeed; nothing is said about the disk after an operation that fails halfway for lack of space, beyond the reason it failed. A failing overwrite has already given its blocks back, a failing create or mkdir has taken an inode.
- Ext2Driver.Volume.ResolvePath: where the bytes of a file name an inode number the volume does not have, or a name that runs past the end of its block and agrees with the component as far as it goes, the code goes on with bytes that are not the volume's; the answer is then that the path leads outside.
- Ext2Driver.Volume.WriteFile: the last component is not a dot name, and the path does not lead outside; the 32-bit wrap of the block count for strings of 2^44 bytes and more is not modelled.
- Ext2Driver.Volume.ReadFile: the path does not lead outside.
- Ext2Driver.Volume.Unlink: the last component is not a dot name, and the path does not lead outside; nothing is said about the soundness of the volume when a parent is cut and the path goes through a file.
- Ext2Driver.Volume.Mkdir: the last component is not a dot name, and the path does not lead outside.
- Ext2Driver.Volume.Rmdir: the same as for Unlink; it may remove lost+found like any empty directory, as the code does, and the table of a directory of more than 12 blocks stays used, as `RmdirGivesBack` says.
- Ext2Tree.Step: paths have no dot components, and the path does not lead outside.
- Ext2Tree.Run: paths have no dot components, and the run ends at the first operation that fails for lack of space or whose path leads outside; refused operations change nothing and it goes on.
- Mos6502Program.AddInMemory: the result does not overwrite the program, nor bytes of the operands before they are read.
- Mos6502Core.Core.Step: the bus is 64 KiB of memory without side effects, the cycle count does not wrap; decimal mode and undocumented opcodes do what the code does, not what the chip does.
- Atari2600.Console.StepFrame: the processor is any stream of opcodes with any timer accesses at the start of the step's cycle; clearing the picture and the other registers of the bus are not modelled.
- Minesweeper.Game.PlaceMines: the pseudo-random positions are a finite sequence given by the caller, so that the loop ends; whether the generator ever yields enough positions is not shown.
- Sha256.Stream.Final: the bit count is unbounded, and `LengthKept` shows that its wrap changes nothing.
- DrawLine.Line: int overflow for end points far apart is ignored, and plotting is collecting points.
- Automan.Table.HandleExit: fork results, exit events and clock readings are parameters; paths, printing, the respawn delay and the counters that are only printed are not modelled.
- JsonLayout.ParseAlike: the strings of the text are closed; a text that ends inside a string is read as `ParseString` says.
- The whole text of a manifest is NUL-free fields; the C parser's integer result and the printer's are a list and a string here.
