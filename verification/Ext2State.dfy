/** The volume as one value, the invariant the driver keeps, and what single steps do to it. */
module Ext2State {
  import opened Basics
  import opened Ext2Bytes
  import opened Ext2Bitmap
  import opened Ext2Dir
  import opened Ext2Volume

  /**
   `used` and `ibits` are the bits set in the two bitmaps; `owner`, `dirs` and `parent` say which slot
   names a block, what a directory block holds and which entry names an inode.
   */
  datatype FS = FS(n: nat, used: set<nat>, ibits: set<nat>, inodes: seq<Inode>, disk: Disk,
                   owner: Owner, dirs: Dirs, parent: map<nat, (nat, Name)>)

  const ROOT: nat := 2

  ghost predicate Shape(fs: FS) {
    |fs.inodes| == INODES && |fs.disk| == fs.n && 32 <= fs.n <= BITS
  }

  ghost function Ino(fs: FS, i: nat): Inode
    requires Shape(fs) && 0 < i <= INODES
  {
    fs.inodes[i - 1]
  }

  ghost predicate IsDirAt(fs: FS, d: nat)
    requires Shape(fs)
  {
    0 < d <= INODES && IsDir(Ino(fs, d)) && Directory(fs.disk, fs.dirs, Ino(fs, d))
  }

  /** The records of directory `d`. */
  ghost function RecsOf(fs: FS, d: nat): Recs
    requires Shape(fs) && IsDirAt(fs, d)
  {
    DirRecs(fs.disk, fs.dirs, Ino(fs, d), Ino(fs, d).size / BS)
  }

  /** The inode that directory `d` gives for a name. */
  ghost function Found(fs: FS, d: nat, name: Name): Option<nat>
    requires Shape(fs)
  {
    if IsDirAt(fs, d) then Find(RecsOf(fs, d), name) else None
  }

  // ---------------------------------------------------------------- the invariant

  ghost predicate InodeOk(fs: FS, i: nat)
    requires Shape(fs) && 0 < i <= INODES
  {
    && Owns(fs.disk, Ino(fs, i), i, fs.owner)
    && (i - 1 !in fs.ibits ==> Ino(fs, i) == NoInode)
    && (IsDir(Ino(fs, i)) ==> Directory(fs.disk, fs.dirs, Ino(fs, i)))
    && (Ino(fs, i).mode == 0 || IsDir(Ino(fs, i)) || IsFile(Ino(fs, i)))
  }

  /** An entry other than `.` and `..` is the only one for its inode, which is allocated. */
  ghost predicate EntryOk(fs: FS, d: nat, name: Name)
    requires Shape(fs)
  {
    Found(fs, d, name).Some? && !Dots(name) ==> EntryFor(fs, d, name, Found(fs, d, name).value)
  }

  ghost predicate EntryFor(fs: FS, d: nat, name: Name, j: nat) {
    11 <= j <= INODES && j != d && j - 1 in fs.ibits && j in fs.parent && fs.parent[j] == (d, name)
  }

  ghost predicate InodesOk(fs: FS)
    requires Shape(fs)
  {
    forall i {:trigger InodeOk(fs, i)} | 0 < i <= INODES :: InodeOk(fs, i)
  }

  ghost predicate EntriesOk(fs: FS)
    requires Shape(fs)
  {
    forall d: nat, name {:trigger EntryOk(fs, d, name)} :: EntryOk(fs, d, name)
  }

  /** Owned, and not as a table. */
  ghost predicate DirSlot(owner: Owner, p: nat) {
    p in owner && owner[p].1 < LOGICAL
  }

  /** Only the blocks of `s` are free. */
  ghost predicate FreeWithin(fs: FS, s: set<nat>) {
    forall b: nat | b < fs.n :: b in fs.used || b in s
  }

  /** Fewer than `k` blocks are free. */
  ghost predicate Short(fs: FS, k: nat) {
    exists s: set<nat> :: FreeWithin(fs, s) && |s| < k
  }

  /** The blocks a directory takes to grow: one, and a table when it is the first behind the direct ones. */
  function Growth(ino: Inode): nat { if ino.size / BS >= 12 && ino.indirect == 0 then 2 else 1 }

  /** The blocks that `len` bytes take, with the table they may need. */
  function DataBlocks(len: nat): nat { if Blocks(len) > 12 then Blocks(len) + 1 else Blocks(len) }

  /** The volume with the blocks of inode `j` given back. */
  ghost function Emptied(fs: FS, j: nat): FS
    requires Shape(fs) && 0 < j <= INODES
  {
    fs.(used := fs.used - Named(fs.disk, Ino(fs, j)))
  }

  /** No block is free. */
  ghost predicate Full(fs: FS) {
    forall b: nat | b < fs.n :: b in fs.used
  }

  /** No inode is free but the reserved ones. */
  ghost predicate NoInodes(fs: FS) {
    forall i: nat | 11 <= i < INODES :: i in fs.ibits
  }

  /** Directory `d` has all the blocks the block map can name. */
  ghost predicate AtLimit(fs: FS, d: nat)
    requires Shape(fs)
  {
    0 < d <= INODES && Ino(fs, d).size / BS >= LOGICAL
  }

  ghost predicate BlocksOk(fs: FS) {
    && (forall b: nat | b < FIRST_DATA :: b in fs.used)
    && OwnedUsed(fs.owner, fs.used, fs.n)
    && (forall p {:trigger DirSlot(fs.owner, p)} | p in fs.dirs :: DirSlot(fs.owner, p))
    && Reads(fs.disk, fs.dirs)
  }

  ghost predicate WF(fs: FS) {
    && Shape(fs) && BlocksOk(fs) && InodesOk(fs) && EntriesOk(fs)
    && IsDir(Ino(fs, ROOT))
  }

  /** A step that leaves inode `i` and all it owns alone. */
  ghost predicate Kept(fs: FS, fs': FS, i: nat)
    requires Shape(fs) && Shape(fs') && 0 < i <= INODES
  {
    && Ino(fs', i) == Ino(fs, i) && (i - 1 in fs.ibits ==> i - 1 in fs'.ibits)
    && SameFor(fs.disk, fs'.disk, fs.owner, i)
    && SameOwner(fs.owner, fs'.owner, i)
    && SameDirs(fs.dirs, fs'.dirs, fs.owner, i)
  }

  ghost predicate SameOwner(owner: Owner, owner': Owner, i: nat) {
    forall p | p in owner && owner[p].0 == i :: p in owner' && owner'[p] == owner[p]
  }

  lemma KeptOwns(fs: FS, fs': FS, i: nat)
    requires Shape(fs) && Shape(fs') && 0 < i <= INODES && Kept(fs, fs', i) && InodeOk(fs, i)
    ensures Owns(fs'.disk, Ino(fs', i), i, fs'.owner)
  {
    var ino := Ino(fs, i);
    forall s | 0 <= s < SLOTS && Slot(fs'.disk, ino, s) != 0
      ensures Slot(fs'.disk, ino, s) in fs'.owner && fs'.owner[Slot(fs'.disk, ino, s)] == (i, s)
    {
      SlotKept(fs.disk, fs'.disk, ino, i, fs.owner, s);
    }
  }

  /** What a kept inode says stays as it was. */
  lemma KeptSays(fs: FS, fs': FS, i: nat)
    requires Shape(fs) && Shape(fs') && 0 < i <= INODES && Kept(fs, fs', i) && InodeOk(fs, i)
    ensures InodeOk(fs', i)
    ensures IsDirAt(fs', i) == IsDirAt(fs, i)
    ensures IsDirAt(fs, i) ==> RecsOf(fs', i) == RecsOf(fs, i)
    ensures forall name :: Found(fs', i, name) == Found(fs, i, name)
    ensures Content(fs'.disk, Ino(fs', i)) == Content(fs.disk, Ino(fs, i))
  {
    KeptOwns(fs, fs', i);
    ContentKept(fs.disk, fs'.disk, Ino(fs, i), i, fs.owner);
    if IsDir(Ino(fs, i)) {
      DirectoryKept(fs.disk, fs'.disk, fs.dirs, fs'.dirs, Ino(fs, i), i, fs.owner);
    }
  }

  lemma KeptThrough(fs: FS, fs1: FS, fs2: FS, i: nat)
    requires Shape(fs) && Shape(fs1) && Shape(fs2) && 0 < i <= INODES
    requires Kept(fs, fs1, i) && Kept(fs1, fs2, i)
    ensures Kept(fs, fs2, i)
  {
  }

  /** Inodes other than those in `but` are kept. */
  ghost predicate Others(fs: FS, fs': FS, but: set<nat>)
    requires Shape(fs) && Shape(fs')
  {
    forall i {:trigger Kept(fs, fs', i)} | 0 < i <= INODES && i !in but :: Kept(fs, fs', i)
  }

  lemma KeptSelf(fs: FS)
    requires Shape(fs)
    ensures Others(fs, fs, {})
  {
  }

  lemma OthersThrough(fs: FS, fs1: FS, fs2: FS, a: set<nat>, b: set<nat>)
    requires Shape(fs) && Shape(fs1) && Shape(fs2) && Others(fs, fs1, a) && Others(fs1, fs2, b)
    ensures Others(fs, fs2, a + b)
  {
    forall i | 0 < i <= INODES && i !in a + b
      ensures Kept(fs, fs2, i)
    {
      KeptThrough(fs, fs1, fs2, i);
    }
  }

  // ---------------------------------------------------------------- bits taken and given back

  lemma BlockTaken(fs: FS, b: nat)
    requires WF(fs)
    ensures var fs' := fs.(used := fs.used + {b}); WF(fs') && Others(fs, fs', {})
  {
    var fs' := fs.(used := fs.used + {b});
    forall i | 0 < i <= INODES
      ensures Kept(fs, fs', i) && InodeOk(fs', i)
    {
      assert InodeOk(fs, i);
      KeptSays(fs, fs', i);
    }
    EntriesElse(fs, fs', {}, {});
  }

  /** Writing a block that nobody owns. */
  lemma Scribbled(fs: FS, b: nat, blk: Block)
    requires WF(fs) && b < fs.n && b !in fs.owner
    ensures var fs' := fs.(disk := fs.disk[b := blk]); WF(fs') && Others(fs, fs', {})
  {
    var fs' := fs.(disk := fs.disk[b := blk]);
    forall i | 0 < i <= INODES
      ensures Kept(fs, fs', i) && InodeOk(fs', i)
    {
      assert InodeOk(fs, i);
      KeptSays(fs, fs', i);
    }
    forall p | p in fs'.dirs
      ensures Holds(fs'.disk, fs'.dirs, p) && DirSlot(fs'.owner, p)
    {
      assert Holds(fs.disk, fs.dirs, p) && DirSlot(fs.owner, p);
    }
    EntriesElse(fs, fs', {}, {});
  }

  /** The entries of kept directories stay good, as long as the inodes in `free` have none. */
  lemma EntriesElse(fs: FS, fs': FS, but: set<nat>, free: set<nat>)
    requires Shape(fs) && Shape(fs') && EntriesOk(fs) && InodesOk(fs) && Others(fs, fs', but)
    requires forall d: nat, name {:trigger EntryOk(fs', d, name)} | d in but :: EntryOk(fs', d, name)
    requires forall k {:trigger SameName(fs, fs', k)} | 0 < k <= INODES && k !in free :: SameName(fs, fs', k)
    requires forall k | k in free :: Unnamed(fs, k)
    ensures EntriesOk(fs')
  {
    forall d: nat, name
      ensures EntryOk(fs', d, name)
    {
      assert EntryOk(fs, d, name);
      if 0 < d <= INODES && d !in but {
        assert Kept(fs, fs', d) && InodeOk(fs, d);
        KeptSays(fs, fs', d);
        if Found(fs, d, name).Some? && !Dots(name) {
          assert SameName(fs, fs', Found(fs, d, name).value);
        }
      }
    }
  }

  ghost predicate SameName(fs: FS, fs': FS, k: nat) {
    (k > 0 && k - 1 in fs.ibits ==> k - 1 in fs'.ibits) && (k in fs.parent ==> k in fs'.parent && fs'.parent[k] == fs.parent[k])
  }

  lemma InodeTaken(fs: FS, j: nat)
    requires WF(fs) && 11 < j <= INODES && j - 1 !in fs.ibits
    ensures var fs' := fs.(ibits := fs.ibits + {j - 1}); WF(fs') && Others(fs, fs', {}) && Unnamed(fs', j)
  {
    var fs' := fs.(ibits := fs.ibits + {j - 1});
    forall i | 0 < i <= INODES
      ensures Kept(fs, fs', i) && InodeOk(fs', i)
    {
      assert InodeOk(fs, i);
      KeptSays(fs, fs', i);
    }
    EntriesElse(fs, fs', {}, {});
    forall d: nat, name | !Dots(name)
      ensures Found(fs', d, name) != Some(j)
    {
      assert EntryOk(fs, d, name);
      if 0 < d <= INODES {
        KeptSays(fs, fs', d);
      }
    }
  }

  /** No entry other than `.` and `..` is for inode `j`. */
  ghost predicate Unnamed(fs: FS, j: nat)
    requires Shape(fs)
  {
    forall d: nat, name {:trigger Found(fs, d, name)} | !Dots(name) :: Found(fs, d, name) != Some(j)
  }

  /** The inode names no block. */
  predicate Bare(ino: Inode) { ino.direct == NoBlocks && ino.indirect == 0 }

  lemma BareSlots(disk: Disk, ino: Inode, s: nat)
    requires Bare(ino)
    ensures Slot(disk, ino, s) == 0
  {
  }

  /** Inode `j` gives back blocks of its own and becomes `ino`, which names none. */
  ghost function Freed(fs: FS, j: nat, gone: set<nat>, ino: Inode): FS
    requires Shape(fs) && 0 < j <= INODES
  {
    fs.(used := fs.used - gone, owner := fs.owner - gone, dirs := fs.dirs - gone, inodes := fs.inodes[j - 1 := ino])
  }

  lemma FreedOk(fs: FS, j: nat, gone: set<nat>, ino: Inode)
    requires WF(fs) && 0 < j <= INODES && j != ROOT
    requires forall p | p in gone :: p in fs.owner && fs.owner[p].0 == j
    requires Bare(ino) && (ino == NoInode || IsFile(ino)) && (j - 1 !in fs.ibits ==> ino == NoInode)
    ensures WF(Freed(fs, j, gone, ino)) && Others(fs, Freed(fs, j, gone, ino), {j})
  {
    var fs' := Freed(fs, j, gone, ino);
    forall i | 0 < i <= INODES
      ensures i != j ==> Kept(fs, fs', i)
      ensures InodeOk(fs', i)
    {
      assert InodeOk(fs, i);
      if i != j {
        KeptSays(fs, fs', i);
      } else {
        forall s | 0 <= s < SLOTS ensures Slot(fs'.disk, ino, s) == 0 { BareSlots(fs'.disk, ino, s); }
      }
    }
    forall p | p in fs'.dirs
      ensures Holds(fs'.disk, fs'.dirs, p) && DirSlot(fs'.owner, p)
    {
      assert Holds(fs.disk, fs.dirs, p) && DirSlot(fs.owner, p);
    }
    forall d: nat, name | d in {j}
      ensures EntryOk(fs', d, name)
    {
      assert !IsDirAt(fs', j);
    }
    EntriesElse(fs, fs', {j}, {});
  }

  lemma InodeReleased(fs: FS, j: nat)
    requires WF(fs) && 11 <= j <= INODES && Ino(fs, j) == NoInode && Unnamed(fs, j)
    ensures var fs' := fs.(ibits := fs.ibits - {j - 1}); WF(fs') && Others(fs, fs', {j})
  {
    var fs' := fs.(ibits := fs.ibits - {j - 1});
    forall i | 0 < i <= INODES
      ensures i != j ==> Kept(fs, fs', i)
      ensures InodeOk(fs', i)
    {
      assert InodeOk(fs, i);
      if i != j { KeptSays(fs, fs', i); }
    }
    forall d: nat, name | d in {j}
      ensures EntryOk(fs', d, name)
    {
      assert !IsDirAt(fs', j);
    }
    EntriesElse(fs, fs', {j}, {j});
  }

  // ---------------------------------------------------------------- a file gets its data

  /** Inode `j`, which named nothing, takes the blocks it has grown by. */
  lemma FilePut(fs: FS, fs': FS, j: nat, ino: Inode)
    requires WF(fs) && 0 < j <= INODES && j - 1 in fs.ibits && Bare(Ino(fs, j)) && !IsDir(Ino(fs, j)) && IsFile(ino)
    requires Grown(fs.used, fs.disk, fs.owner, fs'.used, fs'.disk, fs'.owner, ino, j) && fs'.owner.Keys <= fs'.used
    requires fs' == fs.(used := fs'.used, disk := fs'.disk, owner := fs'.owner, inodes := fs.inodes[j - 1 := ino])
    ensures WF(fs') && Others(fs, fs', {j})
  {
    forall i | 0 < i <= INODES
      ensures i != j ==> Kept(fs, fs', i)
      ensures InodeOk(fs', i)
    {
      assert InodeOk(fs, i);
      if i != j { KeptSays(fs, fs', i); }
    }
    forall p | p in fs'.dirs
      ensures Holds(fs'.disk, fs'.dirs, p) && DirSlot(fs'.owner, p)
    {
      assert Holds(fs.disk, fs.dirs, p) && DirSlot(fs.owner, p);
    }
    forall p | p in fs'.owner
      ensures FIRST_DATA <= p < fs'.n
    {
      if p !in fs.owner { assert TakenBy(fs.used, fs'.disk, fs'.owner, ino, j, p); }
    }
    forall d: nat, name | d in {j}
      ensures EntryOk(fs', d, name)
    {
      assert !IsDirAt(fs', j);
    }
    EntriesElse(fs, fs', {j}, {});
  }

  // ---------------------------------------------------------------- a directory block is rewritten

  /** Block `l` of directory `d` is rewritten. */
  ghost function Rewritten(fs: FS, d: nat, l: nat, blk: Block): FS
    requires Shape(fs) && 0 < d <= INODES && Ptr(fs.disk, Ino(fs, d), l) < fs.n && DirBlock(blk)
  {
    var p := Ptr(fs.disk, Ino(fs, d), l);
    fs.(disk := fs.disk[p := blk], dirs := fs.dirs[p := Parse(blk, 0)])
  }

  /** Where the blocks of a directory are. */
  lemma DirBlockAt(fs: FS, d: nat, l: nat)
    requires WF(fs) && IsDirAt(fs, d) && l < Ino(fs, d).size / BS
    ensures var p := Ptr(fs.disk, Ino(fs, d), l);
            && FIRST_DATA <= p < fs.n && p in fs.owner && fs.owner[p] == (d, l) && p != Ino(fs, d).indirect
            && Holds(fs.disk, fs.dirs, p)
  {
    var ino := Ino(fs, d);
    assert InodeOk(fs, d);
    assert Slot(fs.disk, ino, l) == Ptr(fs.disk, ino, l);
    if ino.indirect != 0 { assert Slot(fs.disk, ino, LOGICAL) == ino.indirect; }
    assert Holds(fs.disk, fs.dirs, Ptr(fs.disk, ino, l));
  }

  lemma {:induction false} RewrittenElse(fs: FS, d: nat, l: nat, blk: Block)
    requires WF(fs) && IsDirAt(fs, d) && l < Ino(fs, d).size / BS && DirBlock(blk)
    ensures 0 < Ptr(fs.disk, Ino(fs, d), l) < fs.n
    ensures BlocksOk(Rewritten(fs, d, l, blk)) && Others(fs, Rewritten(fs, d, l, blk), {d})
    ensures Owns(Rewritten(fs, d, l, blk).disk, Ino(fs, d), d, fs.owner)
  {
    DirBlockAt(fs, d, l);
    RewrittenBlocks(fs, d, l, blk);
    RewrittenOwns(fs, d, Ptr(fs.disk, Ino(fs, d), l), blk);
  }

  lemma RewrittenBlocks(fs: FS, d: nat, l: nat, blk: Block)
    requires WF(fs) && IsDirAt(fs, d) && l < Ino(fs, d).size / BS && DirBlock(blk)
    requires var p := Ptr(fs.disk, Ino(fs, d), l); 0 < p < fs.n && p in fs.dirs
    ensures BlocksOk(Rewritten(fs, d, l, blk))
  {
    var fs', p := Rewritten(fs, d, l, blk), Ptr(fs.disk, Ino(fs, d), l);
    forall q | q in fs'.dirs
      ensures Holds(fs'.disk, fs'.dirs, q) && DirSlot(fs'.owner, q)
    {
      assert DirSlot(fs.owner, q);
      if q != p { HoldsStill(fs.disk, fs.dirs, fs'.disk, fs'.dirs, q); }
    }
  }

  lemma RewrittenOwns(fs: FS, d: nat, p: nat, blk: Block)
    requires WF(fs) && 0 < d <= INODES && 0 < p < fs.n && p != Ino(fs, d).indirect
    ensures Owns(fs.disk[p := blk], Ino(fs, d), d, fs.owner)
  {
    var ino, disk := Ino(fs, d), fs.disk[p := blk];
    PtrsApart(fs.disk, ino, p, blk);
    assert InodeOk(fs, d);
    forall s | 0 <= s < SLOTS && Slot(disk, ino, s) != 0
      ensures Slot(disk, ino, s) in fs.owner && fs.owner[Slot(disk, ino, s)] == (d, s)
    {
      assert Slot(disk, ino, s) == Slot(fs.disk, ino, s);
    }
  }

  /** The directory's records after one of its blocks gained or lost an entry. */
  lemma {:induction false} RewrittenRecs(fs: FS, d: nat, l: nat, blk: Block, name: Name, j: nat)
    requires WF(fs) && IsDirAt(fs, d) && l < Ino(fs, d).size / BS && DirBlock(blk)
    requires Ptr(fs.disk, Ino(fs, d), l) < fs.n
    ensures var p, fs', k := Ptr(fs.disk, Ino(fs, d), l), Rewritten(fs, d, l, blk), Ino(fs, d).size / BS;
            && p in fs.dirs && DirBlocks(fs'.disk, fs'.dirs, Ino(fs, d), k)
            && (OneMore(fs.dirs[p], Parse(blk, 0), name, j) ==>
                  OneMore(RecsOf(fs, d), DirRecs(fs'.disk, fs'.dirs, Ino(fs, d), k), name, j))
            && (OneMore(Parse(blk, 0), fs.dirs[p], name, j) ==>
                  OneMore(DirRecs(fs'.disk, fs'.dirs, Ino(fs, d), k), RecsOf(fs, d), name, j))
  {
    DirBlockAt(fs, d, l);
    var ino, p := Ino(fs, d), Ptr(fs.disk, Ino(fs, d), l);
    assert InodeOk(fs, d);
    PtrsApart(fs.disk, ino, p, blk);
    DirRecsEdited(fs.disk, fs.disk[p := blk], fs.dirs, ino, d, fs.owner, l, Parse(blk, 0), ino.size / BS, name, j);
  }

  /** The invariant after directory `d`, and only it, has gained an entry. */
  lemma EntryGained(fs: FS, fs': FS, d: nat, name: Name, j: nat)
    requires WF(fs) && IsDirAt(fs, d) && Shape(fs') && BlocksOk(fs') && Others(fs, fs', {d})
    requires fs'.ibits == fs.ibits && fs'.parent == fs.parent[j := (d, name)]
    requires IsDirAt(fs', d) && InodeOk(fs', d) && OneMore(RecsOf(fs, d), RecsOf(fs', d), name, j)
    requires Found(fs, d, name) == None && !Dots(name) && Find(RecsOf(fs', d), name) == Some(j)
    requires 11 <= j <= INODES && j != d && j - 1 in fs.ibits && Unnamed(fs, j)
    ensures WF(fs')
  {
    EditedOk(fs, fs', d);
    forall nm
      ensures EntryOk(fs', d, nm)
    {
      assert EntryOk(fs, d, nm);
    }
    EntriesElse(fs, fs', {d}, {j});
    if d != ROOT { assert Kept(fs, fs', ROOT); }
  }

  /** Directory `d` has gained the entry `name` for `j`, in a block it had. */
  lemma {:induction false} EntryAdded(fs: FS, d: nat, l: nat, blk: Block, name: Name, j: nat)
    requires WF(fs) && IsDirAt(fs, d) && l < Ino(fs, d).size / BS && DirBlock(blk)
    requires Ptr(fs.disk, Ino(fs, d), l) in fs.dirs && OneMore(fs.dirs[Ptr(fs.disk, Ino(fs, d), l)], Parse(blk, 0), name, j)
    requires Found(fs, d, name) == None && !Dots(name)
    requires 11 <= j <= INODES && j != d && j - 1 in fs.ibits && Unnamed(fs, j)
    ensures Ptr(fs.disk, Ino(fs, d), l) < fs.n
    ensures var fs' := Rewritten(fs, d, l, blk).(parent := fs.parent[j := (d, name)]);
            && WF(fs') && Others(fs, fs', {d}) && IsDirAt(fs', d)
            && OneMore(RecsOf(fs, d), RecsOf(fs', d), name, j)
  {
    RewrittenElse(fs, d, l, blk);
    RewrittenRecs(fs, d, l, blk, name, j);
    var fs' := Rewritten(fs, d, l, blk).(parent := fs.parent[j := (d, name)]);
    FoundIffCounted(RecsOf(fs, d), name);
    OnceAfter(RecsOf(fs, d), DirRecs(fs'.disk, fs'.dirs, Ino(fs, d), Ino(fs, d).size / BS), name, j);
    assert InodeOk(fs, d);
    forall i | 0 < i <= INODES && i !in {d}
      ensures Kept(fs, fs', i)
    {
      assert Kept(fs, Rewritten(fs, d, l, blk), i);
    }
    EntryGained(fs, fs', d, name, j);
  }

  /** The type of the record that a directory block gained. */
  lemma TypedInPlace(fs: FS, fs': FS, d: nat, l: nat, blk: Block, name: Name, j: nat, ft: byte)
    requires WF(fs) && IsDirAt(fs, d) && l < Ino(fs, d).size / BS && DirBlock(blk) && Ptr(fs.disk, Ino(fs, d), l) in fs.dirs
    requires Ptr(fs.disk, Ino(fs, d), l) < fs.n && fs' == Rewritten(fs, d, l, blk).(parent := fs'.parent) && IsDirAt(fs', d)
    requires Typed(Parse(blk, 0), name, j, ft)
    ensures Typed(RecsOf(fs', d), name, j, ft)
  {
    DirBlockAt(fs, d, l);
    assert InodeOk(fs, d);
    PtrsApart(fs.disk, Ino(fs, d), Ptr(fs.disk, Ino(fs, d), l), blk);
    BlockTyped(fs'.disk, fs'.dirs, Ino(fs', d), l, Ino(fs', d).size / BS, name, j, ft);
  }

  /** All inodes are good when `d` is and the others are kept. */
  lemma EditedOk(fs: FS, fs': FS, d: nat)
    requires Shape(fs) && Shape(fs') && InodesOk(fs) && Others(fs, fs', {d})
    requires 0 < d <= INODES && InodeOk(fs', d)
    ensures InodesOk(fs')
  {
    forall i | 0 < i <= INODES
      ensures InodeOk(fs', i)
    {
      assert InodeOk(fs, i);
      if i != d {
        assert Kept(fs, fs', i);
        KeptSays(fs, fs', i);
      }
    }
  }

  /** Directory `d` has lost its entry `name`. */
  lemma {:induction false} EntryRemoved(fs: FS, d: nat, l: nat, blk: Block, name: Name, j: nat)
    requires WF(fs) && IsDirAt(fs, d) && l < Ino(fs, d).size / BS && DirBlock(blk)
    requires Ptr(fs.disk, Ino(fs, d), l) in fs.dirs && OneMore(Parse(blk, 0), fs.dirs[Ptr(fs.disk, Ino(fs, d), l)], name, j)
    requires Found(fs, d, name) == Some(j) && !Dots(name)
    ensures Ptr(fs.disk, Ino(fs, d), l) < fs.n
    ensures var fs' := Rewritten(fs, d, l, blk);
            && WF(fs') && Others(fs, fs', {d}) && IsDirAt(fs', d) && Unnamed(fs', j)
            && OneMore(RecsOf(fs', d), RecsOf(fs, d), name, j)
  {
    RewrittenElse(fs, d, l, blk);
    RewrittenRecs(fs, d, l, blk, name, j);
    var fs' := Rewritten(fs, d, l, blk);
    OnceAfter(DirRecs(fs'.disk, fs'.dirs, Ino(fs, d), Ino(fs, d).size / BS), RecsOf(fs, d), name, j);
    assert InodeOk(fs, d);
    EditedOk(fs, fs', d);
    forall nm
      ensures EntryOk(fs', d, nm)
    {
      assert EntryOk(fs, d, nm);
    }
    EntriesElse(fs, fs', {d}, {});
    NameGone(fs, fs', d, name, j);
  }

  lemma NameGone(fs: FS, fs': FS, d: nat, name: Name, j: nat)
    requires WF(fs) && Shape(fs') && Others(fs, fs', {d}) && IsDirAt(fs, d) && IsDirAt(fs', d)
    requires OneMore(RecsOf(fs', d), RecsOf(fs, d), name, j) && Found(fs, d, name) == Some(j) && !Dots(name)
    requires Find(RecsOf(fs', d), name) == None
    ensures Unnamed(fs', j)
  {
    assert EntryOk(fs, d, name);
    forall e: nat, nm | !Dots(nm)
      ensures Found(fs', e, nm) != Some(j)
    {
      assert EntryOk(fs, e, nm);
      if 0 < e <= INODES && e != d {
        assert Kept(fs, fs', e) && InodeOk(fs, e);
        KeptSays(fs, fs', e);
      }
    }
  }

  // ---------------------------------------------------------------- a directory gets another block

  /** Directory `d` has got block `b` behind its last one, perhaps with a new table `t` (0 for none). */
  ghost predicate Extended(fs: FS, d: nat, b: nat, t: nat, disk: Disk, ino: Inode)
    requires Shape(fs) && IsDirAt(fs, d)
  {
    && Ino(fs, d).size / BS < LOGICAL && FIRST_DATA <= b < fs.n && b !in fs.used && |disk| == fs.n
    && ino.mode == Ino(fs, d).mode && ino.size == Ino(fs, d).size + BS
    && ino.links == Ino(fs, d).links && ino.sectors == Ino(fs, d).sectors + 8
    && (forall m {:trigger Ptr(disk, ino, m)} | 0 <= m < LOGICAL ::
          Ptr(disk, ino, m) == if m == Ino(fs, d).size / BS then b else Ptr(fs.disk, Ino(fs, d), m))
    && (if t == 0 then ino.indirect == Ino(fs, d).indirect
        else Ino(fs, d).indirect == 0 && ino.indirect == t && FIRST_DATA <= t < fs.n && t !in fs.used && t != b
             && Ino(fs, d).size / BS >= 12)
    && (forall q | 0 <= q < fs.n && disk[q] != fs.disk[q] :: q == b || (q == ino.indirect && q != 0))
  }

  ghost function NewBits(b: nat, t: nat): set<nat> { if t == 0 then {b} else {b, t} }

  ghost function Longer(fs: FS, d: nat, b: nat, t: nat, disk: Disk, ino: Inode, recs: Recs): FS
    requires Shape(fs) && 0 < d <= INODES
  {
    fs.(used := fs.used + NewBits(b, t), disk := disk, inodes := fs.inodes[d - 1 := ino],
        owner := Claim(fs.owner, d, Ino(fs, d).size / BS, b, t), dirs := fs.dirs[b := recs])
  }

  lemma LongerOwns(fs: FS, d: nat, b: nat, t: nat, disk: Disk, ino: Inode)
    requires WF(fs) && IsDirAt(fs, d) && Extended(fs, d, b, t, disk, ino)
    ensures Owns(disk, ino, d, Claim(fs.owner, d, Ino(fs, d).size / BS, b, t))
    ensures Owns(disk, Ino(fs, d), d, Claim(fs.owner, d, Ino(fs, d).size / BS, b, t))
  {
    var was, k := Ino(fs, d), Ino(fs, d).size / BS;
    var owner := Claim(fs.owner, d, k, b, t);
    assert InodeOk(fs, d);
    forall s | 0 <= s < SLOTS
      ensures Slot(disk, ino, s) != 0 ==> Slot(disk, ino, s) in owner && owner[Slot(disk, ino, s)] == (d, s)
      ensures Slot(disk, was, s) != 0 ==> Slot(disk, was, s) in owner && owner[Slot(disk, was, s)] == (d, s)
    {
      assert Slot(fs.disk, was, s) == 0 || Slot(fs.disk, was, s) in fs.owner;
      if s < LOGICAL {
        assert Slot(disk, ino, s) == Ptr(disk, ino, s);
        assert Slot(disk, was, s) in {0, Slot(disk, ino, s), Slot(fs.disk, was, s)};
      }
    }
  }

  /** What was owned stays owned and, unless it is the table of `d`, unchanged. */
  lemma LongerKeeps(fs: FS, d: nat, b: nat, t: nat, disk: Disk, ino: Inode, q: nat)
    requires WF(fs) && IsDirAt(fs, d) && Extended(fs, d, b, t, disk, ino) && q in fs.owner
    ensures q < fs.n && q in Claim(fs.owner, d, Ino(fs, d).size / BS, b, t)
    ensures Claim(fs.owner, d, Ino(fs, d).size / BS, b, t)[q] == fs.owner[q]
    ensures fs.owner[q] != (d, LOGICAL) ==> disk[q] == fs.disk[q]
  {
    assert InodeOk(fs, d);
    if q == ino.indirect { assert Slot(fs.disk, Ino(fs, d), LOGICAL) == Ino(fs, d).indirect; }
  }

  lemma {:induction false} LongerElse(fs: FS, d: nat, b: nat, t: nat, disk: Disk, ino: Inode, recs: Recs)
    requires WF(fs) && IsDirAt(fs, d) && Extended(fs, d, b, t, disk, ino)
    ensures Others(fs, Longer(fs, d, b, t, disk, ino, recs), {d})
  {
    var fs' := Longer(fs, d, b, t, disk, ino, recs);
    forall i | 0 < i <= INODES && i !in {d}
      ensures Kept(fs, fs', i)
    {
      forall q | q in fs.owner && fs.owner[q].0 == i
        ensures q in fs'.owner && fs'.owner[q] == fs.owner[q] && q < fs.n && fs'.disk[q] == fs.disk[q] && q != b
      {
        LongerKeeps(fs, d, b, t, disk, ino, q);
      }
    }
  }

  lemma {:induction false} LongerBlocks(fs: FS, d: nat, b: nat, t: nat, disk: Disk, ino: Inode, recs: Recs)
    requires WF(fs) && IsDirAt(fs, d) && Extended(fs, d, b, t, disk, ino)
    requires DirBlock(disk[b]) && Parse(disk[b], 0) == recs
    ensures BlocksOk(Longer(fs, d, b, t, disk, ino, recs))
  {
    var fs' := Longer(fs, d, b, t, disk, ino, recs);
    forall q | q in fs'.dirs
      ensures Holds(fs'.disk, fs'.dirs, q) && DirSlot(fs'.owner, q)
    {
      if q != b {
        assert DirSlot(fs.owner, q);
        LongerKeeps(fs, d, b, t, disk, ino, q);
        HoldsStill(fs.disk, fs.dirs, fs'.disk, fs'.dirs, q);
      }
    }
  }

  /** The records: those there were, and the new block's. */
  lemma {:induction false} LongerRecs(fs: FS, d: nat, b: nat, t: nat, disk: Disk, ino: Inode, recs: Recs)
    requires WF(fs) && IsDirAt(fs, d) && Extended(fs, d, b, t, disk, ino)
    ensures var fs', was, k := Longer(fs, d, b, t, disk, ino, recs), Ino(fs, d), Ino(fs, d).size / BS;
            && DirBlocks(disk, fs'.dirs, was, k) && DirRecs(disk, fs'.dirs, was, k) == RecsOf(fs, d)
            && DirBlocks(disk, fs'.dirs, ino, k + 1)
            && DirRecs(disk, fs'.dirs, ino, k + 1) == Append(RecsOf(fs, d), recs)
  {
    var k := Ino(fs, d).size / BS;
    LongerRecsUpTo(fs, d, b, t, disk, ino, recs, k);
    assert Ptr(disk, ino, k) == b;
    assert DirBlocks(disk, Longer(fs, d, b, t, disk, ino, recs).dirs, ino, k);
  }

  lemma {:induction false} LongerRecsUpTo(fs: FS, d: nat, b: nat, t: nat, disk: Disk, ino: Inode, recs: Recs, k: nat)
    requires WF(fs) && IsDirAt(fs, d) && Extended(fs, d, b, t, disk, ino) && k <= Ino(fs, d).size / BS
    ensures var fs', was := Longer(fs, d, b, t, disk, ino, recs), Ino(fs, d);
            && DirBlocks(fs.disk, fs.dirs, was, k)
            && DirBlocks(disk, fs'.dirs, was, k) && DirRecs(disk, fs'.dirs, was, k) == DirRecs(fs.disk, fs.dirs, was, k)
            && DirBlocks(disk, fs'.dirs, ino, k) && DirRecs(disk, fs'.dirs, ino, k) == DirRecs(fs.disk, fs.dirs, was, k)
  {
    if k > 0 {
      LongerRecsUpTo(fs, d, b, t, disk, ino, recs, k - 1);
      DirBlockAt(fs, d, k - 1);
      assert Ptr(disk, ino, k - 1) == Ptr(fs.disk, Ino(fs, d), k - 1);
      assert Ptr(disk, Ino(fs, d), k - 1) == Ptr(fs.disk, Ino(fs, d), k - 1);
    }
  }

  /** There is a record in a block of `d` with room for this name. */
  ghost predicate Roomy(fs: FS, d: nat, name: Name)
    requires Shape(fs) && IsDirAt(fs, d)
  {
    AnyRoom(RecsOf(fs, d), MinLen(|name|))
  }

  lemma {:induction false} DirLengths(disk: Disk, dirs: Dirs, ino: Inode, k: nat)
    requires Reads(disk, dirs) && DirBlocks(disk, dirs, ino, k)
    ensures Lengths(DirRecs(disk, dirs, ino, k)) == BS * k && AllValid(DirRecs(disk, dirs, ino, k))
  {
    if k > 0 {
      DirLengths(disk, dirs, ino, k - 1);
      assert Holds(disk, dirs, Ptr(disk, ino, k - 1));
      LengthsIs(disk[Ptr(disk, ino, k - 1)], 0);
      SpaceAppend(DirRecs(disk, dirs, ino, k - 1), dirs[Ptr(disk, ino, k - 1)]);
      ValidAppend(DirRecs(disk, dirs, ino, k - 1), dirs[Ptr(disk, ino, k - 1)], 0);
    }
  }

  /** The live entries of a directory fit into its blocks, and one more for which there is room does, too. */
  lemma RoomInside(fs: FS, d: nat, name: Name)
    requires WF(fs) && IsDirAt(fs, d)
    ensures Space(RecsOf(fs, d)) <= Ino(fs, d).size
    ensures Roomy(fs, d, name) ==> Space(RecsOf(fs, d)) + MinLen(|name|) <= Ino(fs, d).size
  {
    DirLengths(fs.disk, fs.dirs, Ino(fs, d), Ino(fs, d).size / BS);
    RoomLeft(RecsOf(fs, d), MinLen(|name|));
  }

  /** No inode for a new entry of `d`, no way for `d` to grow for it, or not that and `k` blocks more. */
  ghost predicate NoSpaceFor(fs: FS, d: nat, name: Name, k: nat)
    requires Shape(fs) && IsDirAt(fs, d)
  {
    || NoInodes(fs) || (AtLimit(fs, d) && !Roomy(fs, d, name))
    || Short(fs, k + if Roomy(fs, d, name) then 0 else Growth(Ino(fs, d)))
  }

  /** The blocks and records of `d`, read through the inode it had before. */
  ghost predicate OldView(fs: FS, fs': FS, d: nat)
    requires Shape(fs) && Shape(fs') && IsDirAt(fs, d)
  {
    && Owns(fs'.disk, Ino(fs, d), d, fs'.owner)
    && DirBlocks(fs'.disk, fs'.dirs, Ino(fs, d), Ino(fs, d).size / BS)
    && DirRecs(fs'.disk, fs'.dirs, Ino(fs, d), Ino(fs, d).size / BS) == RecsOf(fs, d)
  }

  /** The same directory inode, `k` blocks longer; its mode and its link count are as before. */
  predicate Stretched(ino: Inode, ino': Inode, k: nat) {
    ino'.mode == ino.mode && ino'.links == ino.links && ino'.size == ino.size + k * BS && ino'.sectors == ino.sectors + k * 8
  }

  /** Directory `d` has gained the entry `name` for `j`; a new block is taken only when no block has room. */
  ghost predicate Added(fs: FS, fs': FS, d: nat, name: Name, j: nat)
    requires Shape(fs) && IsDirAt(fs, d)
  {
    && WF(fs') && fs'.ibits == fs.ibits && fs'.n == fs.n && Others(fs, fs', {d})
    && IsDirAt(fs', d) && OneMore(RecsOf(fs, d), RecsOf(fs', d), name, j)
    && Stretched(Ino(fs, d), Ino(fs', d), if Roomy(fs, d, name) then 0 else 1)
    && (Roomy(fs, d, name) ==> fs'.used == fs.used && fs'.owner == fs.owner && fs'.inodes == fs.inodes)
    && (!Roomy(fs, d, name) ==> fs.used <= fs'.used && |fs'.used - fs.used| == Growth(Ino(fs, d)) && OldView(fs, fs', d))
    && (forall p | p in fs'.owner && p !in fs.owner :: p !in fs.used)
  }

  lemma Appended(recs: Recs, r: Rec)
    requires r.inode != 0
    ensures OneMore(recs, Append(recs, One(r)), r.name, r.inode)
  {
    assert OneMore(Nil, One(r), r.name, r.inode);
    OneMoreInside(recs, Nil, One(r), Nil, r.name, r.inode);
    AppendNil(recs);
    AppendNil(One(r));
  }

  /** Directory `d` has gained the entry in a block of its own. */
  lemma GrowthIs(fs: FS, d: nat, b: nat, t: nat, disk: Disk, ino: Inode)
    requires Shape(fs) && IsDirAt(fs, d) && Extended(fs, d, b, t, disk, ino)
    ensures |(fs.used + NewBits(b, t)) - fs.used| == Growth(Ino(fs, d))
  {
    assert (fs.used + NewBits(b, t)) - fs.used == NewBits(b, t);
    assert Ptr(disk, ino, Ino(fs, d).size / BS) == b;
  }

  lemma {:induction false} EntryAppended(fs: FS, d: nat, b: nat, t: nat, disk: Disk, ino: Inode, r: Rec)
    requires WF(fs) && IsDirAt(fs, d) && Extended(fs, d, b, t, disk, ino)
    requires DirBlock(disk[b]) && Parse(disk[b], 0) == One(r)
    requires Found(fs, d, r.name) == None && !Dots(r.name) && !Roomy(fs, d, r.name)
    requires 11 <= r.inode <= INODES && r.inode != d && r.inode - 1 in fs.ibits && Unnamed(fs, r.inode)
    ensures var fs' := Longer(fs, d, b, t, disk, ino, One(r)).(parent := fs.parent[r.inode := (d, r.name)]);
            Added(fs, fs', d, r.name, r.inode) && Typed(RecsOf(fs', d), r.name, r.inode, r.ftype)
  {
    var g := Longer(fs, d, b, t, disk, ino, One(r));
    var fs' := g.(parent := fs.parent[r.inode := (d, r.name)]);
    LongerOwns(fs, d, b, t, disk, ino);
    LongerElse(fs, d, b, t, disk, ino, One(r));
    LongerBlocks(fs, d, b, t, disk, ino, One(r));
    LongerRecs(fs, d, b, t, disk, ino, One(r));
    AppendedOnce(RecsOf(fs, d), r);
    TypedAppend(RecsOf(fs, d), One(r), r.name, r.inode, r.ftype);
    assert Typed(One(r), r.name, r.inode, r.ftype);
    assert InodeOk(fs, d);
    assert ino.size / BS == Ino(fs, d).size / BS + 1;
    RenamedElse(fs, g, fs', d);
    EntryGained(fs, fs', d, r.name, r.inode);
    GrowthIs(fs, d, b, t, disk, ino);
  }

  lemma AppendedOnce(recs: Recs, r: Rec)
    requires Once(recs) && r.inode != 0 && Find(recs, r.name) == None
    ensures OneMore(recs, Append(recs, One(r)), r.name, r.inode) && Once(Append(recs, One(r)))
  {
    Appended(recs, r);
    FoundIffCounted(recs, r.name);
    OnceAfter(recs, Append(recs, One(r)), r.name, r.inode);
  }

  /** Which entry names an inode does not matter to what is kept. */
  lemma RenamedElse(fs: FS, g: FS, fs': FS, d: nat)
    requires Shape(fs) && Shape(g) && fs' == g.(parent := fs'.parent) && Others(fs, g, {d})
    ensures Others(fs, fs', {d})
  {
    forall i | 0 < i <= INODES && i !in {d}
      ensures Kept(fs, fs', i)
    {
      assert Kept(fs, g, i);
    }
  }

  /**
   From `disk0` on, block `b` was taken and made `free`, and `was` became `ino` with `b` as its logical
   block `k`, perhaps with a new table.
   */
  ghost predicate PointedAt(used: set<nat>, disk0: Disk, was: Inode, k: nat, b: nat, free: Block, disk: Disk, ino: Inode) {
    && k < LOGICAL && FIRST_DATA <= b < |disk0| && b !in used && |disk| == |disk0|
    && ino == was.(direct := ino.direct, indirect := ino.indirect)
    && (forall m {:trigger Ptr(disk, ino, m)} | 0 <= m < LOGICAL ::
          Ptr(disk, ino, m) == if m == k then b else Ptr(disk0[b := free], was, m))
    && (ino.indirect != was.indirect ==>
          was.indirect == 0 && FIRST_DATA <= ino.indirect < |disk0| && ino.indirect !in used + {b} && k >= 12)
    && (forall q | 0 <= q < |disk0| && disk[q] != disk0[b := free][q] :: q == ino.indirect && q != 0)
  }

  lemma ExtendedBy(fs: FS, d: nat, b: nat, t: nat, disk: Disk, ino: Inode, ino': Inode, free: Block, blk: Block)
    requires WF(fs) && IsDirAt(fs, d)
    requires PointedAt(fs.used, fs.disk, Ino(fs, d), Ino(fs, d).size / BS, b, free, disk, ino)
    requires t == if ino.indirect == Ino(fs, d).indirect then 0 else ino.indirect
    requires ino' == ino.(size := ino.size + BS, sectors := ino.sectors + 8)
    ensures Extended(fs, d, b, t, disk[b := blk], ino')
  {
    var was, k := Ino(fs, d), Ino(fs, d).size / BS;
    assert InodeOk(fs, d);
    assert Slot(fs.disk, was, LOGICAL) == was.indirect;
    PtrsApart(fs.disk, was, b, free);
    PtrsApart(disk, ino, b, blk);
    var disk' := disk[b := blk];
    forall m {:trigger Ptr(disk', ino', m)} | 0 <= m < LOGICAL
      ensures Ptr(disk', ino', m) == if m == k then b else Ptr(fs.disk, was, m)
    {
      assert Ptr(disk', ino', m) == Ptr(disk', ino, m);
    }
  }

  /** Directory `d` has lost its entry `name`, which was for `j`. */
  ghost predicate Lost(fs: FS, fs': FS, d: nat, name: Name, j: nat)
    requires Shape(fs) && IsDirAt(fs, d)
  {
    && WF(fs') && fs' == fs.(disk := fs'.disk, dirs := fs'.dirs) && Others(fs, fs', {d})
    && IsDirAt(fs', d) && OneMore(RecsOf(fs', d), RecsOf(fs, d), name, j)
    && Unnamed(fs', j)
  }

  /** What a directory says after it gained an entry. */
  lemma AddedSays(fs: FS, fs': FS, d: nat, name: Name, j: nat)
    requires Shape(fs) && IsDirAt(fs, d) && Found(fs, d, name) == None && Added(fs, fs', d, name, j)
    ensures forall nm :: Found(fs', d, nm) == if nm == name then Some(j) else Found(fs, d, nm)
  {
    FoundIffCounted(RecsOf(fs, d), name);
  }

  /** What a directory says after it lost an entry. */
  lemma LostSays(fs: FS, fs': FS, d: nat, name: Name, j: nat)
    requires Shape(fs) && IsDirAt(fs, d) && Lost(fs, fs', d, name, j)
    ensures forall nm :: Found(fs', d, nm) == if nm == name then None else Found(fs, d, nm)
  {
    OnceAfter(RecsOf(fs', d), RecsOf(fs, d), name, j);
  }

  lemma EntryLost(fs: FS, d: nat, l: nat, blk: Block, name: Name, j: nat)
    requires WF(fs) && IsDirAt(fs, d) && l < Ino(fs, d).size / BS && DirBlock(blk)
    requires Ptr(fs.disk, Ino(fs, d), l) in fs.dirs && OneMore(Parse(blk, 0), fs.dirs[Ptr(fs.disk, Ino(fs, d), l)], name, j)
    requires Found(fs, d, name) == Some(j) && !Dots(name)
    ensures Ptr(fs.disk, Ino(fs, d), l) < fs.n && Lost(fs, Rewritten(fs, d, l, blk), d, name, j)
  {
    EntryRemoved(fs, d, l, blk, name, j);
  }

  /** Inode `j`, which named nothing, has become a file of these bytes, in blocks nobody used. */
  ghost predicate Stored(fs: FS, fs': FS, j: nat, bytes: seq<byte>)
    requires Shape(fs) && 0 < j <= INODES
  {
    && WF(fs') && fs'.n == fs.n && fs'.ibits == fs.ibits && Others(fs, fs', {j})
    && IsFile(Ino(fs', j)) && Content(fs'.disk, Ino(fs', j)) == bytes
    && fs'.used == fs.used + Named(fs'.disk, Ino(fs', j)) && fs.used !! Named(fs'.disk, Ino(fs', j))
    && |Named(fs'.disk, Ino(fs', j))| == DataBlocks(|bytes|)
  }

  lemma FileStored(fs: FS, g: FS, fs': FS, j: nat, grown: Inode, ino: Inode, bytes: seq<byte>)
    requires WF(fs) && 0 < j <= INODES && j - 1 in fs.ibits && Bare(Ino(fs, j)) && !IsDir(Ino(fs, j)) && IsFile(ino)
    requires g.used == fs'.used && g.disk == fs'.disk && g.owner == fs'.owner && Wrote(fs, g, j, grown, bytes)
    requires ino.direct == grown.direct && ino.indirect == grown.indirect && ino.size == |bytes|
    requires fs' == fs.(used := fs'.used, disk := fs'.disk, owner := fs'.owner, inodes := fs.inodes[j - 1 := ino])
    ensures Stored(fs, fs', j, bytes)
  {
    GrownResized(fs.used, fs.disk, fs.owner, fs'.used, fs'.disk, fs'.owner, grown, j, ino);
    FilePut(fs, fs', j, ino);
    FilledContent(fs'.disk, grown, bytes, ino);
    NamedTaken(fs.used, fs.disk, fs.owner, fs'.used, fs'.disk, fs'.owner, ino, j);
    assert fs'.used - fs.used == Named(fs'.disk, ino);
  }

  /** What an inode names is its own, and data. */
  lemma OwnBlocks(fs: FS, j: nat)
    requires WF(fs) && 0 < j <= INODES
    ensures forall p | p in Named(fs.disk, Ino(fs, j)) :: p in fs.owner && fs.owner[p].0 == j && p in fs.used
    ensures forall s: nat {:trigger Slot(fs.disk, Ino(fs, j), s)} | s < SLOTS :: Slot(fs.disk, Ino(fs, j), s) < fs.n
    ensures Ino(fs, j).indirect == 0 || FIRST_DATA <= Ino(fs, j).indirect < fs.n
  {
    assert InodeOk(fs, j);
    assert Slot(fs.disk, Ino(fs, j), LOGICAL) == Ino(fs, j).indirect;
  }

  /** Every chunk of `bytes` is in a block of its own, and just the blocks needed were taken. */
  ghost predicate Wrote(fs: FS, fs': FS, j: nat, ino: Inode, bytes: seq<byte>) {
    && Grown(fs.used, fs.disk, fs.owner, fs'.used, fs'.disk, fs'.owner, ino, j) && fs'.owner.Keys <= fs'.used
    && Filled(fs'.disk, ino, bytes, Blocks(|bytes|)) && |fs'.used - fs.used| == DataBlocks(|bytes|)
  }

  /** The inode of a file of `len` bytes: its mode, links and sectors. */
  predicate Headed(ino: Inode, mode: nat, links: nat, len: nat) {
    ino.mode == mode && ino.links == links && ino.size == len && ino.sectors == Blocks(len) * 8
  }

  /** File `j` holds new bytes, with the mode and links it had; blocks are taken and given back, and no others are lost. */
  ghost predicate Overwritten(fs: FS, fs': FS, j: nat, bytes: seq<byte>)
    requires Shape(fs) && 0 < j <= INODES
  {
    && WF(fs') && fs'.n == fs.n && fs'.ibits == fs.ibits && Others(fs, fs', {j})
    && IsFile(Ino(fs', j)) && Content(fs'.disk, Ino(fs', j)) == bytes
    && Headed(Ino(fs', j), Ino(fs, j).mode, Ino(fs, j).links, |bytes|)
    && fs'.used - Named(fs'.disk, Ino(fs', j)) == fs.used - Named(fs.disk, Ino(fs, j))
    && |Named(fs'.disk, Ino(fs', j))| == DataBlocks(|bytes|)
  }

  lemma StoredOver(fs: FS, g: FS, fs': FS, j: nat, bytes: seq<byte>)
    requires WF(fs) && 0 < j <= INODES && Shape(g) && Others(fs, g, {j}) && Stored(g, fs', j, bytes)
    requires g.n == fs.n && g.ibits == fs.ibits && g.used == fs.used - Named(fs.disk, Ino(fs, j))
    requires Headed(Ino(fs', j), Ino(fs, j).mode, Ino(fs, j).links, |bytes|)
    ensures Overwritten(fs, fs', j, bytes)
  {
    OthersThrough(fs, g, fs', {j}, {j});
    assert {j} + {j} == {j};
  }

  lemma SameNamed(fs: FS, fs': FS, j: nat)
    requires Shape(fs) && Shape(fs') && 0 < j <= INODES && InodeOk(fs, j) && Kept(fs, fs', j)
    ensures Named(fs'.disk, Ino(fs', j)) == Named(fs.disk, Ino(fs, j))
    ensures forall s: nat {:trigger Slot(fs'.disk, Ino(fs, j), s)} | s < SLOTS ::
              Slot(fs'.disk, Ino(fs, j), s) == Slot(fs.disk, Ino(fs, j), s)
  {
    forall s: nat | s < SLOTS
      ensures Slot(fs'.disk, Ino(fs, j), s) == Slot(fs.disk, Ino(fs, j), s)
    {
      SlotKept(fs.disk, fs'.disk, Ino(fs, j), j, fs.owner, s);
    }
  }

  // ---------------------------------------------------------------- a new directory, and its parent's inode

  /** Inode `j` becomes a directory of the one block `b`. */
  ghost function NewDir(fs: FS, j: nat, b: nat, ino: Inode, blk: Block): FS
    requires Shape(fs) && 0 < j <= INODES && b < fs.n && DirBlock(blk)
  {
    fs.(inodes := fs.inodes[j - 1 := ino], disk := fs.disk[b := blk],
        owner := fs.owner[b := (j, 0)], dirs := fs.dirs[b := Parse(blk, 0)])
  }

  predicate OneBlock(ino: Inode, b: nat) {
    IsDir(ino) && ino.size == BS && ino.direct == NoBlocks[0 := b] && ino.indirect == 0
  }

  lemma {:induction false} NewDirBlocks(fs: FS, j: nat, b: nat, ino: Inode, blk: Block)
    requires WF(fs) && 0 < j <= INODES && FIRST_DATA <= b < fs.n && b in fs.used && b !in fs.owner && DirBlock(blk)
    ensures BlocksOk(NewDir(fs, j, b, ino, blk))
  {
    var fs' := NewDir(fs, j, b, ino, blk);
    forall q | q in fs'.dirs
      ensures Holds(fs'.disk, fs'.dirs, q) && DirSlot(fs'.owner, q)
    {
      if q != b {
        assert DirSlot(fs.owner, q);
        HoldsStill(fs.disk, fs.dirs, fs'.disk, fs'.dirs, q);
      }
    }
  }

  lemma {:induction false} NewDirElse(fs: FS, j: nat, b: nat, ino: Inode, blk: Block)
    requires WF(fs) && 0 < j <= INODES && b < fs.n && b !in fs.owner && DirBlock(blk)
    ensures Others(fs, NewDir(fs, j, b, ino, blk), {j})
  {
    var fs' := NewDir(fs, j, b, ino, blk);
    forall i | 0 < i <= INODES && i !in {j}
      ensures Kept(fs, fs', i)
    {
    }
  }

  lemma NewDirOk(fs: FS, j: nat, b: nat, ino: Inode, blk: Block)
    requires WF(fs) && 11 < j <= INODES && j - 1 in fs.ibits && Ino(fs, j) == NoInode
    requires FIRST_DATA <= b < fs.n && b in fs.used && b !in fs.owner && OneBlock(ino, b)
    requires DirBlock(blk) && Once(Parse(blk, 0)) && forall nm | !Dots(nm) :: Find(Parse(blk, 0), nm) == None
    ensures var fs' := NewDir(fs, j, b, ino, blk);
            WF(fs') && Others(fs, fs', {j}) && IsDirAt(fs', j) && RecsOf(fs', j) == Parse(blk, 0)
  {
    var fs' := NewDir(fs, j, b, ino, blk);
    NewDirBlocks(fs, j, b, ino, blk);
    NewDirElse(fs, j, b, ino, blk);
    forall s | 0 <= s < SLOTS && Slot(fs'.disk, ino, s) != 0
      ensures Slot(fs'.disk, ino, s) in fs'.owner && fs'.owner[Slot(fs'.disk, ino, s)] == (j, s)
    {
      assert s == 0;
    }
    assert Ptr(fs'.disk, ino, 0) == b;
    assert DirRecs(fs'.disk, fs'.dirs, ino, 0) == Nil;
    assert DirRecs(fs'.disk, fs'.dirs, ino, 1) == Parse(blk, 0);
    EditedOk(fs, fs', j);
    EntriesElse(fs, fs', {j}, {});
  }

  /** The inode of directory `d` is written again, with the blocks and entries it has, or fewer. */
  lemma PinWritten(fs: FS, d: nat, pin: Inode)
    requires WF(fs) && IsDirAt(fs, d) && IsDir(pin)
    requires Owns(fs.disk, pin, d, fs.owner) && Directory(fs.disk, fs.dirs, pin)
    requires forall nm | Lookup(fs.disk, fs.dirs, pin, nm).Some? :: Found(fs, d, nm) == Lookup(fs.disk, fs.dirs, pin, nm)
    ensures var fs' := fs.(inodes := fs.inodes[d - 1 := pin]);
            WF(fs') && Others(fs, fs', {d}) && IsDirAt(fs', d) && RecsOf(fs', d) == DirRecs(fs.disk, fs.dirs, pin, pin.size / BS)
  {
    var fs' := fs.(inodes := fs.inodes[d - 1 := pin]);
    assert InodeOk(fs, d);
    EditedOk(fs, fs', d);
    forall nm
      ensures EntryOk(fs', d, nm)
    {
      assert EntryOk(fs, d, nm);
    }
    EntriesElse(fs, fs', {d}, {});
  }

  /** Only the link count of directory `d` changes. */
  lemma Relinked(fs: FS, d: nat, links: nat)
    requires WF(fs) && IsDirAt(fs, d)
    ensures var fs' := fs.(inodes := fs.inodes[d - 1 := Ino(fs, d).(links := links)]);
            WF(fs') && Others(fs, fs', {d}) && IsDirAt(fs', d) && RecsOf(fs', d) == RecsOf(fs, d)
  {
    var ino := Ino(fs, d);
    assert InodeOk(fs, d);
    LinksOnly(fs.disk, fs.dirs, ino, links, ino.size / BS);
    LinksOwn(fs.disk, ino, links, d, fs.owner);
    PinWritten(fs, d, ino.(links := links));
  }

  /** What a new directory says. */
  lemma DotsSay(self: nat, up: nat, l1: nat, l2: nat)
    requires self != 0 && up != 0
    ensures var recs := Two(Rec(self, l1, 2, [46]), Rec(up, l2, 2, [46, 46]));
            && Once(recs) && (forall nm | !Dots(nm) :: Find(recs, nm) == None)
            && Find(recs, [46]) == Some(self) && Find(recs, [46, 46]) == Some(up)
  {
    var r1, r2 := Rec(self, l1, 2, [46]), Rec(up, l2, 2, [46, 46]);
    forall nm
      ensures Count(Two(r1, r2), nm) <= 1
      ensures !Dots(nm) ==> Find(Two(r1, r2), nm) == None
    {
      TwoSay(r1, r2, nm);
      assert [46] != [46, 46] by { assert |[46]| != |[46, 46]|; }
    }
    TwoSay(r1, r2, [46]);
    TwoSay(r1, r2, [46, 46]);
  }

  /** The parent's inode is written back as it was before the entry came, with one more link. */
  lemma PinBack(fs: FS, h: FS, k: FS, d: nat, name: Name, j: nat, links: nat)
    requires WF(fs) && IsDirAt(fs, d) && Found(fs, d, name) == None && Added(fs, h, d, name, j)
    requires WF(k) && 0 < j <= INODES && j != d && Others(h, k, {j})
    ensures var fs' := k.(inodes := k.inodes[d - 1 := Ino(fs, d).(links := links)]);
            && WF(fs') && Others(k, fs', {d}) && IsDirAt(fs', d)
            && (Roomy(fs, d, name) ==> RecsOf(fs', d) == RecsOf(h, d) && Space(RecsOf(fs', d)) == Space(RecsOf(fs, d)) + MinLen(|name|))
            && (!Roomy(fs, d, name) ==> RecsOf(fs', d) == RecsOf(fs, d))
            && forall nm :: Found(fs', d, nm) == if Roomy(fs, d, name) && nm == name then Some(j) else Found(fs, d, nm)
  {
    AddedSays(fs, h, d, name, j);
    var pin := Ino(fs, d);
    assert InodeOk(h, d) && Kept(h, k, d);
    KeptSays(h, k, d);
    if Roomy(fs, d, name) {
      Relinked(k, d, links);
    } else {
      OldViewKept(fs, h, k, d);
      LinksOnly(k.disk, k.dirs, pin, links, pin.size / BS);
      LinksOwn(k.disk, pin, links, d, k.owner);
      PinWritten(k, d, pin.(links := links));
    }
  }

  lemma OldViewKept(fs: FS, h: FS, k: FS, d: nat)
    requires Shape(fs) && Shape(h) && Shape(k) && IsDirAt(fs, d) && OldView(fs, h, d) && Kept(h, k, d)
    ensures OldView(fs, k, d)
  {
    var pin := Ino(fs, d);
    DirRecsKept(h.disk, k.disk, h.dirs, k.dirs, pin, d, h.owner, pin.size / BS);
    forall s | 0 <= s < SLOTS && Slot(k.disk, pin, s) != 0
      ensures Slot(k.disk, pin, s) in k.owner && k.owner[Slot(k.disk, pin, s)] == (d, s)
    {
      SlotKept(h.disk, k.disk, pin, d, h.owner, s);
    }
  }

  lemma OwnedDirectly(fs: FS, j: nat)
    requires WF(fs) && 0 < j <= INODES
    ensures forall p | p in NamedDirectly(Ino(fs, j)) :: p in fs.owner && fs.owner[p].0 == j
  {
    assert InodeOk(fs, j);
    forall s: nat | s < 12
      ensures Slot(fs.disk, Ino(fs, j), s) == Ino(fs, j).direct[s]
    {
    }
  }

  // ---------------------------------------------------------------- a new volume

  const RootInode: Inode := Inode(0x41ED, BS, 3, 8, NoBlocks[0 := 12], 0)
  const LostInode: Inode := Inode(0x41C0, BS, 2, 8, NoBlocks[0 := 13], 0)

  ghost predicate RootRecs(recs: Recs) {
    Once(recs) && forall nm :: !Dots(nm) ==> Find(recs, nm) == if nm == LOST_FOUND then Some(11) else None
  }

  ghost predicate NoRecs(recs: Recs) {
    Once(recs) && forall nm :: !Dots(nm) ==> Find(recs, nm) == None
  }

  /** What a format writes. */
  ghost predicate Formatted(fs: FS) {
    && Shape(fs)
    && (forall b: nat :: b in fs.used <==> b < 14 || fs.n <= b < BITS)
    && (forall i: nat :: i in fs.ibits <==> i < 11 || INODES <= i < BITS)
    && Ino(fs, ROOT) == RootInode && Ino(fs, 11) == LostInode
    && (forall i: nat {:trigger Ino(fs, i)} | 0 < i <= INODES && i != ROOT && i != 11 :: Ino(fs, i) == NoInode)
    && fs.owner == map[12 := (2, 0), 13 := (11, 0)] && fs.parent == map[11 := (2, LOST_FOUND)]
    && fs.dirs.Keys == {12, 13} && Holds(fs.disk, fs.dirs, 12) && Holds(fs.disk, fs.dirs, 13)
    && fs.dirs[12] == NewRoot() && RootRecs(fs.dirs[12]) && fs.dirs[13] == NewLost() && NoRecs(fs.dirs[13])
  }

  /** Only the root and `lost+found`, both empty otherwise; the blocks of metadata and directories are taken, no others. */
  ghost predicate NewVolume(fs: FS) {
    && Shape(fs)
    && (forall b: nat | b < fs.n :: b in fs.used <==> b < 14)
    && (forall i: nat | i < INODES :: i in fs.ibits <==> i < 11)
    && (forall nm :: !Dots(nm) ==> Found(fs, ROOT, nm) == if nm == LOST_FOUND then Some(11) else None)
    && (forall d: nat, nm | d != ROOT && !Dots(nm) :: Found(fs, d, nm) == None)
    && IsDirAt(fs, 11)
    && (forall i: nat {:trigger Ino(fs, i)} | 0 < i <= INODES :: !IsFile(Ino(fs, i)))
  }

  lemma OneBlockDir(fs: FS, i: nat, b: nat)
    requires Shape(fs) && 0 < i <= INODES && OneBlock(Ino(fs, i), b) && b != 0
    requires b in fs.owner && fs.owner[b] == (i, 0) && b in fs.dirs && Once(fs.dirs[b])
    ensures Owns(fs.disk, Ino(fs, i), i, fs.owner)
    ensures IsDirAt(fs, i) && RecsOf(fs, i) == fs.dirs[b]
  {
    var ino := Ino(fs, i);
    forall s | 0 <= s < SLOTS && Slot(fs.disk, ino, s) != 0
      ensures Slot(fs.disk, ino, s) in fs.owner && fs.owner[Slot(fs.disk, ino, s)] == (i, s)
    {
      assert s == 0;
    }
    assert Ptr(fs.disk, ino, 0) == b;
    assert DirRecs(fs.disk, fs.dirs, ino, 0) == Nil;
    assert DirRecs(fs.disk, fs.dirs, ino, 1) == fs.dirs[b];
  }

  lemma RootSays(recs: Recs)
    requires recs == Append(Two(Rec(2, 12, 2, [46]), Rec(2, 12, 2, [46, 46])), One(Rec(11, 4072, 2, LOST_FOUND)))
    ensures RootRecs(recs)
  {
    DotsSay(2, 2, 12, 12);
    var two, one := Two(Rec(2, 12, 2, [46]), Rec(2, 12, 2, [46, 46])), One(Rec(11, 4072, 2, LOST_FOUND));
    forall nm
      ensures Count(recs, nm) <= 1
      ensures !Dots(nm) ==> Find(recs, nm) == if nm == LOST_FOUND then Some(11) else None
    {
      FindAppend(two, one, nm);
      FoundIffCounted(two, nm);
      assert Find(one, nm) == if nm == LOST_FOUND then Some(11) else None;
      assert Count(one, nm) == if nm == LOST_FOUND then 1 else 0;
      assert nm == LOST_FOUND ==> !Dots(nm);
    }
  }

  lemma NewInodes(fs: FS)
    requires Formatted(fs)
    ensures InodesOk(fs) && IsDirAt(fs, ROOT) && RecsOf(fs, ROOT) == fs.dirs[12] && IsDirAt(fs, 11) && RecsOf(fs, 11) == fs.dirs[13]
    ensures forall i: nat {:trigger Ino(fs, i)} | 0 < i <= INODES :: !IsFile(Ino(fs, i))
  {
    OneBlockDir(fs, ROOT, 12);
    OneBlockDir(fs, 11, 13);
    forall i | 0 < i <= INODES
      ensures InodeOk(fs, i) && !IsFile(Ino(fs, i))
    {
      if i != ROOT && i != 11 {
        assert Ino(fs, i) == NoInode;
        forall s | 0 <= s < SLOTS ensures Slot(fs.disk, NoInode, s) == 0 { BareSlots(fs.disk, NoInode, s); }
      }
    }
  }

  lemma NewEntries(fs: FS, d: nat, nm: Name)
    requires Formatted(fs) && IsDirAt(fs, ROOT) && RecsOf(fs, ROOT) == fs.dirs[12]
    requires IsDirAt(fs, 11) && RecsOf(fs, 11) == fs.dirs[13]
    ensures EntryOk(fs, d, nm)
    ensures !Dots(nm) ==> Found(fs, d, nm) == if d == ROOT && nm == LOST_FOUND then Some(11) else None
  {
    if 0 < d <= INODES && d != ROOT && d != 11 { assert Ino(fs, d) == NoInode; }
  }

  /** The two directory blocks `b` and `c` are all there is. */
  lemma {:induction false} NewBlocks(fs: FS, b: nat, c: nat, i: nat, j: nat)
    requires FIRST_DATA <= b < fs.n && FIRST_DATA <= c < fs.n
    requires fs.owner == map[b := (i, 0), c := (j, 0)] && fs.dirs.Keys == {b, c}
    requires Holds(fs.disk, fs.dirs, b) && Holds(fs.disk, fs.dirs, c)
    requires b in fs.used && c in fs.used && forall m: nat | m < FIRST_DATA :: m in fs.used
    ensures BlocksOk(fs)
  {
    assert forall p | p in fs.owner :: p == b || p == c;
    forall p | p in fs.dirs
      ensures Holds(fs.disk, fs.dirs, p) && DirSlot(fs.owner, p)
    {
      assert p == b || p == c;
    }
  }

  lemma NewVolumeOk(fs: FS)
    requires Formatted(fs)
    ensures WF(fs) && NewVolume(fs)
  {
    NewInodes(fs);
    NewBlocks(fs, 12, 13, ROOT, 11);
    forall d: nat, nm
      ensures EntryOk(fs, d, nm)
      ensures !Dots(nm) ==> Found(fs, d, nm) == if d == ROOT && nm == LOST_FOUND then Some(11) else None
    {
      NewEntries(fs, d, nm);
    }
  }
}
