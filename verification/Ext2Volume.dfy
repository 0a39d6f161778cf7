/** What an ext2 volume says: block pointers, file contents, directories, and who owns which block. */
module Ext2Volume {
  import opened Basics
  import opened LittleEndian
  import opened Ext2Bytes
  import opened Ext2Dir

  const FIRST_DATA: nat := 12   // superblock, group table, two bitmaps, eight inode-table blocks
  const PPB: nat := 1024        // pointers in an indirect block
  const LOGICAL: nat := 1036    // 12 direct blocks and one indirect table
  const SLOTS: nat := 1037      // the logical blocks, and the table itself as the last slot
  const INODES: nat := 256

  type Direct = s: seq<nat> | |s| == 12 witness seq(12, _ => 0)

  /** An inode; the fields the driver leaves zero are not shown. */
  datatype Inode = Inode(mode: nat, size: nat, links: nat, sectors: nat, direct: Direct, indirect: nat)

  const NoBlocks: Direct := [0, 0, 0, 0, 0, 0, 0, 0, 0, 0, 0, 0]

  const NoInode: Inode := Inode(0, 0, 0, 0, NoBlocks, 0)

  predicate IsDir(ino: Inode) { ino.mode / 0x1000 == 4 }

  predicate IsFile(ino: Inode) { ino.mode / 0x1000 == 8 }

  type Disk = seq<Block>

  /** Entry `k` of an indirect table. */
  function Entry(disk: Disk, table: nat, k: nat): nat
    requires k < PPB
  {
    if table < |disk| then Get32(disk[table], 4 * k) else 0
  }

  /** The block that holds logical block `lbn`, 0 for a hole. */
  function Ptr(disk: Disk, ino: Inode, lbn: nat): nat {
    if lbn < 12 then ino.direct[lbn]
    else if lbn < LOGICAL && ino.indirect != 0 then Entry(disk, ino.indirect, lbn - 12)
    else 0
  }

  /** Everything an inode names: its logical blocks and its indirect table. */
  function Slot(disk: Disk, ino: Inode, s: nat): nat {
    if s == LOGICAL then ino.indirect else Ptr(disk, ino, s)
  }

  /** Block number to the inode and slot that name it. */
  type Owner = map<nat, (nat, nat)>

  /** Whatever inode `i` names is recorded as its own. */
  ghost predicate Owns(disk: Disk, ino: Inode, i: nat, owner: Owner) {
    forall s {:trigger Slot(disk, ino, s)} | 0 <= s < SLOTS && Slot(disk, ino, s) != 0 ::
      Slot(disk, ino, s) in owner && owner[Slot(disk, ino, s)] == (i, s)
  }

  /** Owned blocks are marked used and are not metadata. */
  ghost predicate OwnedUsed(owner: Owner, used: set<nat>, n: nat) {
    forall p | p in owner :: FIRST_DATA <= p < n && p in used
  }

  /** The blocks of inode `i` hold the same bytes. */
  ghost predicate SameFor(disk: Disk, disk': Disk, owner: Owner, i: nat) {
    |disk'| == |disk| && forall p | p in owner && owner[p].0 == i && p < |disk| :: disk'[p] == disk[p]
  }

  lemma SlotKept(disk: Disk, disk': Disk, ino: Inode, i: nat, owner: Owner, s: nat)
    requires Owns(disk, ino, i, owner) && SameFor(disk, disk', owner, i) && s < SLOTS
    ensures Slot(disk', ino, s) == Slot(disk, ino, s)
  {
    if ino.indirect != 0 {
      assert Slot(disk, ino, LOGICAL) == ino.indirect;
    }
  }

  /** Setting one entry of a table. */
  lemma EntrySet(b: Block, k: nat, v: nat, m: nat)
    requires k < PPB && m < PPB && v < 0x1_0000_0000
    ensures Get32(Put32(b, 4 * k, v), 4 * m) == if m == k then v else Get32(b, 4 * m)
  {
    if m == k {
      Put32Get(b, 4 * k, v);
    } else {
      LoadFrame(b, Put32(b, 4 * k, v), 4 * m, 4 * m + 4);
    }
  }

  lemma ZeroEntry(k: nat)
    requires k < PPB
    ensures Get32(ZeroBlock, 4 * k) == 0
  {
    LoadZero(ZeroBlock, 4 * k, 4 * k + 4);
  }

  lemma {:induction false} LoadZero(b: Block, lo: nat, hi: nat)
    requires hi <= BS && forall x | lo <= x < hi :: b[x] == 0
    ensures Load(b, lo, hi) == 0
    decreases hi - lo
  {
    if lo < hi {
      LoadZero(b, lo + 1, hi);
    }
  }

  /** A new table with one entry set, or an entry set in the table there is. */
  lemma TableSet(disk: Disk, ino: Inode, t: nat, lbn: nat, v: nat)
    requires 12 <= lbn < LOGICAL && v < 0x1_0000_0000 && 0 < t < |disk|
    requires ino.indirect == t || (ino.indirect == 0 && disk[t] == ZeroBlock)
    ensures var disk', ino' := disk[t := Put32(disk[t], 4 * (lbn - 12), v)], ino.(indirect := t);
            forall m {:trigger Ptr(disk', ino', m)} | 0 <= m < LOGICAL ::
              Ptr(disk', ino', m) == if m == lbn then v else Ptr(disk, ino, m)
  {
    var disk', ino' := disk[t := Put32(disk[t], 4 * (lbn - 12), v)], ino.(indirect := t);
    forall m | 0 <= m < LOGICAL
      ensures Ptr(disk', ino', m) == if m == lbn then v else Ptr(disk, ino, m)
    {
      if m >= 12 {
        EntrySet(disk[t], lbn - 12, v, m - 12);
        ZeroEntry(m - 12);
      }
    }
  }

  /** Writing a block that is not the table changes no pointer. */
  lemma PtrsApart(disk: Disk, ino: Inode, p: nat, blk: Block)
    requires p < |disk| && p != ino.indirect
    ensures forall m {:trigger Ptr(disk[p := blk], ino, m)} :: Ptr(disk[p := blk], ino, m) == Ptr(disk, ino, m)
  {
  }

  /** The blocks named by the first `k` slots. */
  ghost function SlotsUpTo(disk: Disk, ino: Inode, k: nat): set<nat> {
    if k == 0 then {} else
      SlotsUpTo(disk, ino, k - 1) + if Slot(disk, ino, k - 1) == 0 then {} else {Slot(disk, ino, k - 1)}
  }

  lemma {:induction false} SlotsUpToIs(disk: Disk, ino: Inode, k: nat)
    ensures forall p :: p in SlotsUpTo(disk, ino, k) <==> p != 0 && exists s :: 0 <= s < k && Slot(disk, ino, s) == p
  {
    if k > 0 {
      SlotsUpToIs(disk, ino, k - 1);
      forall p
        ensures p in SlotsUpTo(disk, ino, k) <==> p != 0 && exists s :: 0 <= s < k && Slot(disk, ino, s) == p
      {
        if p != 0 && exists s :: 0 <= s < k && Slot(disk, ino, s) == p {
          var s :| 0 <= s < k && Slot(disk, ino, s) == p;
          assert s == k - 1 || p in SlotsUpTo(disk, ino, k - 1);
        }
      }
    }
  }

  /** The blocks an inode names. */
  ghost function Named(disk: Disk, ino: Inode): set<nat> {
    set s: nat {:trigger Slot(disk, ino, s)} | s < SLOTS && Slot(disk, ino, s) != 0 :: Slot(disk, ino, s)
  }

  lemma NamedIs(disk: Disk, ino: Inode)
    ensures SlotsUpTo(disk, ino, SLOTS) == Named(disk, ino)
  {
    SlotsUpToIs(disk, ino, SLOTS);
  }

  /** The blocks an inode names are exactly those it has taken. */
  lemma NamedTaken(used0: set<nat>, disk0: Disk, owner0: Owner, used: set<nat>, disk: Disk, owner: Owner, ino: Inode, i: nat)
    requires Grown(used0, disk0, owner0, used, disk, owner, ino, i)
    ensures used == used0 + Named(disk, ino) && used0 !! Named(disk, ino)
  {
    forall p
      ensures p in Named(disk, ino) <==> p in owner && p !in owner0
    {
      if p in owner && p !in owner0 {
        assert TakenBy(used0, disk, owner, ino, i, p);
      }
    }
    forall p | p in owner && p !in owner0
      ensures p !in used0
    {
      assert TakenBy(used0, disk, owner, ino, i, p);
    }
  }

  /** The blocks an inode names directly. */
  ghost function NamedDirectly(ino: Inode): set<nat> {
    set s: nat {:trigger ino.direct[s]} | s < 12 && ino.direct[s] != 0 :: ino.direct[s]
  }

  lemma NamedDirectlyIs(disk: Disk, ino: Inode)
    ensures SlotsUpTo(disk, ino, 12) == NamedDirectly(ino)
  {
    SlotsUpToIs(disk, ino, 12);
    forall s: nat | s < 12
      ensures Slot(disk, ino, s) == ino.direct[s]
    {
    }
  }

  /** Without a table there is nothing beyond the direct blocks. */
  lemma {:induction false} NoTable(disk: Disk, ino: Inode, k: nat)
    requires ino.indirect == 0 && 12 <= k
    ensures SlotsUpTo(disk, ino, k) == SlotsUpTo(disk, ino, 12)
  {
    if k > 12 {
      NoTable(disk, ino, k - 1);
    }
  }

  // ---------------------------------------------------------------- files

  function ByteAt(disk: Disk, ino: Inode, k: nat): byte {
    var p := Ptr(disk, ino, k / BS);
    if p == 0 || p >= |disk| then 0 else disk[p][k % BS]
  }

  /** The bytes of a file. */
  function Content(disk: Disk, ino: Inode): (s: seq<byte>)
    ensures |s| == ino.size
    ensures forall k | 0 <= k < ino.size :: s[k] == ByteAt(disk, ino, k)
  {
    seq(ino.size, k requires 0 <= k < ino.size => ByteAt(disk, ino, k))
  }

  lemma ContentKept(disk: Disk, disk': Disk, ino: Inode, i: nat, owner: Owner)
    requires Owns(disk, ino, i, owner) && SameFor(disk, disk', owner, i)
    ensures Content(disk', ino) == Content(disk, ino)
  {
    forall k | 0 <= k < ino.size
      ensures ByteAt(disk', ino, k) == ByteAt(disk, ino, k)
    {
      var l := k / BS;
      if l < LOGICAL {
        SlotKept(disk, disk', ino, i, owner, l);
        assert Slot(disk, ino, l) == Ptr(disk, ino, l);
      }
    }
  }

  // ---------------------------------------------------------------- directories

  /** Block number to the records that the block holds. */
  type Dirs = map<nat, Recs>

  ghost predicate Holds(disk: Disk, dirs: Dirs, p: nat) {
    p in dirs && p < |disk| && DirBlock(disk[p]) && Parse(disk[p], 0) == dirs[p]
  }

  lemma HoldsStill(disk: Disk, dirs: Dirs, disk': Disk, dirs': Dirs, p: nat)
    requires Holds(disk, dirs, p) && p < |disk'| && disk'[p] == disk[p] && p in dirs' && dirs'[p] == dirs[p]
    ensures Holds(disk', dirs', p)
  {
  }

  /** `dirs` is what the directory blocks on disk say. */
  ghost predicate Reads(disk: Disk, dirs: Dirs) {
    forall p {:trigger Holds(disk, dirs, p)} | p in dirs :: Holds(disk, dirs, p)
  }

  /** Logical blocks 0 up to `k` are directory blocks. */
  ghost predicate DirBlocks(disk: Disk, dirs: Dirs, ino: Inode, k: nat) {
    forall l {:trigger Ptr(disk, ino, l)} | 0 <= l < k :: Ptr(disk, ino, l) != 0 && Ptr(disk, ino, l) in dirs
  }

  /** The records of the first `k` blocks. */
  ghost function DirRecs(disk: Disk, dirs: Dirs, ino: Inode, k: nat): Recs
    requires DirBlocks(disk, dirs, ino, k)
  {
    if k == 0 then Nil else Append(DirRecs(disk, dirs, ino, k - 1), dirs[Ptr(disk, ino, k - 1)])
  }

  /** A well-formed directory: whole blocks of records, in which no name is live twice. */
  ghost predicate Directory(disk: Disk, dirs: Dirs, ino: Inode) {
    && ino.size % BS == 0 && 0 < ino.size / BS <= LOGICAL
    && DirBlocks(disk, dirs, ino, ino.size / BS)
    && Once(DirRecs(disk, dirs, ino, ino.size / BS))
  }

  ghost predicate Once(recs: Recs) {
    forall n :: Count(recs, n) <= 1
  }

  /** The inode a directory gives for a name. */
  ghost function Lookup(disk: Disk, dirs: Dirs, ino: Inode, name: Name): Option<nat>
    requires Directory(disk, dirs, ino)
  {
    Find(DirRecs(disk, dirs, ino, ino.size / BS), name)
  }

  /** The lookup in the first `k` blocks of any inode, directory or not. */
  function LookIn(disk: Disk, ino: Inode, name: Name, k: nat): Look {
    if k == 0 then Missing
    else if LookIn(disk, ino, name, k - 1) != Missing then LookIn(disk, ino, name, k - 1)
    else if 0 < Ptr(disk, ino, k - 1) < |disk| then Scan(disk[Ptr(disk, ino, k - 1)], 0, name)
    else Missing
  }

  /** The number of blocks a file size asks for. */
  function Blocks(size: nat): nat { (size + BS - 1) / BS }

  lemma {:induction false} LookEarly(disk: Disk, ino: Inode, name: Name, k: nat, all: nat)
    requires k <= all && LookIn(disk, ino, name, k) != Missing
    ensures LookIn(disk, ino, name, all) == LookIn(disk, ino, name, k)
  {
    if k < all {
      LookEarly(disk, ino, name, k, all - 1);
    }
  }

  lemma {:induction false} LookIsFind(disk: Disk, dirs: Dirs, ino: Inode, name: Name, k: nat)
    requires DirBlocks(disk, dirs, ino, k) && Reads(disk, dirs)
    ensures LookIn(disk, ino, name, k) == AsLook(Find(DirRecs(disk, dirs, ino, k), name))
  {
    if k > 0 {
      LookIsFind(disk, dirs, ino, name, k - 1);
      LookStep(disk, dirs, ino, name, k);
    }
  }

  lemma LookStep(disk: Disk, dirs: Dirs, ino: Inode, name: Name, k: nat)
    requires k > 0 && DirBlocks(disk, dirs, ino, k) && Reads(disk, dirs)
    requires LookIn(disk, ino, name, k - 1) == AsLook(Find(DirRecs(disk, dirs, ino, k - 1), name))
    ensures LookIn(disk, ino, name, k) == AsLook(Find(DirRecs(disk, dirs, ino, k), name))
  {
    var p := Ptr(disk, ino, k - 1);
    assert Holds(disk, dirs, p);
    ScanIsFind(disk[p], 0, name);
    FindAppend(DirRecs(disk, dirs, ino, k - 1), dirs[p], name);
  }

  /** In a directory the lookup finds what the directory says. */
  lemma LookIsLookup(disk: Disk, dirs: Dirs, ino: Inode, name: Name)
    requires Directory(disk, dirs, ino) && Reads(disk, dirs)
    ensures LookIn(disk, ino, name, Blocks(ino.size)) == AsLook(Lookup(disk, dirs, ino, name))
  {
    LookIsFind(disk, dirs, ino, name, ino.size / BS);
  }

  /** The directory blocks of inode `i` say the same. */
  ghost predicate SameDirs(dirs: Dirs, dirs': Dirs, owner: Owner, i: nat) {
    forall p | p in owner && owner[p].0 == i && p in dirs :: p in dirs' && dirs'[p] == dirs[p]
  }

  lemma {:induction false} DirRecsKept(disk: Disk, disk': Disk, dirs: Dirs, dirs': Dirs, ino: Inode, i: nat, owner: Owner, k: nat)
    requires Owns(disk, ino, i, owner) && SameFor(disk, disk', owner, i) && SameDirs(dirs, dirs', owner, i)
    requires k <= LOGICAL && DirBlocks(disk, dirs, ino, k)
    ensures DirBlocks(disk', dirs', ino, k) && DirRecs(disk', dirs', ino, k) == DirRecs(disk, dirs, ino, k)
  {
    if k > 0 {
      DirRecsKept(disk, disk', dirs, dirs', ino, i, owner, k - 1);
      SlotKept(disk, disk', ino, i, owner, k - 1);
      assert Slot(disk, ino, k - 1) == Ptr(disk, ino, k - 1);
    }
  }

  lemma DirectoryKept(disk: Disk, disk': Disk, dirs: Dirs, dirs': Dirs, ino: Inode, i: nat, owner: Owner)
    requires Owns(disk, ino, i, owner) && SameFor(disk, disk', owner, i) && SameDirs(dirs, dirs', owner, i)
    requires Directory(disk, dirs, ino)
    ensures Directory(disk', dirs', ino)
    ensures DirRecs(disk', dirs', ino, ino.size / BS) == DirRecs(disk, dirs, ino, ino.size / BS)
  {
    DirRecsKept(disk, disk', dirs, dirs', ino, i, owner, ino.size / BS);
  }

  /** A name found in the first blocks is the name found in all of them. */
  lemma {:induction false} FoundEarly(disk: Disk, dirs: Dirs, ino: Inode, k: nat, all: nat, name: Name)
    requires k <= all && DirBlocks(disk, dirs, ino, all) && Find(DirRecs(disk, dirs, ino, k), name).Some?
    ensures Find(DirRecs(disk, dirs, ino, all), name) == Find(DirRecs(disk, dirs, ino, k), name)
  {
    if k < all {
      FoundEarly(disk, dirs, ino, k, all - 1, name);
      FindAppend(DirRecs(disk, dirs, ino, all - 1), dirs[Ptr(disk, ino, all - 1)], name);
    }
  }

  /** A scan for a name, block by block. */
  lemma ScanBlock(disk: Disk, dirs: Dirs, ino: Inode, l: nat, all: nat, name: Name)
    requires l < all && DirBlocks(disk, dirs, ino, all) && Find(DirRecs(disk, dirs, ino, l), name) == None
    ensures Find(dirs[Ptr(disk, ino, l)], name) == None ==> Find(DirRecs(disk, dirs, ino, l + 1), name) == None
    ensures Find(dirs[Ptr(disk, ino, l)], name).Some? ==>
              Find(DirRecs(disk, dirs, ino, all), name) == Find(dirs[Ptr(disk, ino, l)], name)
  {
    FindAppend(DirRecs(disk, dirs, ino, l), dirs[Ptr(disk, ino, l)], name);
    if Find(dirs[Ptr(disk, ino, l)], name).Some? {
      FoundEarly(disk, dirs, ino, l + 1, all, name);
    }
  }

  /** Room in one of the blocks is room in the directory. */
  lemma {:induction false} RoomSomewhere(disk: Disk, dirs: Dirs, ino: Inode, l: nat, all: nat, need: nat)
    requires l < all && DirBlocks(disk, dirs, ino, all) && AnyRoom(dirs[Ptr(disk, ino, l)], need)
    ensures AnyRoom(DirRecs(disk, dirs, ino, all), need)
  {
    ValidAppend(DirRecs(disk, dirs, ino, all - 1), dirs[Ptr(disk, ino, all - 1)], need);
    if l < all - 1 {
      RoomSomewhere(disk, dirs, ino, l, all - 1, need);
    }
  }

  /** A live record in the first blocks is one in all of them. */
  lemma {:induction false} OccupiedEarly(disk: Disk, dirs: Dirs, ino: Inode, k: nat, all: nat)
    requires k <= all && DirBlocks(disk, dirs, ino, all) && !OnlyDots(DirRecs(disk, dirs, ino, k))
    ensures !OnlyDots(DirRecs(disk, dirs, ino, all))
  {
    if k < all {
      OccupiedEarly(disk, dirs, ino, k, all - 1);
      OnlyDotsAppend(DirRecs(disk, dirs, ino, all - 1), dirs[Ptr(disk, ino, all - 1)]);
    }
  }

  /** The link count says nothing about blocks or records. */
  lemma {:induction false} LinksOnly(disk: Disk, dirs: Dirs, ino: Inode, links: nat, k: nat)
    requires DirBlocks(disk, dirs, ino, k)
    ensures DirBlocks(disk, dirs, ino.(links := links), k)
    ensures DirRecs(disk, dirs, ino.(links := links), k) == DirRecs(disk, dirs, ino, k)
  {
    var ino' := ino.(links := links);
    forall l: nat
      ensures Ptr(disk, ino', l) == Ptr(disk, ino, l)
    {
    }
    if k > 0 {
      LinksOnly(disk, dirs, ino, links, k - 1);
    }
  }

  lemma LinksOwn(disk: Disk, ino: Inode, links: nat, i: nat, owner: Owner)
    requires Owns(disk, ino, i, owner)
    ensures Owns(disk, ino.(links := links), i, owner)
  {
    forall s: nat
      ensures Slot(disk, ino.(links := links), s) == Slot(disk, ino, s)
    {
    }
  }

  /** One block of a directory gains or loses an entry; the pointers stay. */
  lemma {:induction false} DirRecsEdited(disk: Disk, disk': Disk, dirs: Dirs, ino: Inode, i: nat, owner: Owner,
                                         l: nat, recs: Recs, k: nat, name: Name, j: nat)
    requires Owns(disk, ino, i, owner) && k <= LOGICAL && l < LOGICAL && DirBlocks(disk, dirs, ino, k)
    requires forall m {:trigger Ptr(disk', ino, m)} | 0 <= m < LOGICAL :: Ptr(disk', ino, m) == Ptr(disk, ino, m)
    requires Ptr(disk, ino, l) != 0 && Ptr(disk, ino, l) in dirs
    ensures var p := Ptr(disk, ino, l);
            var dirs' := dirs[p := recs];
            && DirBlocks(disk', dirs', ino, k)
            && (k <= l ==> DirRecs(disk', dirs', ino, k) == DirRecs(disk, dirs, ino, k))
            && (k > l && OneMore(dirs[p], recs, name, j) ==>
                  OneMore(DirRecs(disk, dirs, ino, k), DirRecs(disk', dirs', ino, k), name, j))
            && (k > l && OneMore(recs, dirs[p], name, j) ==>
                  OneMore(DirRecs(disk', dirs', ino, k), DirRecs(disk, dirs, ino, k), name, j))
  {
    var p := Ptr(disk, ino, l);
    var dirs' := dirs[p := recs];
    if k > 0 {
      DirRecsEdited(disk, disk', dirs, ino, i, owner, l, recs, k - 1, name, j);
      var q := Ptr(disk, ino, k - 1);
      assert Slot(disk, ino, l) == p && Slot(disk, ino, k - 1) == q;
      AppendEffect(DirRecs(disk, dirs, ino, k - 1), DirRecs(disk', dirs', ino, k - 1), dirs[q], dirs'[q], name, j);
    }
  }

  /** A record of one of its blocks is a record of the directory. */
  lemma {:induction false} BlockTyped(disk: Disk, dirs: Dirs, ino: Inode, l: nat, k: nat, name: Name, j: nat, ft: byte)
    requires DirBlocks(disk, dirs, ino, k) && l < k && Typed(dirs[Ptr(disk, ino, l)], name, j, ft)
    ensures Typed(DirRecs(disk, dirs, ino, k), name, j, ft)
  {
    TypedAppend(DirRecs(disk, dirs, ino, k - 1), dirs[Ptr(disk, ino, k - 1)], name, j, ft);
    if l < k - 1 { BlockTyped(disk, dirs, ino, l, k - 1, name, j, ft); }
  }

  lemma AppendEffect(a: Recs, a': Recs, x: Recs, x': Recs, name: Name, j: nat)
    ensures a' == a && OneMore(x, x', name, j) ==> OneMore(Append(a, x), Append(a', x'), name, j)
    ensures a' == a && OneMore(x', x, name, j) ==> OneMore(Append(a', x'), Append(a, x), name, j)
    ensures x' == x && OneMore(a, a', name, j) ==> OneMore(Append(a, x), Append(a', x'), name, j)
    ensures x' == x && OneMore(a', a, name, j) ==> OneMore(Append(a', x'), Append(a, x), name, j)
  {
    AppendNil(x);
    AppendNil(x');
    if a' == a && OneMore(x, x', name, j) { OneMoreInside(a, x, x', Nil, name, j); }
    if a' == a && OneMore(x', x, name, j) { OneMoreInside(a, x', x, Nil, name, j); }
    if x' == x && OneMore(a, a', name, j) { OneMoreInside(Nil, a, a', x, name, j); }
    if x' == x && OneMore(a', a, name, j) { OneMoreInside(Nil, a', a, x, name, j); }
  }

  /** No entry twice, before and after a change by one entry. */
  lemma OnceAfter(x: Recs, y: Recs, name: Name, j: nat)
    requires OneMore(x, y, name, j)
    ensures Once(x) && Count(x, name) == 0 ==> Once(y) && Find(y, name) == Some(j)
    ensures Once(y) ==> Once(x) && Find(x, name) == None
  {
    FoundIffCounted(x, name);
    if Once(x) && Count(x, name) == 0 {
      forall n ensures Count(y, n) <= 1 { assert n == name || Count(y, n) == Count(x, n); }
    }
    if Once(y) {
      assert Count(y, name) <= 1;
      forall n ensures Count(x, n) <= 1 { assert n == name || Count(y, n) == Count(x, n); }
    }
  }

  // ---------------------------------------------------------------- a file grows by whole blocks

  /** Block `l` of the file, padded with zeros. */
  function Chunk(bytes: seq<byte>, l: nat): Block {
    seq(4096, j requires 0 <= j < 4096 => if l * BS + j < |bytes| then bytes[l * BS + j] else 0)
  }

  /**
   From (used0, disk0, owner0) on, inode `i` has taken blocks that nobody used, for itself alone,
   and nothing else has changed.
   */
  ghost predicate Grown(used0: set<nat>, disk0: Disk, owner0: Owner,
                        used: set<nat>, disk: Disk, owner: Owner, ino: Inode, i: nat) {
    && |disk| == |disk0|
    && (forall p | p in owner0 :: p in owner && owner[p] == owner0[p])
    && (forall p :: p in used <==> p in used0 || (p in owner && p !in owner0))
    && (forall p | 0 <= p < |disk| && disk[p] != disk0[p] :: p in owner && p !in owner0)
    && (forall p | p in owner && p !in owner0 :: TakenBy(used0, disk, owner, ino, i, p))
    && Owns(disk, ino, i, owner)
    && (forall s {:trigger Slot(disk, ino, s)} | 0 <= s < SLOTS :: Slot(disk, ino, s) !in owner0)
  }

  /** `p` was free and is now what slot `owner[p].1` of the inode names. */
  ghost predicate TakenBy(used0: set<nat>, disk: Disk, owner: Owner, ino: Inode, i: nat, p: nat) {
    && p !in used0 && FIRST_DATA <= p < |disk|
    && p in owner && owner[p].0 == i && owner[p].1 < SLOTS && Slot(disk, ino, owner[p].1) == p
  }

  /** The first `k` logical blocks hold the chunks of `bytes`; there are no others. */
  ghost predicate Filled(disk: Disk, ino: Inode, bytes: seq<byte>, k: nat) {
    && (forall l {:trigger Ptr(disk, ino, l)} | 0 <= l < k ::
          0 < Ptr(disk, ino, l) < |disk| && disk[Ptr(disk, ino, l)] == Chunk(bytes, l))
    && (forall l {:trigger Ptr(disk, ino, l)} | k <= l < LOGICAL :: Ptr(disk, ino, l) == 0)
    && (ino.indirect != 0 ==> k > 12)
  }

  /** The new owner map after logical block `l` became `b`, perhaps with a new table `t` (0 for none). */
  ghost function Claim(owner: Owner, i: nat, l: nat, b: nat, t: nat): Owner {
    var o := owner[b := (i, l)];
    if t == 0 then o else o[t := (i, LOGICAL)]
  }

  lemma GrowStep(used0: set<nat>, disk0: Disk, owner0: Owner, used: set<nat>, disk: Disk, owner: Owner, ino: Inode, i: nat,
                 used': set<nat>, disk': Disk, ino': Inode, l: nat, b: nat, t: nat)
    requires Grown(used0, disk0, owner0, used, disk, owner, ino, i) && owner.Keys <= used
    requires l < LOGICAL && FIRST_DATA <= b < |disk| && b !in used && |disk'| == |disk|
    requires Ptr(disk, ino, l) == 0
    requires forall m {:trigger Ptr(disk', ino', m)} | 0 <= m < LOGICAL :: Ptr(disk', ino', m) == if m == l then b else Ptr(disk, ino, m)
    requires if t == 0 then ino'.indirect == ino.indirect && used' == used + {b}
             else ino.indirect == 0 && ino'.indirect == t && FIRST_DATA <= t < |disk| && t !in used && t != b && used' == used + {b, t}
    requires forall q | 0 <= q < |disk| && disk'[q] != disk[q] :: q == b || (q == ino'.indirect && q != 0)
    ensures Grown(used0, disk0, owner0, used', disk', Claim(owner, i, l, b, t), ino', i)
    ensures Claim(owner, i, l, b, t).Keys <= used'
  {
    var owner' := Claim(owner, i, l, b, t);
    forall s | 0 <= s < SLOTS
      ensures Slot(disk', ino', s) != 0 ==> Slot(disk', ino', s) in owner' && owner'[Slot(disk', ino', s)] == (i, s)
      ensures Slot(disk', ino', s) !in owner0
    {
      assert Slot(disk, ino, s) == 0 || Slot(disk, ino, s) in owner;
      if s == LOGICAL {
        assert Slot(disk', ino', s) == ino'.indirect;
      } else {
        assert Slot(disk', ino', s) == Ptr(disk', ino', s);
      }
    }
    forall p | p in owner' && p !in owner0
      ensures TakenBy(used0, disk', owner', ino', i, p)
    {
      if p != b && p != t {
        assert TakenBy(used0, disk, owner, ino, i, p);
        var s := owner[p].1;
        assert Slot(disk, ino, s) == p;
        if s != LOGICAL { assert Ptr(disk', ino', s) == Ptr(disk, ino, s); }
      } else if p == b {
        assert Slot(disk', ino', l) == Ptr(disk', ino', l);
      }
    }
    if ino'.indirect != 0 && t == 0 {
      assert Slot(disk, ino, LOGICAL) == ino.indirect;
    }
  }

  lemma FillStep(disk: Disk, disk': Disk, ino: Inode, ino': Inode, bytes: seq<byte>, l: nat, b: nat, i: nat, owner: Owner)
    requires Filled(disk, ino, bytes, l) && l < LOGICAL && |disk'| == |disk| && 0 < b < |disk|
    requires Owns(disk, ino, i, owner) && b !in owner
    requires forall m {:trigger Ptr(disk', ino', m)} | 0 <= m < LOGICAL :: Ptr(disk', ino', m) == if m == l then b else Ptr(disk, ino, m)
    requires disk'[b] == Chunk(bytes, l)
    requires forall q | 0 <= q < |disk| && disk'[q] != disk[q] :: q == b || (q == ino'.indirect && q != 0)
    requires ino'.indirect == ino.indirect || (l >= 12 && ino.indirect == 0 && ino'.indirect !in owner)
    ensures Filled(disk', ino', bytes, l + 1)
  {
    forall m | 0 <= m < l + 1
      ensures 0 < Ptr(disk', ino', m) < |disk'| && disk'[Ptr(disk', ino', m)] == Chunk(bytes, m)
    {
      if m < l {
        assert Slot(disk, ino, m) == Ptr(disk, ino, m);
        if ino.indirect != 0 { assert Slot(disk, ino, LOGICAL) == ino.indirect; }
      }
    }
  }

  /** Size and sector count say nothing about blocks. */
  lemma GrownResized(used0: set<nat>, disk0: Disk, owner0: Owner, used: set<nat>, disk: Disk, owner: Owner, ino: Inode, i: nat,
                     ino': Inode)
    requires Grown(used0, disk0, owner0, used, disk, owner, ino, i)
    requires ino'.direct == ino.direct && ino'.indirect == ino.indirect
    ensures Grown(used0, disk0, owner0, used, disk, owner, ino', i)
  {
    forall s: nat
      ensures Slot(disk, ino', s) == Slot(disk, ino, s)
    {
    }
    forall p | p in owner && p !in owner0
      ensures TakenBy(used0, disk, owner, ino', i, p)
    {
      assert TakenBy(used0, disk, owner, ino, i, p);
    }
  }

  /** Blocks filled with the chunks of `bytes` are a file of these bytes. */
  lemma FilledContent(disk: Disk, ino: Inode, bytes: seq<byte>, ino': Inode)
    requires Filled(disk, ino, bytes, (|bytes| + BS - 1) / BS)
    requires ino'.direct == ino.direct && ino'.indirect == ino.indirect && ino'.size == |bytes|
    ensures Content(disk, ino') == bytes
  {
    forall k | 0 <= k < |bytes|
      ensures ByteAt(disk, ino', k) == bytes[k]
    {
      var l := k / BS;
      assert Ptr(disk, ino', l) == Ptr(disk, ino, l);
      assert l * BS + k % BS == k;
      assert disk[Ptr(disk, ino, l)] == Chunk(bytes, l);
    }
  }
}
