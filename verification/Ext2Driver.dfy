/** The ext2 driver's write path over a ModuOS volume: one group, 4096-byte blocks. */
module Ext2Driver {
  import opened Basics
  import opened Ext2Bytes
  import opened Ext2Bitmap
  import opened Ext2Dir
  import opened Ext2Volume
  import opened Ext2State
  import opened Ext2Walk
  import opened Ext2Paths

  class Volume {
    const n: nat                 // s_blocks_count
    var blockBmp: Bitmap
    var inodeBmp: Bitmap
    var inodes: seq<Inode>       // inode i at index i - 1
    var disk: Disk
    ghost var owner: Owner       // who names each block
    ghost var dirs: Dirs         // what the directory blocks say
    ghost var parent: map<nat, (nat, Name)>

    ghost function Fs(): FS
      reads this
    {
      FS(n, Marked(blockBmp), Marked(inodeBmp), inodes, disk, owner, dirs, parent)
    }

    ghost predicate Sized()
      reads this
    {
      |inodes| == INODES && |disk| == n && 32 <= n <= BITS
    }

    /** The metadata blocks are marked used. */
    ghost predicate MetaUsed()
      reads this
    {
      forall b: nat | b < FIRST_DATA :: b in Marked(blockBmp)
    }

    // ------------------------------------------------------------ allocation

    method AllocBlock() returns (ok: bool, b: nat)
      requires n <= BITS
      modifies this`blockBmp
      ensures ok ==> b < n && b !in old(Marked(blockBmp)) && Marked(blockBmp) == old(Marked(blockBmp)) + {b}
      ensures ok ==> forall c: nat | c < b :: c in old(Marked(blockBmp))
      ensures !ok ==> blockBmp == old(blockBmp) && forall c: nat | c < n :: c in Marked(blockBmp)
    {
      var m;
      ok, b, m := TakeBit(blockBmp, 0, n);
      blockBmp := m;
    }

    method FreeBlock(b: nat)
      requires b < BITS
      modifies this`blockBmp
      ensures Marked(blockBmp) == old(Marked(blockBmp)) - {b}
    {
      BitCleared(blockBmp, b);
      blockBmp := ClearBit(blockBmp, b);
    }

    /** Inode numbers start at 1; 1 to 11 are reserved. */
    method AllocInode() returns (ok: bool, ino: nat)
      modifies this`inodeBmp
      ensures ok ==> 11 < ino <= INODES && ino - 1 !in old(Marked(inodeBmp))
      ensures ok ==> Marked(inodeBmp) == old(Marked(inodeBmp)) + {ino - 1}
      ensures ok ==> forall i: nat | 11 <= i < ino - 1 :: i in old(Marked(inodeBmp))
      ensures !ok ==> inodeBmp == old(inodeBmp) && NoInodes(Fs())
    {
      var m, i;
      ok, i, m := TakeBit(inodeBmp, 11, INODES);
      inodeBmp := m;
      ino := i + 1;
    }

    method FreeInode(ino: nat)
      requires 0 < ino <= INODES
      modifies this`inodeBmp
      ensures Marked(inodeBmp) == old(Marked(inodeBmp)) - {ino - 1}
    {
      BitCleared(inodeBmp, ino - 1);
      inodeBmp := ClearBit(inodeBmp, ino - 1);
    }

    // ------------------------------------------------------------ blocks and inodes

    /** Only data blocks are ever written through this path. */
    method WriteBlock(b: nat, blk: Block)
      requires FIRST_DATA <= b < |disk|
      modifies this`disk
      ensures disk == old(disk)[b := blk]
    {
      disk := disk[b := blk];
    }

    method WriteInode(i: nat, ino: Inode)
      requires 0 < i <= |inodes|
      modifies this`inodes
      ensures inodes == old(inodes)[i - 1 := ino]
    {
      inodes := inodes[i - 1 := ino];
    }

    // ------------------------------------------------------------ the block map

    /** Makes logical block `lbn` the block `p`, with a fresh zeroed table when one is needed. */
    method SetBlockPtr(ino: Inode, lbn: nat, p: nat) returns (ok: bool, ino': Inode)
      requires Sized() && MetaUsed() && p < n
      requires ino.indirect == 0 || FIRST_DATA <= ino.indirect < n
      modifies this`blockBmp, this`disk
      ensures Sized()
      ensures ok ==> lbn < LOGICAL && ino' == ino.(direct := ino'.direct, indirect := ino'.indirect)
      ensures ok ==> forall m {:trigger Ptr(disk, ino', m)} | 0 <= m < LOGICAL ::
                Ptr(disk, ino', m) == if m == lbn then p else Ptr(old(disk), ino, m)
      ensures ok ==> if ino'.indirect == ino.indirect then Marked(blockBmp) == old(Marked(blockBmp))
                     else ino.indirect == 0 && FIRST_DATA <= ino'.indirect < n
                          && ino'.indirect !in old(Marked(blockBmp))
                          && Marked(blockBmp) == old(Marked(blockBmp)) + {ino'.indirect}
      ensures ok ==> forall q | 0 <= q < n && disk[q] != old(disk)[q] :: q == ino'.indirect && q != 0
      ensures ok && lbn < 12 ==> disk == old(disk) && ino'.indirect == ino.indirect
      ensures !ok ==> blockBmp == old(blockBmp) && disk == old(disk)
      ensures !ok ==> lbn >= LOGICAL || (Full(Fs()) && lbn >= 12 && ino.indirect == 0)
      ensures ok && lbn >= 12 ==> ino'.indirect != 0
    {
      if lbn < 12 {
        return true, ino.(direct := ino.direct[lbn := p]);
      }
      if lbn < LOGICAL {
        ino' := ino;
        if ino.indirect == 0 {
          var got, t := AllocBlock();
          if !got { return false, ino; }
          ino' := ino.(indirect := t);
          WriteBlock(t, ZeroBlock);
        }
        ghost var d := disk;
        TableSet(d, ino, ino'.indirect, lbn, p);
        WriteBlock(ino'.indirect, Put32(disk[ino'.indirect], 4 * (lbn - 12), p));
        return true, ino';
      }
      return false, ino;
    }

    // ------------------------------------------------------------ giving blocks back

    method FreeDirect(ino: Inode)
      requires forall s: nat {:trigger Slot(disk, ino, s)} | s < SLOTS :: Slot(disk, ino, s) < BITS
      modifies this`blockBmp
      ensures Marked(blockBmp) == old(Marked(blockBmp)) - SlotsUpTo(disk, ino, 12)
    {
      var i := 0;
      while i < 12
        invariant 0 <= i <= 12
        invariant Marked(blockBmp) == old(Marked(blockBmp)) - SlotsUpTo(disk, ino, i)
      {
        assert Slot(disk, ino, i) == ino.direct[i];
        if ino.direct[i] != 0 {
          FreeBlock(ino.direct[i]);
        }
        i := i + 1;
      }
    }

    /** Frees every block the inode names: direct blocks, then what the table names, then the table. */
    method FreeBlocks(ino: Inode)
      requires |disk| == n && ino.indirect < n
      requires forall s: nat {:trigger Slot(disk, ino, s)} | s < SLOTS :: Slot(disk, ino, s) < BITS
      modifies this`blockBmp
      ensures Marked(blockBmp) == old(Marked(blockBmp)) - SlotsUpTo(disk, ino, SLOTS)
    {
      FreeDirect(ino);
      if ino.indirect == 0 {
        NoTable(disk, ino, SLOTS);
        return;
      }
      var i := 0;
      while i < PPB
        invariant 0 <= i <= PPB
        invariant Marked(blockBmp) == old(Marked(blockBmp)) - SlotsUpTo(disk, ino, 12 + i)
      {
        var v := Entry(disk, ino.indirect, i);
        assert Slot(disk, ino, 12 + i) == v;
        if v != 0 {
          FreeBlock(v);
        }
        i := i + 1;
      }
      assert Slot(disk, ino, LOGICAL) == ino.indirect;
      FreeBlock(ino.indirect);
    }

    // ------------------------------------------------------------ file data

    /** Gives the file its next logical block and fills it. */
    method AppendBlock(i: nat, ino: Inode, l: nat, blk: Block) returns (ok: bool, ino': Inode, ghost b: nat, ghost t: nat)
      requires Sized() && MetaUsed() && owner.Keys <= Marked(blockBmp)
      requires ino.indirect == 0 || (FIRST_DATA <= ino.indirect < n && ino.indirect in Marked(blockBmp))
      requires Ptr(disk, ino, l) == 0
      modifies this`blockBmp, this`disk
      ensures Sized() && MetaUsed()
      ensures ok ==> l < LOGICAL && ino' == ino.(direct := ino'.direct, indirect := ino'.indirect)
      ensures ok ==> FIRST_DATA <= b < n && b !in old(Marked(blockBmp)) && disk[b] == blk
      ensures ok ==> forall m {:trigger Ptr(disk, ino', m)} | 0 <= m < LOGICAL ::
                Ptr(disk, ino', m) == if m == l then b else Ptr(old(disk), ino, m)
      ensures ok ==> if t == 0 then ino'.indirect == ino.indirect && Marked(blockBmp) == old(Marked(blockBmp)) + {b}
                     else l >= 12 && ino.indirect == 0 && ino'.indirect == t && FIRST_DATA <= t < n && t != b
                          && t !in old(Marked(blockBmp)) && Marked(blockBmp) == old(Marked(blockBmp)) + {b, t}
      ensures ok ==> forall q | 0 <= q < n && disk[q] != old(disk)[q] :: q == b || (q == ino'.indirect && q != 0)
      ensures !ok ==> l >= LOGICAL || Short(old(Fs()), if l >= 12 && ino.indirect == 0 then 2 else 1)
    {
      ghost var f := Fs();
      b, t := 0, 0;
      var got, p := AllocBlock();
      ino' := ino;
      if !got {
        FewLeft(f, Fs(), {});
        return false, ino, b, t;
      }
      b := p;
      ok, ino' := SetBlockPtr(ino, l, p);
      if !ok {
        if Full(Fs()) { FewLeft(f, Fs(), {p}); }
        return;
      }
      t := if ino'.indirect == ino.indirect then 0 else ino'.indirect;
      ghost var d := disk;
      PtrsApart(d, ino', p, blk);
      WriteBlock(p, blk);
    }

    /** The next block of a file that is being written; `start` is the volume before its first block. */
    method AppendChunk(i: nat, ino: Inode, bytes: seq<byte>, l: nat, ghost start: FS, ghost taken: set<nat>)
      returns (ok: bool, ino': Inode, ghost taken': set<nat>)
      requires Sized() && MetaUsed()
      requires Writing(start, Fs(), i, ino, bytes, l, taken) && l < Blocks(|bytes|)
      modifies this`blockBmp, this`disk, this`owner
      ensures Sized() && MetaUsed()
      ensures ok ==> l < LOGICAL && Writing(start, Fs(), i, ino', bytes, l + 1, taken')
      ensures ok ==> ino' == ino.(direct := ino'.direct, indirect := ino'.indirect)
      ensures !ok ==> l >= LOGICAL || Short(start, DataBlocks(|bytes|))
    {
      ghost var f, b, t := Fs(), 0, 0;
      taken' := taken;
      Unwritten(start, f, i, ino, bytes, l, taken);
      ok, ino', b, t := AppendBlock(i, ino, l, Chunk(bytes, l));
      if !ok {
        if l < LOGICAL { ShortBefore(start, f, taken, l, ino, |bytes|); }
        return;
      }
      taken' := taken + NewBits(b, t);
      owner := Claim(owner, i, l, b, t);
      WritingOn(start, f, Fs(), i, ino, ino', bytes, l, taken, b, t);
    }

    /** Writes `bytes` as whole blocks into an inode that names nothing yet. */
    method WriteData(i: nat, ino: Inode, bytes: seq<byte>) returns (ok: bool, ino': Inode)
      requires Sized() && MetaUsed() && owner.Keys <= Marked(blockBmp) && OwnedUsed(owner, Marked(blockBmp), n)
      requires Filled(disk, ino, bytes, 0) && Bare(ino)
      modifies this`blockBmp, this`disk, this`owner
      ensures Sized() && MetaUsed()
      ensures ok ==> Wrote(old(Fs()), Fs(), i, ino', bytes) && Blocks(|bytes|) <= LOGICAL
      ensures ok ==> ino' == ino.(direct := ino'.direct, indirect := ino'.indirect)
      ensures !ok ==> Blocks(|bytes|) > LOGICAL || Short(old(Fs()), DataBlocks(|bytes|))
    {
      ino' := ino;
      ghost var start, taken := Fs(), {};
      WritingNothing(start, i, ino, bytes);
      var needed := (|bytes| + BS - 1) / BS;
      var lbn := 0;
      while lbn < needed
        invariant 0 <= lbn <= needed && lbn <= LOGICAL
        invariant Sized() && MetaUsed() && Writing(start, Fs(), i, ino', bytes, lbn, taken)
        invariant ino' == ino.(direct := ino'.direct, indirect := ino'.indirect)
      {
        ok, ino', taken := AppendChunk(i, ino', bytes, lbn, start, taken);
        if !ok { return; }
        lbn := lbn + 1;
      }
      ok := true;
      WritingDone(start, Fs(), i, ino', bytes, taken);
    }

    /** Reads up to `sz` bytes of the file from `off` on, block by block; holes read as zeros. */
    method ReadInodeData(ino: Inode, off: nat, sz: nat) returns (out: seq<byte>)
      requires Sized()
      ensures out == if off >= ino.size then [] else Content(disk, ino)[off..Min(off + sz, ino.size)]
    {
      out := [];
      if off >= ino.size { return; }
      var len := if off + sz > ino.size then ino.size - off else sz;
      var lbn, end := off / BS, (off + len + BS - 1) / BS;
      while lbn < end
        invariant off / BS <= lbn <= end
        invariant off + |out| == if lbn == end then off + len else Max(off, lbn * BS)
        invariant BytesFrom(disk, ino, off, out)
        decreases end - lbn
      {
        var p := Ptr(disk, ino, lbn);
        var blk := if p != 0 && p < |disk| then disk[p] else ZeroBlock;
        var at := lbn * BS;
        var from := if off > at then off - at else 0;
        var to := if at + BS > off + len then off + len - at else BS;
        MoreBytes(disk, ino, off, out, lbn, from, to, blk);
        out := out + blk[from..to];
        lbn := lbn + 1;
      }
    }

    // ------------------------------------------------------------ directories

    /** Looks a name up in the blocks of an inode, whatever it is. */
    method LookupInDir(dir: Inode, name: Name) returns (r: Look)
      ensures r == LookIn(disk, dir, name, Blocks(dir.size))
    {
      var entries := (dir.size + BS - 1) / BS;
      var lbn := 0;
      while lbn < entries
        invariant 0 <= lbn <= entries && LookIn(disk, dir, name, lbn) == Missing
      {
        var p := Ptr(disk, dir, lbn);
        if p != 0 && p < |disk| {
          r := LookupInBlock(disk[p], name);
          if r != Missing {
            LookEarly(disk, dir, name, lbn + 1, entries);
            return;
          }
        }
        lbn := lbn + 1;
      }
      r := Missing;
    }

    /** The first block of a directory with room for the entry, and that block with the entry in it. */
    method PlaceEntry(dir: Inode, name: Name, j: nat, ft: byte) returns (done: bool, lbn: nat, blk: Block)
      requires Directory(disk, dirs, dir) && Reads(disk, dirs)
      requires NameOk(name) && 0 < j <= INODES
      ensures done <==> AnyRoom(DirRecs(disk, dirs, dir, dir.size / BS), MinLen(|name|))
      ensures done ==> lbn < dir.size / BS && DirBlock(blk)
      ensures done ==> OneMore(dirs[Ptr(disk, dir, lbn)], Parse(blk, 0), name, j) && Typed(Parse(blk, 0), name, j, ft)
    {
      var blocks := (dir.size + BS - 1) / BS;
      lbn, blk := 0, ZeroBlock;
      while lbn < blocks
        invariant lbn <= blocks == dir.size / BS
        invariant DirBlocks(disk, dirs, dir, lbn) && !AnyRoom(DirRecs(disk, dirs, dir, lbn), MinLen(|name|))
      {
        var p := Ptr(disk, dir, lbn);
        if p != 0 {
          assert Holds(disk, dirs, p);
          done, blk := AddToBlock(disk[p], name, j, ft);
          if done {
            RoomSomewhere(disk, dirs, dir, lbn, blocks, MinLen(|name|));
            return;
          }
          ValidAppend(DirRecs(disk, dirs, dir, lbn), dirs[p], MinLen(|name|));
        }
        lbn := lbn + 1;
      }
      done := false;
    }

    /** The entry goes into a block that directory `d` has. */
    method AddInPlace(d: nat, name: Name, j: nat, ft: byte) returns (done: bool)
      requires WF(Fs()) && IsDirAt(Fs(), d) && Found(Fs(), d, name) == None && NameOk(name) && !Dots(name)
      requires 11 <= j <= INODES && j != d && j - 1 in Marked(inodeBmp) && Unnamed(Fs(), j)
      modifies this`disk, this`dirs, this`parent
      ensures done <==> Roomy(old(Fs()), d, name)
      ensures done ==> Added(old(Fs()), Fs(), d, name, j) && Typed(RecsOf(Fs(), d), name, j, ft)
      ensures !done ==> Fs() == old(Fs())
    {
      var lbn, blk;
      done, lbn, blk := PlaceEntry(inodes[d - 1], name, j, ft);
      if done {
        ghost var f := Fs();
        DirBlockAt(f, d, lbn);
        EntryAdded(f, d, lbn, blk, name, j);
        var p := Ptr(disk, inodes[d - 1], lbn);
        WriteBlock(p, blk);
        dirs := dirs[p := Parse(blk, 0)];
        parent := parent[j := (d, name)];
        assert Fs() == Rewritten(f, d, lbn, blk).(parent := f.parent[j := (d, name)]);
        TypedInPlace(f, Fs(), d, lbn, blk, name, j, ft);
      }
    }

    /** A new block, first one free record, then only `rec`, is put behind the last block of directory `d`. */
    method GrowDir(d: nat, rec: Rec) returns (ok: bool, ghost b: Option<nat>, ghost between: Disk, ghost dir': Inode)
      requires Sized() && MetaUsed() && 0 < d <= INODES && 8 + |rec.name| <= BS && |rec.name| <= 255
      requires inodes[d - 1].indirect == 0 || (FIRST_DATA <= inodes[d - 1].indirect < n && inodes[d - 1].indirect in Marked(blockBmp))
      modifies this`blockBmp, this`disk, this`inodes
      ensures Sized()
      ensures !ok ==> NotGrown(old(Fs()), Fs(), d, b, Put16(ZeroBlock, 4, BS))
      ensures ok ==> b.Some? && Grew(old(Fs()), Fs(), d, rec, b.value, Put16(ZeroBlock, 4, BS), between, dir')
    {
      var dir, blocks := inodes[d - 1], (inodes[d - 1].size + BS - 1) / BS;
      b, between, dir' := None, disk, dir;
      var got, newblk := AllocBlock();
      if !got { ok := false; return; }
      b := Some(newblk);
      WriteBlock(newblk, Put16(ZeroBlock, 4, BS));
      ok, dir := SetBlockPtr(dir, blocks, newblk);
      if !ok { return; }
      between, dir' := disk, dir;
      WriteInode(d, dir.(size := dir.size + BS, sectors := dir.sectors + 8));
      WriteBlock(newblk, Written(disk[newblk], 0, rec));
    }

    /** The entry becomes the only record of a new block at the end of directory `d`. */
    method AddInNewBlock(d: nat, name: Name, j: nat, ft: byte) returns (ok: bool)
      requires WF(Fs()) && IsDirAt(Fs(), d) && Found(Fs(), d, name) == None && NameOk(name) && !Dots(name)
      requires 11 <= j <= INODES && j != d && j - 1 in Marked(inodeBmp) && Unnamed(Fs(), j) && !Roomy(Fs(), d, name)
      modifies this`blockBmp, this`disk, this`inodes, this`owner, this`dirs, this`parent
      ensures ok ==> Added(old(Fs()), Fs(), d, name, j) && Typed(RecsOf(Fs(), d), name, j, ft)
      ensures !ok ==> WF(Fs()) && Others(old(Fs()), Fs(), {})
      ensures !ok ==> AtLimit(old(Fs()), d) || Short(old(Fs()), Growth(Ino(old(Fs()), d)))
    {
      ghost var f, was := Fs(), inodes[d - 1];
      OwnBlocks(f, d);
      assert Slot(f.disk, was, LOGICAL) == was.indirect;
      var rec := Rec(j, BS, ft, name);
      ghost var b, between, dir;
      ok, b, between, dir := GrowDir(d, rec);
      if !ok {
        FailedGrow(f, Fs(), d, b, Put16(ZeroBlock, 4, BS));
        return;
      }
      ghost var g := Fs();
      owner := Claim(owner, d, was.size / BS, b.value, NewTable(was, dir));
      dirs := dirs[b.value := One(rec)];
      parent := parent[j := (d, name)];
      NewBlockAdded(f, g, d, b.value, Put16(ZeroBlock, 4, BS), between, dir, rec, Fs());
    }

    /** Gives directory `d` an entry `name` for inode `j`, unless it has one of that name. */
    method DirAddEntry(d: nat, name: Name, j: nat, ft: byte) returns (ok: bool)
      requires WF(Fs()) && 0 < d <= INODES && NameOk(name) && !Dots(name)
      requires 11 <= j <= INODES && j != d && j - 1 in Marked(inodeBmp) && Unnamed(Fs(), j)
      modifies this`blockBmp, this`disk, this`inodes, this`owner, this`dirs, this`parent
      ensures ok ==> IsDirAt(old(Fs()), d) && Found(old(Fs()), d, name) == None && Added(old(Fs()), Fs(), d, name, j)
      ensures ok ==> Typed(RecsOf(Fs(), d), name, j, ft)
      ensures !ok ==> WF(Fs()) && Others(old(Fs()), Fs(), {})
      ensures !ok ==> || !IsDirAt(old(Fs()), d) || Found(old(Fs()), d, name).Some?
                      || (!Roomy(old(Fs()), d, name) && (AtLimit(old(Fs()), d) || Short(old(Fs()), Growth(Ino(old(Fs()), d)))))
    {
      ghost var f := Fs();
      KeptSelf(f);
      assert InodeOk(f, d);
      var dir := inodes[d - 1];
      if !IsDir(dir) { return false; }
      var there := LookupInDir(dir, name);
      LookAtDir(f, d, name);
      if there != Missing { return false; }
      ok := AddInPlace(d, name, j, ft);
      if !ok {
        ok := AddInNewBlock(d, name, j, ft);
      }
    }

    /** The first block of a directory with an entry of this name, and that block without it. */
    method TakeOutEntry(dir: Inode, name: Name) returns (found: bool, lbn: nat, blk: Block)
      requires Directory(disk, dirs, dir) && Reads(disk, dirs)
      ensures found <==> Lookup(disk, dirs, dir, name).Some?
      ensures found ==> lbn < dir.size / BS && DirBlock(blk)
      ensures found ==> OneMore(Parse(blk, 0), dirs[Ptr(disk, dir, lbn)], name, Lookup(disk, dirs, dir, name).value)
    {
      var blocks := (dir.size + BS - 1) / BS;
      lbn, blk := 0, ZeroBlock;
      while lbn < blocks
        invariant lbn <= blocks == dir.size / BS
        invariant DirBlocks(disk, dirs, dir, lbn) && Find(DirRecs(disk, dirs, dir, lbn), name) == None
      {
        var p := Ptr(disk, dir, lbn);
        if p != 0 {
          assert Holds(disk, dirs, p);
          ScanBlock(disk, dirs, dir, lbn, blocks, name);
          found, blk := RemoveFromBlock(disk[p], name);
          if found { return; }
        }
        lbn := lbn + 1;
      }
      found := false;
    }

    /** Takes the entry `name` out of directory `d`. */
    method DirRemoveEntry(d: nat, name: Name) returns (ok: bool)
      requires WF(Fs()) && 0 < d <= INODES && !Dots(name)
      modifies this`disk, this`dirs
      ensures ok <==> IsDirAt(old(Fs()), d) && Found(old(Fs()), d, name).Some?
      ensures ok ==> Lost(old(Fs()), Fs(), d, name, Found(old(Fs()), d, name).value)
      ensures !ok ==> Fs() == old(Fs())
    {
      ghost var f := Fs();
      assert InodeOk(f, d);
      var dir := inodes[d - 1];
      if !IsDir(dir) { return false; }
      var lbn, blk;
      ok, lbn, blk := TakeOutEntry(dir, name);
      if ok {
        DirBlockAt(f, d, lbn);
        EntryLost(f, d, lbn, blk, name, Found(f, d, name).value);
        var p := Ptr(disk, dir, lbn);
        WriteBlock(p, blk);
        dirs := dirs[p := Parse(blk, 0)];
        assert Fs() == Rewritten(f, d, lbn, blk);
      }
    }

    // ------------------------------------------------------------ whole files

    /** Writes the data of a file whose inode names nothing yet, then the inode; `f` is the volume with that inode. */
    method StoreFile(j: nat, ino: Inode, bytes: seq<byte>, ghost f: FS) returns (ok: bool)
      requires WF(f) && 0 < j <= INODES && j - 1 in f.ibits && Bare(Ino(f, j)) && !IsDir(Ino(f, j))
      requires |inodes| == INODES && Fs() == f.(inodes := inodes) && f.inodes == inodes[j - 1 := f.inodes[j - 1]]
      requires Bare(ino) && IsFile(ino)
      modifies this`blockBmp, this`disk, this`inodes, this`owner
      ensures ok ==> Stored(f, Fs(), j, bytes) && |bytes| <= LOGICAL * BS && Headed(inodes[j - 1], ino.mode, ino.links, |bytes|)
      ensures !ok ==> |bytes| > LOGICAL * BS || Short(f, DataBlocks(|bytes|))
    {
      var ino' := ino;
      ghost var start := Fs();
      ok, ino' := WriteData(j, ino, bytes);
      if !ok {
        if Short(start, DataBlocks(|bytes|)) { ShortMore(f, start, {}, DataBlocks(|bytes|)); }
        return;
      }
      ghost var grown := ino';
      ghost var g := Fs();
      ino' := ino'.(size := |bytes|, sectors := (|bytes| + BS - 1) / BS * BS / 512);
      WriteInode(j, ino');
      Sectors(|bytes|);
      FileStored(f, g, Fs(), j, grown, ino', bytes);
    }

    /** Gives a file new contents: its blocks are freed, and new ones taken. */
    method Overwrite(j: nat, bytes: seq<byte>) returns (ok: bool)
      requires WF(Fs()) && 0 < j <= INODES && IsFile(Ino(Fs(), j))
      modifies this`blockBmp, this`disk, this`inodes, this`owner, this`dirs
      ensures ok ==> Overwritten(old(Fs()), Fs(), j, bytes) && |bytes| <= LOGICAL * BS
      ensures !ok ==> |bytes| > LOGICAL * BS || Short(Emptied(old(Fs()), j), DataBlocks(|bytes|))
    {
      ghost var f := Fs();
      var ino := inodes[j - 1];
      assert InodeOk(f, j);
      ghost var gone := Named(disk, ino);
      OwnBlocks(f, j);
      FreeBlocks(ino);
      NamedIs(disk, ino);
      owner, dirs := owner - gone, dirs - gone;
      var bare := ino.(direct := NoBlocks, indirect := 0, size := 0, sectors := 0);
      FreedOk(f, j, gone, bare);
      ghost var g := Freed(f, j, gone, bare);
      ok := StoreFile(j, bare, bytes, g);
      if ok { StoredOver(f, g, Fs(), j, bytes); }
    }

    /** An inode, and an entry for it in directory `d`; `g` is the volume between the two. */
    method EnterFile(d: nat, name: Name) returns (ok: bool, j: nat, ghost g: FS)
      requires WF(Fs()) && IsDirAt(Fs(), d) && NameOk(name) && !Dots(name)
      modifies this
      ensures ok ==> 11 < j <= INODES && FileEntered(old(Fs()), g, Fs(), d, name, j)
      ensures !ok ==> Found(old(Fs()), d, name).Some? || NoSpaceFor(old(Fs()), d, name, 0)
    {
      ghost var f := Fs();
      g := f;
      ok, j := AllocInode();
      if !ok { return; }
      InodeTaken(f, j);
      assert InodeOk(f, d) && InodeOk(f, j);
      g := Fs();
      KeptSaysDir(f, g, d);
      ok := DirAddEntry(d, name, j, 1);
      if ok {
        assert Kept(f, g, j) && Kept(g, Fs(), j);
      } else {
        NoWayIn(f, g, d, name, {}, 0);
      }
    }

    /** A new file in directory `d`. */
    method Create(d: nat, name: Name, bytes: seq<byte>) returns (ok: bool, j: nat)
      requires WF(Fs()) && IsDirAt(Fs(), d) && NameOk(name) && !Dots(name)
      modifies this
      ensures ok ==> 0 < j <= INODES && Created(old(Fs()), Fs(), d, name, j, bytes) && |bytes| <= LOGICAL * BS
      ensures ok ==> Found(old(Fs()), d, name) == None
      ensures !ok ==> || |bytes| > LOGICAL * BS || Found(old(Fs()), d, name).Some?
                      || NoSpaceFor(old(Fs()), d, name, DataBlocks(|bytes|))
    {
      ghost var f, g := Fs(), Fs();
      ok, j, g := EnterFile(d, name);
      if !ok {
        MoreSpace(f, d, name, DataBlocks(|bytes|));
        return;
      }
      ghost var h := Fs();
      ok := StoreFile(j, Inode(0x81A4, 0, 1, 0, NoBlocks, 0), bytes, h);
      if ok {
        CreatedBy(f, g, h, Fs(), d, name, j, bytes);
      } else {
        NoSpaceLeft(f, g, h, d, name, j, DataBlocks(|bytes|));
      }
    }

    // ------------------------------------------------------------ paths

    /** Follows the components of a path from the root. */
    method ResolvePath(path: Path) returns (r: Look)
      requires WF(Fs())
      ensures r == Led(Fs(), path)
      ensures r.Hit? ==> 0 < r.inode <= INODES
    {
      var cur, k := ROOT, 0;
      while k < |path|
        invariant 0 <= k <= |path| && 0 < cur <= INODES
        invariant Led(Fs(), path) == Trace(Fs(), cur, path, k, |path|)
      {
        r := LookupInDir(inodes[cur - 1], path[k]);
        if !r.Hit? { return; }
        if !(0 < r.inode <= INODES) { return Outside; }
        cur, k := r.inode, k + 1;
      }
      r := Hit(cur);
    }

    /** Whether a path and its parent take the code to bytes of the volume only. */
    method StaysInside(path: Path) returns (inside: bool)
      requires WF(Fs())
      ensures inside <==> Inside(Fs(), path)
    {
      var there := ResolvePath(path);
      var up := ResolvePath(Base(path));
      inside := there != Outside && up != Outside;
    }

    /** Makes the file at `path` hold `bytes`, creating it if it is not there; `refused` for the error codes before any change. */
    method WriteFile(path: Path, bytes: seq<byte>) returns (ok: bool, refused: bool, ghost j: nat)
      requires WF(Fs()) && PathOk(path) && (|path| > 0 ==> !Dots(path[|path| - 1])) && Inside(Fs(), path)
      modifies this
      ensures ok ==> |bytes| <= LOGICAL * BS && !refused && 0 < j <= INODES && AfterWrite(old(Fs()), Fs(), path, j, bytes)
      ensures refused <==> WriteRefused(old(Fs()), path)
      ensures refused ==> !ok && Fs() == old(Fs())
      ensures !ok && !refused ==> CannotWrite(old(Fs()), path, |bytes|)
    {
      ghost var f := Fs();
      ok, refused, j := false, true, 0;
      if |path| == 0 { return; }
      var there := ResolvePath(path);
      var up := ResolvePath(Base(path));
      if !up.Hit? { return; }
      assert InodeOk(f, up.inode);
      if !IsDir(inodes[up.inode - 1]) { return; }
      if there.Hit? {
        j := there.inode;
        if !IsFile(inodes[there.inode - 1]) { return; }
        refused := false;
        ok := Overwrite(there.inode, bytes);
      } else {
        refused := false;
        var i;
        ok, i := Create(up.inode, path[|path| - 1], bytes);
        j := i;
      }
      if ok { WrittenStraight(f, Fs(), path, j, bytes); }
    }

    /** Reads the file at `path`, at most `size` bytes. */
    method ReadFile(path: Path, size: nat) returns (ok: bool, out: seq<byte>)
      requires WF(Fs()) && Led(Fs(), path) != Outside
      ensures ok <==> Led(Fs(), path).Hit? && IsFileAt(Fs(), Led(Fs(), path).inode)
      ensures ok ==> var bytes := Content(disk, Ino(Fs(), Led(Fs(), path).inode)); out == bytes[..Min(size, |bytes|)]
      ensures Clear(Fs(), path) ==> (ok <==> FileAt(Fs(), path).Some?)
      ensures Clear(Fs(), path) && ok ==> out == FileAt(Fs(), path).value[..Min(size, |FileAt(Fs(), path).value|)]
    {
      out := [];
      if Clear(Fs(), path) { ClearAgrees(Fs(), path, |path|); }
      var there := ResolvePath(path);
      if !there.Hit? { return false, out; }
      var ino := inodes[there.inode - 1];
      if !IsFile(ino) { return false, out; }
      ok := true;
      out := ReadInodeData(ino, 0, size);
    }

    /** Clears and frees inode `j`, whose blocks `gone` are free already; `g` is the volume before. */
    method ClearInode(j: nat, ghost g: FS, ghost gone: set<nat>)
      requires |inodes| == INODES && 0 < j <= INODES && Shape(g) && Fs() == g.(used := g.used - gone)
      modifies this
      ensures Fs() == Freed(g, j, gone, NoInode).(ibits := g.ibits - {j - 1})
    {
      owner, dirs := owner - gone, dirs - gone;
      WriteInode(j, NoInode);
      FreeInode(j);
    }

    /**
     Frees the blocks of inode `j`, clears it and frees it; `f` is the volume before the entry `name` of `d`, for inode
     `k`, was taken out.
     */
    method FreeFile(j: nat, ino: Inode, ghost f: FS, ghost d: nat, ghost name: Name, ghost k: nat)
      requires WF(f) && IsDirAt(f, d) && 0 < j <= INODES && j != d && ino == Ino(f, j) && Lost(f, Fs(), d, name, k)
      modifies this
      ensures Fs() == Freed(old(Fs()), j, Named(f.disk, ino), NoInode).(ibits := f.ibits - {j - 1})
      ensures j == k && 11 <= j ==> Unlinked(f, Fs(), d, name, j, Named(f.disk, ino))
    {
      ghost var g, gone := Fs(), Named(disk, ino);
      assert InodeOk(f, j) && Kept(f, g, j);
      OwnBlocks(f, j);
      SameNamed(f, g, j);
      FreeBlocks(ino);
      NamedIs(disk, ino);
      ClearInode(j, g, gone);
      if j == k && 11 <= j { UnlinkedBy(f, g, Fs(), d, name, j, gone); }
    }

    /** Removes the file at `path`. */
    method Unlink(path: Path) returns (ok: bool)
      requires WF(Fs()) && PathOk(path) && (|path| > 0 ==> !Dots(path[|path| - 1])) && Inside(Fs(), path)
      modifies this
      ensures ok <==> Removable(old(Fs()), path)
      ensures ok ==> AfterUnlink(old(Fs()), Fs(), path)
      ensures !ok ==> Fs() == old(Fs())
    {
      ghost var f := Fs();
      if |path| == 0 { return false; }
      var up := ResolvePath(Base(path));
      if !up.Hit? { return false; }
      var there := ResolvePath(path);
      if !there.Hit? { return false; }
      assert InodeOk(f, up.inode) && InodeOk(f, there.inode);
      if !IsDir(inodes[up.inode - 1]) { return false; }
      var ino := inodes[there.inode - 1];
      if IsDir(ino) { return false; }
      ok := TakeOut(up.inode, there.inode, ino, path[|path| - 1], path);
    }

    /** Takes the entry `name` out of directory `d`, and frees inode `j`. */
    method TakeOut(d: nat, j: nat, ino: Inode, name: Name, ghost path: Path) returns (ok: bool)
      requires WF(Fs()) && PathOk(path) && |path| > 0 && name == path[|path| - 1] && !Dots(name)
      requires Dest(Fs(), path) == Hit(d) && Led(Fs(), path) == Hit(j) && 0 < d <= INODES && 0 < j <= INODES
      requires IsDirAt(Fs(), d) && ino == Ino(Fs(), j) && !IsDir(ino)
      modifies this
      ensures ok <==> Removable(old(Fs()), path)
      ensures ok ==> AfterUnlink(old(Fs()), Fs(), path)
      ensures !ok ==> Fs() == old(Fs())
    {
      ghost var f := Fs();
      ok := DirRemoveEntry(d, name);
      if !ok { return; }
      ghost var g := Fs();
      FreeFile(j, ino, f, d, name, Found(f, d, name).value);
      RemovedBy(f, g, Fs(), path);
    }

    /** An inode and a block for a new directory. */
    method TakeBoth(ghost d: nat) returns (ok: bool, j: nat, b: nat)
      requires WF(Fs()) && IsDirAt(Fs(), d)
      modifies this`blockBmp, this`inodeBmp
      ensures ok ==> 11 < j <= INODES && j - 1 !in old(Marked(inodeBmp)) && FIRST_DATA <= b < n && b !in old(Marked(blockBmp))
      ensures ok ==> Fs() == old(Fs()).(ibits := old(Marked(inodeBmp)) + {j - 1}, used := old(Marked(blockBmp)) + {b})
      ensures ok ==> WF(Fs()) && Others(old(Fs()), Fs(), {}) && Unnamed(Fs(), j)
      ensures ok ==> j != d && IsDirAt(Fs(), d) && RecsOf(Fs(), d) == RecsOf(old(Fs()), d)
      ensures !ok ==> NoInodes(old(Fs())) || Short(old(Fs()), 1)
    {
      ghost var f := Fs();
      b := 0;
      ok, j := AllocInode();
      if !ok { return; }
      InodeTaken(f, j);
      assert InodeOk(f, d);
      ghost var f1 := Fs();
      ok, b := AllocBlock();
      if !ok { FewLeft(f, Fs(), {}); return; }
      BlockTaken(f1, b);
      TwoBits(f, f1, Fs(), d, j);
    }

    /** Writes the inode and the block of new directory `j`, then the inode of its parent. */
    method WriteNewDir(j: nat, b: nat, din: Inode, d: nat, pin: Inode) returns (ghost blk: Block)
      requires |inodes| == INODES && 0 < j <= INODES && 0 < d <= INODES && FIRST_DATA <= b < |disk|
      modifies this`inodes, this`disk, this`owner, this`dirs
      ensures DirBlock(blk) && Parse(blk, 0) == Two(Rec(j, 12, 2, [46]), Rec(d, 4084, 2, [46, 46]))
      ensures inodes == old(inodes)[j - 1 := din][d - 1 := pin] && disk == old(disk)[b := blk]
      ensures owner == old(owner)[b := (j, 0)] && dirs == old(dirs)[b := Parse(blk, 0)]
    {
      WriteInode(j, din);
      var dots := DotsBlock(j, d);
      WriteBlock(b, dots);
      WriteInode(d, pin);
      blk := dots;
      owner, dirs := owner[b := (j, 0)], dirs[b := Parse(blk, 0)];
    }

    /** A new directory in directory `d`; the inode of `d` is written back as it was read at the start. */
    method MakeDir(d: nat, name: Name) returns (ok: bool, j: nat)
      requires WF(Fs()) && IsDirAt(Fs(), d) && NameOk(name) && !Dots(name)
      modifies this
      ensures ok ==> 0 < j <= INODES && Made(old(Fs()), Fs(), d, name, j) && Found(old(Fs()), d, name) == None
      ensures !ok ==> Found(old(Fs()), d, name).Some? || NoSpaceFor(old(Fs()), d, name, 1)
    {
      ghost var f := Fs();
      var pin := inodes[d - 1];
      var b;
      ok, j, b := TakeBoth(d);
      if !ok {
        if Short(f, 1) { MoreShort(f, 1, 1 + if Roomy(f, d, name) then 0 else Growth(pin)); }
        return;
      }
      ghost var g := Fs();
      ok := DirAddEntry(d, name, j, 2);
      if !ok {
        NoWayIn(f, g, d, name, {b}, 1);
        return;
      }
      FinishDir(d, name, j, b, pin, f, g);
    }

    /** Writes the new directory, then its parent's inode as it was in `f`; in `g` inode and block are taken. */
    method FinishDir(d: nat, name: Name, j: nat, b: nat, pin: Inode, ghost f: FS, ghost g: FS)
      requires WF(f) && IsDirAt(f, d) && Found(f, d, name) == None && 11 < j <= INODES && j != d && j - 1 !in f.ibits
      requires g == f.(ibits := f.ibits + {j - 1}, used := f.used + {b}) && WF(g) && Others(f, g, {})
      requires IsDirAt(g, d) && RecsOf(g, d) == RecsOf(f, d) && Added(g, Fs(), d, name, j) && Typed(RecsOf(Fs(), d), name, j, 2)
      requires FIRST_DATA <= b < f.n && b !in f.used && pin == Ino(f, d)
      modifies this`inodes, this`disk, this`owner, this`dirs
      ensures Made(f, Fs(), d, name, j)
    {
      ghost var h := Fs();
      var din := Inode(0x41ED, BS, 2, 8, NoBlocks[0 := b], 0);
      ghost var blk := WriteNewDir(j, b, din, d, pin.(links := pin.links + 1));
      MadeBy(f, g, h, NewDir(h, j, b, din, blk), Fs(), d, name, j, b, din, blk, pin.links + 1);
    }

    /** Makes a directory at `path`; `refused` for the error codes before any change. */
    method Mkdir(path: Path) returns (ok: bool, refused: bool, ghost j: nat)
      requires WF(Fs()) && PathOk(path) && (|path| > 0 ==> !Dots(path[|path| - 1])) && Inside(Fs(), path)
      modifies this
      ensures ok ==> !refused && 0 < j <= INODES && AfterMkdir(old(Fs()), Fs(), path, j)
      ensures refused <==> MkdirRefused(old(Fs()), path)
      ensures refused ==> !ok && Fs() == old(Fs())
      ensures !ok && !refused ==> CannotMake(old(Fs()), path)
    {
      ghost var f := Fs();
      ok, refused, j := false, true, 0;
      var there := ResolvePath(path);
      if there.Hit? { return; }
      var up := ResolvePath(Base(path));
      if !up.Hit? { return; }
      assert InodeOk(f, up.inode);
      if !IsDir(inodes[up.inode - 1]) { return; }
      refused := false;
      var i;
      ok, i := MakeDir(up.inode, path[|path| - 1]);
      j := i;
      if ok { MadeStraight(f, Fs(), path, j); }
    }

    /** Whether a directory has entries other than `.` and `..`. */
    method DirIsEmpty(dir: Inode) returns (empty: bool)
      requires Directory(disk, dirs, dir) && Reads(disk, dirs)
      ensures empty <==> forall nm :: !Dots(nm) ==> Lookup(disk, dirs, dir, nm) == None
    {
      var blocks := (dir.size + BS - 1) / BS;
      var lbn := 0;
      DirRecsValid(disk, dirs, dir, blocks);
      OnlyDotsFind(DirRecs(disk, dirs, dir, blocks));
      while lbn < blocks
        invariant lbn <= blocks == dir.size / BS
        invariant DirBlocks(disk, dirs, dir, lbn) && OnlyDots(DirRecs(disk, dirs, dir, lbn))
      {
        var p := Ptr(disk, dir, lbn);
        if p != 0 {
          assert Holds(disk, dirs, p);
          empty := EmptyInBlock(disk[p]);
          OnlyDotsAppend(DirRecs(disk, dirs, dir, lbn), dirs[p]);
          if !empty {
            OccupiedEarly(disk, dirs, dir, lbn + 1, blocks);
            return;
          }
        }
        lbn := lbn + 1;
      }
      empty := true;
    }

    /**
     Frees the direct blocks of inode `j`, clears it and frees it; `f` is the volume before the entry `name` of `d`, for
     inode `k`, was taken out.
     */
    method FreeDir(j: nat, ino: Inode, ghost f: FS, ghost d: nat, ghost name: Name, ghost k: nat)
      requires WF(f) && IsDirAt(f, d) && 0 < j <= INODES && j != d && ino == Ino(f, j) && Lost(f, Fs(), d, name, k)
      modifies this
      ensures Fs() == Freed(old(Fs()), j, NamedDirectly(ino), NoInode).(ibits := f.ibits - {j - 1})
      ensures j == k && 11 <= j ==> Unlinked(f, Fs(), d, name, j, NamedDirectly(ino))
    {
      ghost var g, gone := Fs(), NamedDirectly(ino);
      assert InodeOk(f, j) && Kept(f, g, j);
      OwnBlocks(f, j);
      SameNamed(f, g, j);
      FreeDirect(ino);
      NamedDirectlyIs(disk, ino);
      OwnedDirectly(f, j);
      ClearInode(j, g, gone);
      if j == k && 11 <= j { UnlinkedBy(f, g, Fs(), d, name, j, gone); }
    }

    /** Whether `path` leads to an empty directory, and what its parent is taken to be. */
    method EmptyDirAt(path: Path) returns (ok: bool, up: nat, j: nat)
      requires WF(Fs()) && PathOk(path) && Inside(Fs(), path)
      ensures ok ==> 0 < up <= INODES && 0 < j <= INODES && Dest(Fs(), path) == Hit(up) && Led(Fs(), path) == Hit(j)
      ensures ok <==> |path| > 0 && Dest(Fs(), path).Hit? && IsDirAt(Fs(), Dest(Fs(), path).inode)
                      && Led(Fs(), path).Hit? && EmptyDir(Fs(), Led(Fs(), path).inode)
    {
      up, j := 0, 0;
      if |path| == 0 { ok := false; return; }
      var r := ResolvePath(Base(path));
      if !r.Hit? { ok := false; return; }
      up := r.inode;
      r := ResolvePath(path);
      if !r.Hit? { ok := false; return; }
      j := r.inode;
      assert InodeOk(Fs(), up) && InodeOk(Fs(), j);
      if !IsDir(inodes[up - 1]) { ok := false; return; }
      if !IsDir(inodes[j - 1]) { ok := false; return; }
      ok := DirIsEmpty(inodes[j - 1]);
    }

    /** Removes the empty directory at `path`. */
    method Rmdir(path: Path) returns (ok: bool)
      requires WF(Fs()) && PathOk(path) && (|path| > 0 ==> !Dots(path[|path| - 1])) && Inside(Fs(), path)
      modifies this
      ensures ok <==> DirRemovable(old(Fs()), path)
      ensures ok ==> AfterRmdir(old(Fs()), Fs(), path)
      ensures !ok ==> Fs() == old(Fs())
    {
      ghost var f := Fs();
      var up, j;
      ok, up, j := EmptyDirAt(path);
      if !ok { return; }
      var pin, din := inodes[up - 1], inodes[j - 1];
      ok := DirRemoveEntry(up, path[|path| - 1]);
      if !ok { return; }
      ghost var g, k := Fs(), Found(f, up, path[|path| - 1]).value;
      FreeDir(j, din, f, up, path[|path| - 1], k);
      ghost var h := Fs();
      pin := pin.(links := if pin.links > 2 then pin.links - 1 else pin.links);
      WriteInode(up, pin);
      DirRemovedBy(f, g, h, Fs(), path, pin.links);
    }

    // ------------------------------------------------------------ a new volume

    /** Formats a partition of |raw| blocks, whatever it held. */
    constructor Mkfs(raw: Disk)
      requires 32 <= |raw| <= BITS
      ensures n == |raw| && WF(Fs()) && NewVolume(Fs()) && Formatted(Fs())
    {
      var bmp, ibmp := FormatBitmaps(|raw|);
      var rootBlk, lostBlk := FormatDirs();
      n, blockBmp, inodeBmp := |raw|, bmp, ibmp;
      var table := FormatInodes();
      inodes, disk := table, (seq(12, _ => ZeroBlock) + [rootBlk, lostBlk]) + raw[14..];
      owner := map[12 := (2, 0), 13 := (11, 0)];
      dirs := map[12 := Parse(rootBlk, 0), 13 := Parse(lostBlk, 0)];
      parent := map[11 := (2, LOST_FOUND)];
      new;
      assert disk[12] == rootBlk && disk[13] == lostBlk;
      NewVolumeOk(Fs());
    }
  }

  /** The inode table of a new volume. */
  method FormatInodes() returns (inodes: seq<Inode>)
    ensures |inodes| == INODES && inodes[1] == RootInode && inodes[10] == LostInode
    ensures forall i | 0 <= i < INODES && i != 1 && i != 10 :: inodes[i] == NoInode
  {
    inodes := seq(INODES, _ => NoInode)[1 := RootInode][10 := LostInode];
  }

  /** The bitmaps of a new volume: metadata, two directory blocks and the bits beyond the end; inodes 1 to 11. */
  method FormatBitmaps(n: nat) returns (bmp: Bitmap, ibmp: Bitmap)
    requires 32 <= n <= BITS
    ensures forall b: nat :: b in Marked(bmp) <==> b < 14 || n <= b < BITS
    ensures forall i: nat :: i in Marked(ibmp) <==> i < 11 || INODES <= i < BITS
  {
    var zero: Bitmap := seq(4096, _ => 0);
    NoneMarked(zero);
    bmp := MarkRange(zero, 0, 14);
    bmp := MarkRange(bmp, n, BITS);
    ibmp := MarkRange(zero, 0, 11);
    ibmp := MarkRange(ibmp, INODES, BITS);
  }

  method FormatDirs() returns (rootBlk: Block, lostBlk: Block)
    ensures DirBlock(rootBlk) && Parse(rootBlk, 0) == NewRoot() && RootRecs(Parse(rootBlk, 0))
    ensures DirBlock(lostBlk) && Parse(lostBlk, 0) == NewLost() && NoRecs(Parse(lostBlk, 0))
  {
    rootBlk := RootBlock();
    RootSays(Parse(rootBlk, 0));
    lostBlk := DotsBlock(11, 2);
    DotsSay(11, 2, 12, 4084);
  }

  lemma TwoBits(f: FS, f1: FS, g: FS, d: nat, j: nat)
    requires WF(f) && WF(f1) && WF(g) && IsDirAt(f, d) && Others(f, f1, {}) && Others(f1, g, {}) && Unnamed(f1, j)
    ensures Others(f, g, {}) && IsDirAt(g, d) && RecsOf(g, d) == RecsOf(f, d) && Unnamed(g, j)
  {
    OthersThrough(f, f1, g, {}, {});
    KeptSaysDir(f, g, d);
    forall e: nat, nm | !Dots(nm)
      ensures Found(g, e, nm) != Some(j)
    {
      OthersFound(f1, g, {}, e, nm);
    }
  }

  /** The table an inode has got, 0 if none. */
  function NewTable(was: Inode, ino: Inode): nat { if ino.indirect == was.indirect then 0 else ino.indirect }

  /**
   Directory `d` has block `b` more, with `rec` as its only record; `between` is the disk before that record was written,
   when the block was `free`.
   */
  ghost predicate Grew(f: FS, g: FS, d: nat, rec: Rec, b: nat, free: Block, between: Disk, dir: Inode)
    requires |f.inodes| == INODES && 0 < d <= INODES && 8 + |rec.name| <= BS && |rec.name| <= 255
  {
    var was := f.inodes[d - 1];
    && PointedAt(f.used, f.disk, was, Blocks(was.size), b, free, between, dir)
    && g.used == f.used + NewBits(b, NewTable(was, dir)) && g.disk == between[b := Written(between[b], 0, rec)]
    && g.inodes == f.inodes[d - 1 := dir.(size := dir.size + BS, sectors := dir.sectors + 8)]
    && g == f.(used := g.used, disk := g.disk, inodes := g.inodes)
  }

  /** Directory `d` is as it was; at most block `b` was taken for it. */
  ghost predicate NotGrown(f: FS, g: FS, d: nat, b: Option<nat>, free: Block)
    requires |f.inodes| == INODES && 0 < d <= INODES
  {
    var was := f.inodes[d - 1];
    && (b.Some? ==> FIRST_DATA <= b.value < f.n && b.value < |f.disk| && b.value !in f.used)
    && (Full(g) || Blocks(was.size) >= LOGICAL)
    && (b.Some? && Blocks(was.size) < LOGICAL ==> Blocks(was.size) >= 12 && was.indirect == 0)
    && g == if b.None? then f else
              f.(used := f.used + {b.value}).(disk := f.disk[b.value := free])
  }

  lemma Sectors(len: nat)
    ensures (len + BS - 1) / BS * BS / 512 == Blocks(len) * 8
  {
    var k := Blocks(len);
    assert k * BS == k * 8 * 512;
  }

  lemma NewBlockAdded(f: FS, g: FS, d: nat, b: nat, free: Block, between: Disk, dir: Inode, rec: Rec, f': FS)
    requires WF(f) && IsDirAt(f, d) && Found(f, d, rec.name) == None && NameOk(rec.name) && !Dots(rec.name) && !Roomy(f, d, rec.name)
    requires 11 <= rec.inode <= INODES && rec.inode != d && rec.inode - 1 in f.ibits && Unnamed(f, rec.inode) && rec.len == BS
    requires Grew(f, g, d, rec, b, free, between, dir)
    requires f' == g.(owner := Claim(f.owner, d, Ino(f, d).size / BS, b, NewTable(Ino(f, d), dir)),
                      dirs := f.dirs[b := One(rec)], parent := f.parent[rec.inode := (d, rec.name)])
    ensures Added(f, f', d, rec.name, rec.inode) && Typed(RecsOf(f', d), rec.name, rec.inode, rec.ftype)
  {
    var t, dir' := NewTable(Ino(f, d), dir), dir.(size := dir.size + BS, sectors := dir.sectors + 8);
    assert Blocks(Ino(f, d).size) == Ino(f, d).size / BS;
    SingleRecord(between[b], rec);
    ExtendedBy(f, d, b, t, between, dir, dir', free, Written(between[b], 0, rec));
    EntryAppended(f, d, b, t, f'.disk, dir', rec);
    assert f' == Longer(f, d, b, t, f'.disk, dir', One(rec)).(parent := f.parent[rec.inode := (d, rec.name)]);
  }

  /** A volume that is full after at most the blocks of `s` were taken had no others. */
  lemma FewLeft(f: FS, f': FS, s: set<nat>)
    requires Full(f') && f'.n == f.n && f'.used <= f.used + s
    ensures Short(f, |s| + 1)
  {
    forall b: nat | b < f.n
      ensures b in f.used || b in s
    {
      assert b in f'.used;
    }
    assert FreeWithin(f, s);
  }

  /** A volume that is short after the blocks of `t` were taken was short of those, too. */
  lemma ShortMore(f: FS, g: FS, t: set<nat>, k: nat)
    requires g.n == f.n && g.used <= f.used + t && Short(g, k)
    ensures Short(f, |t| + k)
  {
    var s :| FreeWithin(g, s) && |s| < k;
    assert FreeWithin(f, s + t) && |s + t| <= |s| + |t|;
  }

  lemma MoreShort(f: FS, k: nat, m: nat)
    requires Short(f, k) && k <= m
    ensures Short(f, m)
  {
    var s: set<nat> :| FreeWithin(f, s) && |s| < k;
    assert FreeWithin(f, s) && |s| < m;
  }

  /** An entry that could not be made in `g`, where `taken` was taken before. */
  lemma NoWayIn(f: FS, g: FS, d: nat, name: Name, taken: set<nat>, k: nat)
    requires Shape(f) && Shape(g) && IsDirAt(f, d) && IsDirAt(g, d) && RecsOf(g, d) == RecsOf(f, d) && Ino(g, d) == Ino(f, d)
    requires g.n == f.n && g.used == f.used + taken && |taken| <= k
    requires || Found(g, d, name).Some?
             || (!Roomy(g, d, name) && (AtLimit(g, d) || Short(g, Growth(Ino(g, d)))))
    ensures Found(f, d, name).Some? || NoSpaceFor(f, d, name, k)
  {
    if Short(g, Growth(Ino(g, d))) {
      ShortMore(f, g, taken, Growth(Ino(g, d)));
      MoreShort(f, |taken| + Growth(Ino(g, d)), k + Growth(Ino(f, d)));
    }
  }

  lemma MoreSpace(f: FS, d: nat, name: Name, k: nat)
    requires Shape(f) && IsDirAt(f, d)
    ensures NoSpaceFor(f, d, name, 0) ==> NoSpaceFor(f, d, name, k)
  {
    var grown := if Roomy(f, d, name) then 0 else Growth(Ino(f, d));
    if Short(f, grown) { MoreShort(f, grown, k + grown); }
  }

  /** Inode `j` was taken (g), and entered in directory `d` (h). */
  ghost predicate FileEntered(f: FS, g: FS, h: FS, d: nat, name: Name, j: nat)
    requires Shape(f) && 0 < j <= INODES
  {
    && IsDirAt(f, d) && Found(f, d, name) == None && j != d && j - 1 !in f.ibits
    && g == f.(ibits := f.ibits + {j - 1}) && WF(g) && Others(f, g, {})
    && IsDirAt(g, d) && RecsOf(g, d) == RecsOf(f, d) && Added(g, h, d, name, j) && Ino(h, j) == NoInode
    && Typed(RecsOf(h, d), name, j, 1)
  }

  lemma NoSpaceLeft(f: FS, g: FS, h: FS, d: nat, name: Name, j: nat, k: nat)
    requires Shape(f) && 0 < j <= INODES && FileEntered(f, g, h, d, name, j)
    ensures Short(h, k) ==> NoSpaceFor(f, d, name, k)
  {
    if Short(h, k) {
      ShortMore(f, h, h.used - f.used, k);
      if Roomy(f, d, name) { assert h.used - f.used == {}; }
    }
  }

  /** A file of which `l` blocks are written, having taken the blocks `taken`. */
  ghost predicate Writing(start: FS, f: FS, i: nat, ino: Inode, bytes: seq<byte>, l: nat, taken: set<nat>) {
    && f.n == start.n && Counted(start.used, f.used, taken, l, ino.indirect)
    && f.owner.Keys <= f.used
    && Grown(start.used, start.disk, start.owner, f.used, f.disk, f.owner, ino, i) && Filled(f.disk, ino, bytes, l)
  }

  /** Its next block is not there, and its table, if it has one, is a block of its own. */
  lemma Unwritten(start: FS, f: FS, i: nat, ino: Inode, bytes: seq<byte>, l: nat, taken: set<nat>)
    requires Writing(start, f, i, ino, bytes, l, taken) && |f.disk| == f.n
    ensures Ptr(f.disk, ino, l) == 0
    ensures ino.indirect == 0 || (FIRST_DATA <= ino.indirect < f.n && ino.indirect in f.used)
  {
    assert Slot(f.disk, ino, LOGICAL) == ino.indirect;
    if ino.indirect != 0 {
      assert TakenBy(start.used, f.disk, f.owner, ino, i, ino.indirect);
    }
  }

  lemma WritingNothing(start: FS, i: nat, ino: Inode, bytes: seq<byte>)
    requires |start.disk| == start.n && start.owner.Keys <= start.used && OwnedUsed(start.owner, start.used, start.n)
    requires Bare(ino) && Filled(start.disk, ino, bytes, 0)
    ensures Writing(start, start, i, ino, bytes, 0, {})
  {
    forall s | 0 <= s < SLOTS ensures Slot(start.disk, ino, s) == 0 { BareSlots(start.disk, ino, s); }
  }

  lemma WritingDone(start: FS, f: FS, i: nat, ino: Inode, bytes: seq<byte>, taken: set<nat>)
    requires Writing(start, f, i, ino, bytes, Blocks(|bytes|), taken) && Blocks(|bytes|) <= LOGICAL
    ensures Wrote(start, f, i, ino, bytes)
  {
    assert Blocks(|bytes|) > 12 ==> Ptr(f.disk, ino, 12) != 0;
    assert f.used - start.used == taken;
  }

  /** One block more. */
  lemma WritingOn(start: FS, f: FS, f': FS, i: nat, ino: Inode, ino': Inode, bytes: seq<byte>, l: nat, taken: set<nat>, b: nat, t: nat)
    requires Writing(start, f, i, ino, bytes, l, taken) && |f.disk| == f.n && f'.n == f.n && |f'.disk| == f.n
    requires l < LOGICAL && FIRST_DATA <= b < f.n && b !in f.used && f'.disk[b] == Chunk(bytes, l)
    requires forall m {:trigger Ptr(f'.disk, ino', m)} | 0 <= m < LOGICAL ::
               Ptr(f'.disk, ino', m) == if m == l then b else Ptr(f.disk, ino, m)
    requires if t == 0 then ino'.indirect == ino.indirect && f'.used == f.used + {b}
             else l >= 12 && ino.indirect == 0 && ino'.indirect == t && FIRST_DATA <= t < f.n && t != b
                  && t !in f.used && f'.used == f.used + {b, t}
    requires forall q | 0 <= q < f.n && f'.disk[q] != f.disk[q] :: q == b || (q == ino'.indirect && q != 0)
    requires f'.owner == Claim(f.owner, i, l, b, t)
    ensures Writing(start, f', i, ino', bytes, l + 1, taken + NewBits(b, t))
  {
    Unwritten(start, f, i, ino, bytes, l, taken);
    GrowStep(start.used, start.disk, start.owner, f.used, f.disk, f.owner, ino, i, f'.used, f'.disk, ino', l, b, t);
    FillStep(f.disk, f'.disk, ino, ino', bytes, l, b, i, f.owner);
    CountedOn(start.used, f.used, taken, l, ino.indirect, b, t, ino'.indirect, f'.used);
  }

  /** The blocks `taken` for `l` logical blocks and perhaps a table. */
  ghost predicate Counted(used0: set<nat>, used: set<nat>, taken: set<nat>, l: nat, table: nat) {
    used == used0 + taken && used0 !! taken && |taken| == l + if table == 0 then 0 else 1
  }

  lemma CountedOn(used0: set<nat>, used: set<nat>, taken: set<nat>, l: nat, table: nat, b: nat, t: nat, table': nat, used': set<nat>)
    requires Counted(used0, used, taken, l, table) && b !in used
    requires if t == 0 then table' == table && used' == used + {b}
             else table == 0 && table' == t && t != b && t !in used && used' == used + {b, t}
    ensures Counted(used0, used', taken + NewBits(b, t), l + 1, table')
  {
    assert |NewBits(b, t)| == if t == 0 then 1 else 2;
    assert |taken + NewBits(b, t)| == |taken| + |NewBits(b, t)|;
  }

  /** No block was left for logical block `l`, after `taken`: there were not enough for all `len` bytes. */
  lemma ShortBefore(start: FS, f: FS, taken: set<nat>, l: nat, ino: Inode, len: nat)
    requires f.n == start.n && Counted(start.used, f.used, taken, l, ino.indirect)
    requires l < Blocks(len) && (ino.indirect != 0 ==> l >= 12) && Short(f, if l >= 12 && ino.indirect == 0 then 2 else 1)
    ensures Short(start, DataBlocks(len))
  {
    var k := if l >= 12 && ino.indirect == 0 then 2 else 1;
    ShortMore(start, f, taken, k);
    assert |taken| + k <= DataBlocks(len);
  }

  /** Growing a directory failed after it had taken at most one block. */
  lemma FailedGrow(f: FS, f': FS, d: nat, b: Option<nat>, free: Block)
    requires WF(f) && IsDirAt(f, d) && NotGrown(f, f', d, b, free)
    ensures WF(f') && Others(f, f', {}) && (AtLimit(f, d) || Short(f, Growth(Ino(f, d))))
  {
    assert Blocks(Ino(f, d).size) == Ino(f, d).size / BS;
    if Full(f') {
      FewLeft(f, f', if b.None? then {} else {b.value});
      if b.None? { MoreShort(f, 1, Growth(Ino(f, d))); }
    }
    KeptSelf(f);
    if b.Some? {
      var g := f.(used := f.used + {b.value});
      BlockTaken(f, b.value);
      Scribbled(g, b.value, free);
      OthersThrough(f, g, f', {}, {});
    }
  }

  /** `out` is what the file holds from `off` on. */
  ghost predicate BytesFrom(disk: Disk, ino: Inode, off: nat, out: seq<byte>) {
    forall k | 0 <= k < |out| :: out[k] == ByteAt(disk, ino, off + k)
  }

  lemma WithinBlock(l: nat, x: nat)
    requires x < BS
    ensures (l * BS + x) / BS == l && (l * BS + x) % BS == x
  {
  }

  lemma MoreBytes(disk: Disk, ino: Inode, off: nat, out: seq<byte>, l: nat, from: nat, to: nat, blk: Block)
    requires BytesFrom(disk, ino, off, out) && from <= to <= BS && l * BS + from == off + |out|
    requires blk == if 0 < Ptr(disk, ino, l) < |disk| then disk[Ptr(disk, ino, l)] else ZeroBlock
    ensures BytesFrom(disk, ino, off, out + blk[from..to])
  {
    var more := out + blk[from..to];
    forall k | 0 <= k < |more|
      ensures more[k] == ByteAt(disk, ino, off + k)
    {
      if k >= |out| {
        var x := k - |out| + from;
        WithinBlock(l, x);
        assert off + k == l * BS + x;
      }
    }
  }
}
