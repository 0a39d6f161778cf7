/** What the driver's operations mean for paths. */
module Ext2Paths {
  import opened Basics
  import opened Ext2Bytes
  import opened Ext2Dir
  import opened Ext2Volume
  import opened Ext2State
  import opened Ext2Walk

  // ---------------------------------------------------------------- two volumes compared by their entries

  /** Every entry of `fs` is an entry of `fs'`. */
  ghost predicate Extends(fs: FS, fs': FS)
    requires Shape(fs) && Shape(fs')
  {
    forall d: nat, name {:trigger Found(fs', d, name)} {:trigger Found(fs, d, name)} |
      Found(fs, d, name).Some? :: Found(fs', d, name) == Found(fs, d, name)
  }

  lemma {:induction false} ExtendsWalk(fs: FS, fs': FS, d: nat, path: Path, k: nat, hi: nat)
    requires Shape(fs) && Shape(fs') && Extends(fs, fs') && hi <= |path|
    ensures Walk(fs, d, path, k, hi).Some? ==> Walk(fs', d, path, k, hi) == Walk(fs, d, path, k, hi)
    decreases hi - k
  {
    if k < hi && Found(fs, d, path[k]).Some? {
      ExtendsWalk(fs, fs', Found(fs, d, path[k]).value, path, k + 1, hi);
    }
  }

  /** `fs'` has the entries of `fs` and others only for `j`, from which nothing leads on. */
  ghost predicate OnlyLeaf(fs: FS, fs': FS, j: nat)
    requires Shape(fs) && Shape(fs')
  {
    && (forall d: nat, name {:trigger Found(fs', d, name)} {:trigger Found(fs, d, name)} ::
          Found(fs', d, name) == Found(fs, d, name) || (Found(fs', d, name) == Some(j) && Found(fs, d, name) == None))
    && (forall name :: Found(fs', j, name) == None)
  }

  lemma {:induction false} LeafWalk(fs: FS, fs': FS, j: nat, d: nat, path: Path, k: nat, hi: nat)
    requires Shape(fs) && Shape(fs') && OnlyLeaf(fs, fs', j) && hi <= |path|
    ensures Walk(fs', d, path, k, hi) == Walk(fs, d, path, k, hi)
            || (Walk(fs', d, path, k, hi) == Some(j) && Walk(fs, d, path, k, hi) == None)
    decreases hi - k
  {
    if k < hi {
      assert Found(fs', d, path[k]) == Found(fs, d, path[k]) || Found(fs', d, path[k]) == Some(j);
      if Found(fs', d, path[k]).Some? {
        LeafWalk(fs, fs', j, Found(fs', d, path[k]).value, path, k + 1, hi);
        if Found(fs', d, path[k]) != Found(fs, d, path[k]) && k + 1 < hi {
          assert Found(fs', j, path[k + 1]) == None;
        }
      }
    }
  }

  /** Directories outside `but` say the same. */
  lemma OthersFound(fs: FS, fs': FS, but: set<nat>, d: nat, name: Name)
    requires Shape(fs) && Shape(fs') && InodesOk(fs) && Others(fs, fs', but) && d !in but
    ensures Found(fs', d, name) == Found(fs, d, name)
  {
    if 0 < d <= INODES {
      assert Kept(fs, fs', d) && InodeOk(fs, d);
      KeptSays(fs, fs', d);
    }
  }

  // ---------------------------------------------------------------- writing a file

  lemma KeptSaysDir(fs: FS, fs': FS, d: nat)
    requires WF(fs) && Shape(fs') && Others(fs, fs', {}) && IsDirAt(fs, d)
    ensures IsDirAt(fs', d) && RecsOf(fs', d) == RecsOf(fs, d)
  {
    assert InodeOk(fs, d) && Kept(fs, fs', d);
    KeptSays(fs, fs', d);
  }

  /** Directory `d` has a new file `name`, inode `j`, with these bytes. */
  ghost predicate Created(fs: FS, fs': FS, d: nat, name: Name, j: nat, bytes: seq<byte>)
    requires Shape(fs) && IsDirAt(fs, d) && 0 < j <= INODES
  {
    && WF(fs') && fs'.n == fs.n && Others(fs, fs', {d, j})
    && j != d && j - 1 !in fs.ibits && fs'.ibits == fs.ibits + {j - 1}
    && IsFile(Ino(fs', j)) && Content(fs'.disk, Ino(fs', j)) == bytes && Headed(Ino(fs', j), 0x81A4, 1, |bytes|)
    && (forall nm :: Found(fs', d, nm) == if nm == name then Some(j) else Found(fs, d, nm))
    && (Roomy(fs, d, name) <==> fs'.used - Named(fs'.disk, Ino(fs', j)) == fs.used)
    && Named(fs'.disk, Ino(fs', j)) <= fs'.used && |Named(fs'.disk, Ino(fs', j))| == DataBlocks(|bytes|)
    && EntrySpace(fs, fs', d, name) && Typed(RecsOf(fs', d), name, j, 1)
    && fs.used <= fs'.used
    && |fs'.used - fs.used| == DataBlocks(|bytes|) + (if Roomy(fs, d, name) then 0 else Growth(Ino(fs, d)))
  }

  /** The entry takes its space in directory `d`, which is one block longer if it had no room for it. */
  ghost predicate EntrySpace(fs: FS, fs': FS, d: nat, name: Name)
    requires Shape(fs) && IsDirAt(fs, d) && Shape(fs')
  {
    && IsDirAt(fs', d) && Space(RecsOf(fs', d)) == Space(RecsOf(fs, d)) + MinLen(|name|)
    && Stretched(Ino(fs, d), Ino(fs', d), if Roomy(fs, d, name) then 0 else 1)
  }

  /** The steps of creating a file: inode taken, entry added, data stored. */
  lemma CreatedBy(fs: FS, g: FS, h: FS, fs': FS, d: nat, name: Name, j: nat, bytes: seq<byte>)
    requires WF(fs) && IsDirAt(fs, d) && Found(fs, d, name) == None && 11 < j <= INODES && j - 1 !in fs.ibits && j != d
    requires g == fs.(ibits := fs.ibits + {j - 1}) && WF(g) && Others(fs, g, {})
    requires IsDirAt(g, d) && RecsOf(g, d) == RecsOf(fs, d) && Added(g, h, d, name, j) && Stored(h, fs', j, bytes)
    requires Headed(Ino(fs', j), 0x81A4, 1, |bytes|) && Typed(RecsOf(h, d), name, j, 1)
    ensures Created(fs, fs', d, name, j, bytes)
  {
    AddedSays(g, h, d, name, j);
    forall nm
      ensures Found(fs', d, nm) == if nm == name then Some(j) else Found(fs, d, nm)
    {
      OthersFound(h, fs', {j}, d, nm);
    }
    CreatedSpace(g, h, fs', d, name, j, bytes);
    ThreeSteps(fs, g, h, fs', d, j);
  }

  lemma CreatedSpace(g: FS, h: FS, fs': FS, d: nat, name: Name, j: nat, bytes: seq<byte>)
    requires WF(g) && IsDirAt(g, d) && Added(g, h, d, name, j) && 0 < j <= INODES && j != d && Stored(h, fs', j, bytes)
    ensures EntrySpace(g, fs', d, name) && RecsOf(fs', d) == RecsOf(h, d) && g.used <= fs'.used
    ensures |fs'.used - g.used| == DataBlocks(|bytes|) + (if Roomy(g, d, name) then 0 else Growth(Ino(g, d)))
  {
    assert Kept(h, fs', d) && InodeOk(h, d);
    KeptSays(h, fs', d);
    assert fs'.used - g.used == (h.used - g.used) + Named(fs'.disk, Ino(fs', j));
  }

  lemma ThreeSteps(fs: FS, g: FS, h: FS, fs': FS, d: nat, j: nat)
    requires Shape(fs) && Shape(g) && Shape(h) && Shape(fs')
    requires Others(fs, g, {}) && Others(g, h, {d}) && Others(h, fs', {j})
    ensures Others(fs, fs', {d, j})
  {
    OthersThrough(fs, g, h, {}, {d});
    OthersThrough(fs, h, fs', {} + {d}, {j});
    assert {} + {d} + {j} == {d, j};
  }

  /** Nothing is done for the root, or when what the code takes for parent or target is of the wrong kind. */
  ghost predicate WriteRefused(fs: FS, path: Path)
    requires Shape(fs)
  {
    || |path| == 0 || !ParentThere(fs, path)
    || (Led(fs, path).Hit? && !IsFileAt(fs, Led(fs, path).inode))
  }

  /** Paths `mkdir` does not accept: something there already, or no parent directory. */
  ghost predicate MkdirRefused(fs: FS, path: Path)
    requires Shape(fs)
  {
    Led(fs, path).Hit? || !ParentThere(fs, path)
  }

  /** The code takes some directory for the parent. */
  ghost predicate ParentThere(fs: FS, path: Path)
    requires Shape(fs)
  {
    Dest(fs, path).Hit? && IsDirAt(fs, Dest(fs, path).inode)
  }

  /** What these come to on a straight path. */
  lemma StraightRefusals(fs: FS, path: Path)
    requires WF(fs) && PathOk(path) && |path| > 0 && Straight(fs, path)
    ensures ParentThere(fs, path) <==> Parent(fs, path).Some? && IsDirAt(fs, Parent(fs, path).value)
    ensures WriteRefused(fs, path) <==>
              || Parent(fs, path).None? || !IsDirAt(fs, Parent(fs, path).value)
              || (Resolve(fs, path).Some? && !IsFileAt(fs, Resolve(fs, path).value))
    ensures MkdirRefused(fs, path) <==>
              Resolve(fs, path).Some? || Parent(fs, path).None? || !IsDirAt(fs, Parent(fs, path).value)
  {
    StraightOn(fs, path);
  }

  /** A file written: its inode anew, or a new one in what the code takes for the parent. */
  ghost predicate WrittenTo(fs: FS, fs': FS, path: Path, j: nat, bytes: seq<byte>)
    requires Shape(fs) && 0 < j <= INODES
  {
    && |path| > 0 && ParentThere(fs, path)
    && if Led(fs, path).Hit? then Led(fs, path).inode == j && IsFileAt(fs, j) && Overwritten(fs, fs', j, bytes)
       else var d, name := Dest(fs, path).inode, path[|path| - 1];
            Found(fs, d, name) == None && Created(fs, fs', d, name, j, bytes)
  }

  /** Too long, too little space, or a name that what the code takes for the parent has already. */
  ghost predicate CannotWrite(fs: FS, path: Path, len: nat)
    requires Shape(fs)
  {
    || len > LOGICAL * BS
    || (Led(fs, path).Hit? && IsFileAt(fs, Led(fs, path).inode) && Short(Emptied(fs, Led(fs, path).inode), DataBlocks(len)))
    || (!Led(fs, path).Hit? && CannotEnter(fs, path, DataBlocks(len)))
  }

  ghost predicate CannotMake(fs: FS, path: Path)
    requires Shape(fs)
  {
    CannotEnter(fs, path, 1)
  }

  ghost predicate CannotEnter(fs: FS, path: Path, k: nat)
    requires Shape(fs)
  {
    && |path| > 0 && ParentThere(fs, path)
    && (|| Found(fs, Dest(fs, path).inode, path[|path| - 1]).Some?
        || NoSpaceFor(fs, Dest(fs, path).inode, path[|path| - 1], k))
  }

  ghost predicate IsFileAt(fs: FS, i: nat)
    requires Shape(fs)
  {
    0 < i <= INODES && IsFile(Ino(fs, i))
  }

  /** The bytes a path leads to, if it leads to a file. */
  ghost function FileAt(fs: FS, path: Path): Option<seq<byte>>
    requires Shape(fs)
  {
    if Resolve(fs, path).Some? && IsFileAt(fs, Resolve(fs, path).value)
    then Some(Content(fs.disk, Ino(fs, Resolve(fs, path).value))) else None
  }

  /** One entry, `name` of directory `d`, is now `r`; every other entry is as it was. */
  ghost predicate OneEntry(fs: FS, fs': FS, d: nat, name: Name, r: Option<nat>)
    requires Shape(fs) && Shape(fs')
  {
    forall e: nat, nm {:trigger Found(fs', e, nm)} {:trigger Found(fs, e, nm)} ::
      Found(fs', e, nm) == if e == d && nm == name then r else Found(fs, e, nm)
  }

  /** Inodes other than `j` are of the kind they were, and files have the bytes they had. */
  ghost predicate OtherNodes(fs: FS, fs': FS, j: nat)
    requires Shape(fs) && Shape(fs')
  {
    forall i {:trigger IsFileAt(fs, i)} {:trigger IsFileAt(fs', i)} | 0 < i <= INODES && i != j ::
      IsFileAt(fs', i) == IsFileAt(fs, i) && IsDirAt(fs', i) == IsDirAt(fs, i) &&
      (IsFileAt(fs, i) ==> Content(fs'.disk, Ino(fs', i)) == Content(fs.disk, Ino(fs, i)))
  }

  ghost predicate FileWritten(fs: FS, fs': FS, path: Path, j: nat, bytes: seq<byte>)
    requires Shape(fs) && |path| > 0 && 0 < j <= INODES
  {
    && WF(fs') && Resolve(fs', path) == Some(j) && FileAt(fs', path) == Some(bytes)
    && Parent(fs, path).Some? && OneEntry(fs, fs', Parent(fs, path).value, path[|path| - 1], Some(j))
    && (forall p: Path {:trigger Resolve(fs', p)} {:trigger Resolve(fs, p)} ::
          Resolve(fs', p) == Resolve(fs, p) || (Resolve(fs', p) == Some(j) && Resolve(fs, p) == None))
    && OtherNodes(fs, fs', j)
    && BitsAfterWrite(fs, fs', path, j)
  }

  /**
   Overwriting gives back what the file had and takes what it has. A new file takes one inode, and its own
   blocks only, exactly when a block of the directory has room for the entry.
   */
  ghost predicate BitsAfterWrite(fs: FS, fs': FS, path: Path, j: nat)
    requires Shape(fs) && Shape(fs') && |path| > 0 && 0 < j <= INODES
  {
    var kept := fs'.used - Named(fs'.disk, Ino(fs', j));
    && Named(fs'.disk, Ino(fs', j)) <= fs'.used && |Named(fs'.disk, Ino(fs', j))| == DataBlocks(Ino(fs', j).size)
    && (Resolve(fs, path).Some? ==> fs'.ibits == fs.ibits && kept == fs.used - Named(fs.disk, Ino(fs, j)))
    && (Resolve(fs, path).None? ==>
          && j - 1 !in fs.ibits && fs'.ibits == fs.ibits + {j - 1}
          && Parent(fs, path).Some? && IsDirAt(fs, Parent(fs, path).value)
          && (Roomy(fs, Parent(fs, path).value, path[|path| - 1]) <==> kept == fs.used))
  }

  lemma NodesKept(fs: FS, fs': FS, but: set<nat>, j: nat)
    requires WF(fs) && WF(fs') && Others(fs, fs', but)
    requires forall i | i in but && i != j && 0 < i <= INODES :: IsDir(Ino(fs, i)) && IsDir(Ino(fs', i))
    ensures OtherNodes(fs, fs', j)
  {
    forall i | 0 < i <= INODES && i != j
      ensures IsFileAt(fs', i) == IsFileAt(fs, i) && IsDirAt(fs', i) == IsDirAt(fs, i)
      ensures IsFileAt(fs, i) ==> Content(fs'.disk, Ino(fs', i)) == Content(fs.disk, Ino(fs, i))
    {
      assert InodeOk(fs, i) && InodeOk(fs', i);
      if i !in but {
        assert Kept(fs, fs', i);
        KeptSays(fs, fs', i);
      }
    }
  }

  lemma WrittenOver(fs: FS, fs': FS, path: Path, j: nat, bytes: seq<byte>)
    requires WF(fs) && |path| > 0 && 0 < j <= INODES && IsFileAt(fs, j) && Resolve(fs, path) == Some(j)
    requires Overwritten(fs, fs', j, bytes)
    ensures FileWritten(fs, fs', path, j, bytes)
  {
    forall d: nat, name
      ensures Found(fs', d, name) == Found(fs, d, name)
    {
      if d != j { OthersFound(fs, fs', {j}, d, name); }
    }
    WalkLast(fs, ROOT, path, 0, |path|);
    AllPaths(fs, fs', j);
    NodesKept(fs, fs', {j}, j);
    OwnBlocks(fs', j);
  }

  /** What a write does; on a straight path, it does it at the path. */
  ghost predicate AfterWrite(fs: FS, fs': FS, path: Path, j: nat, bytes: seq<byte>)
    requires WF(fs) && 0 < j <= INODES
  {
    WrittenTo(fs, fs', path, j, bytes) && (Straight(fs, path) ==> FileWritten(fs, fs', path, j, bytes))
  }

  lemma WrittenStraight(fs: FS, fs': FS, path: Path, j: nat, bytes: seq<byte>)
    requires WF(fs) && PathOk(path) && 0 < j <= INODES && WrittenTo(fs, fs', path, j, bytes)
    ensures AfterWrite(fs, fs', path, j, bytes)
  {
    if Straight(fs, path) {
      StraightOn(fs, path);
      if Resolve(fs, path).Some? {
        WrittenOver(fs, fs', path, j, bytes);
      } else {
        WrittenNew(fs, fs', path, j, bytes);
      }
    }
  }

  lemma AllPaths(fs: FS, fs': FS, j: nat)
    requires Shape(fs) && Shape(fs') && OnlyLeaf(fs, fs', j)
    ensures forall p: Path {:trigger Resolve(fs', p)} {:trigger Resolve(fs, p)} ::
              Resolve(fs', p) == Resolve(fs, p) || (Resolve(fs', p) == Some(j) && Resolve(fs, p) == None)
  {
    forall p: Path
      ensures Resolve(fs', p) == Resolve(fs, p) || (Resolve(fs', p) == Some(j) && Resolve(fs, p) == None)
    {
      LeafWalk(fs, fs', j, ROOT, p, 0, |p|);
    }
  }

  lemma WrittenNew(fs: FS, fs': FS, path: Path, j: nat, bytes: seq<byte>)
    requires WF(fs) && |path| > 0 && 0 < j <= INODES && Resolve(fs, path) == None
    requires Parent(fs, path).Some? && IsDirAt(fs, Parent(fs, path).value)
    requires Created(fs, fs', Parent(fs, path).value, path[|path| - 1], j, bytes)
    ensures FileWritten(fs, fs', path, j, bytes)
  {
    var d, name := Parent(fs, path).value, path[|path| - 1];
    assert InodeOk(fs, j);
    WalkLast(fs, ROOT, path, 0, |path|);
    forall e: nat, nm
      ensures Found(fs', e, nm) == if e == d && nm == name then Some(j) else Found(fs, e, nm)
    {
      if e != d && e != j { OthersFound(fs, fs', {d, j}, e, nm); }
    }
    AllPaths(fs, fs', j);
    LeafWalk(fs, fs', j, ROOT, path, 0, |path| - 1);
    WalkLast(fs', ROOT, path, 0, |path|);
    NodesKept(fs, fs', {d, j}, j);
  }

  // ---------------------------------------------------------------- removing a file

  /** Directory `d` has lost `name`, and inode `j` and the blocks `gone` are free again. */
  ghost predicate Unlinked(fs: FS, fs': FS, d: nat, name: Name, j: nat, gone: set<nat>)
    requires Shape(fs) && 0 < j <= INODES
  {
    && WF(fs') && fs'.n == fs.n && Others(fs, fs', {d, j})
    && fs'.ibits == fs.ibits - {j - 1} && fs'.used == fs.used - gone && Ino(fs', j) == NoInode
    && 0 < d <= INODES && d != j && Ino(fs', d) == Ino(fs, d)
    && (forall nm :: Found(fs', d, nm) == if nm == name then None else Found(fs, d, nm))
  }

  /** The steps of removing: entry taken out, blocks freed, inode cleared, inode freed. */
  lemma UnlinkedBy(fs: FS, g: FS, fs': FS, d: nat, name: Name, j: nat, gone: set<nat>)
    requires WF(fs) && IsDirAt(fs, d) && 11 <= j <= INODES && j != d && Lost(fs, g, d, name, j)
    requires forall p | p in gone :: p in fs.owner && fs.owner[p].0 == j
    requires fs' == Freed(g, j, gone, NoInode).(ibits := fs.ibits - {j - 1})
    ensures Unlinked(fs, fs', d, name, j, gone)
  {
    LostSays(fs, g, d, name, j);
    var h := Freed(g, j, gone, NoInode);
    FreedOk(g, j, gone, NoInode);
    forall e: nat, nm | !Dots(nm)
      ensures Found(h, e, nm) != Some(j)
    {
      if e != j { OthersFound(g, h, {j}, e, nm); }
    }
    InodeReleased(h, j);
    OthersThrough(fs, g, h, {d}, {j});
    OthersThrough(fs, h, fs', {d} + {j}, {j});
    assert {d} + {j} + {j} == {d, j};
    forall nm
      ensures Found(fs', d, nm) == if nm == name then None else Found(fs, d, nm)
    {
      OthersFound(g, h, {j}, d, nm);
      OthersFound(h, fs', {j}, d, nm);
    }
  }

  ghost predicate FileRemoved(fs: FS, fs': FS, path: Path, j: nat)
    requires Shape(fs) && 0 < j <= INODES
  {
    && WF(fs') && Resolve(fs, path) == Some(j) && Resolve(fs', path) == None
    && |path| > 0 && Parent(fs, path).Some? && OneEntry(fs, fs', Parent(fs, path).value, path[|path| - 1], None)
    && (forall p: Path {:trigger Resolve(fs', p)} {:trigger Resolve(fs, p)} ::
          Resolve(fs, p) == Resolve(fs', p) || (Resolve(fs, p) == Some(j) && Resolve(fs', p) == None))
    && OtherNodes(fs, fs', j)
    && fs'.ibits == fs.ibits - {j - 1} && fs'.used == fs.used - Named(fs.disk, Ino(fs, j))
  }

  lemma RemovedAt(fs: FS, fs': FS, path: Path, j: nat)
    requires WF(fs) && |path| > 0 && 0 < j <= INODES && Resolve(fs, path) == Some(j) && !IsDir(Ino(fs, j))
    requires Parent(fs, path).Some? && IsDirAt(fs, Parent(fs, path).value)
    requires Unlinked(fs, fs', Parent(fs, path).value, path[|path| - 1], j, Named(fs.disk, Ino(fs, j)))
    ensures FileRemoved(fs, fs', path, j)
  {
    var d, name := Parent(fs, path).value, path[|path| - 1];
    WalkLast(fs, ROOT, path, 0, |path|);
    forall e: nat, nm
      ensures Found(fs', e, nm) == if e == d && nm == name then None else Found(fs, e, nm)
    {
      if e != d && e != j { OthersFound(fs, fs', {d, j}, e, nm); }
    }
    AllPaths(fs', fs, j);
    LeafWalk(fs', fs, j, ROOT, path, 0, |path| - 1);
    WalkLast(fs', ROOT, path, 0, |path|);
    NodesKept(fs, fs', {d, j}, j);
  }

  /** What the code takes for the parent is a directory with an entry of this name, and the target is not a directory. */
  ghost predicate Removable(fs: FS, path: Path)
    requires Shape(fs)
  {
    && Entered(fs, path)
    && Led(fs, path).Hit? && 0 < Led(fs, path).inode <= INODES && !IsDir(Ino(fs, Led(fs, path).inode))
  }

  ghost predicate Entered(fs: FS, path: Path)
    requires Shape(fs)
  {
    |path| > 0 && ParentThere(fs, path) && Found(fs, Dest(fs, path).inode, path[|path| - 1]).Some?
  }

  /** The entry that is taken out is not the target's. */
  ghost predicate Crossed(fs: FS, path: Path)
    requires Shape(fs)
  {
    Entered(fs, path) && Led(fs, path) != AsLook(Found(fs, Dest(fs, path).inode, path[|path| - 1]))
  }

  /** A parent whose text fits its buffer is never crossed. */
  lemma NotCrossed(fs: FS, path: Path)
    requires WF(fs) && PathOk(path) && ShortParent(path)
    ensures !Crossed(fs, path)
  {
    if Entered(fs, path) { LedByParent(fs, path); }
  }

  /** The target's entry, inode and blocks are gone. */
  ghost predicate TakenFrom(fs: FS, fs': FS, path: Path)
    requires Shape(fs)
  {
    && Removable(fs, path)
    && var j := Led(fs, path).inode;
       Unlinked(fs, fs', Dest(fs, path).inode, path[|path| - 1], j, Named(fs.disk, Ino(fs, j)))
  }

  /**
   What an unlink does: unless the entry was not the target's, entry and target are gone; that is when the volume stays
   sound; and on a straight path it is what the path leads to that is gone.
   */
  ghost predicate AfterUnlink(fs: FS, fs': FS, path: Path)
    requires WF(fs)
  {
    && (!Crossed(fs, path) ==> TakenFrom(fs, fs', path))
    && (Clear(fs, path) ==> (WF(fs') <==> !Crossed(fs, path)))
    && (Straight(fs, path) ==> RemovedFile(fs, fs', path))
  }

  ghost predicate RemovedFile(fs: FS, fs': FS, path: Path)
    requires Shape(fs)
  {
    Resolve(fs, path).Some? && 0 < Resolve(fs, path).value <= INODES && FileRemoved(fs, fs', path, Resolve(fs, path).value)
  }

  /** The inode of a crossed target is free, and still has its entry: the volume is no longer sound. */
  lemma {:induction false} Dangling(fs: FS, g: FS, fs': FS, path: Path, gone: set<nat>)
    requires WF(fs) && |path| > 0 && Clear(fs, path) && Crossed(fs, path) && Led(fs, path).Hit? && !Dots(path[|path| - 1])
    requires var d, j := Dest(fs, path).inode, Led(fs, path).inode;
             && 0 < j <= INODES && j != d && Lost(fs, g, d, path[|path| - 1], Found(fs, d, path[|path| - 1]).value)
             && (forall p | p in gone :: p in fs.owner && fs.owner[p].0 == j)
             && Shape(fs') && fs'.disk == g.disk && fs'.dirs == g.dirs - gone && j - 1 !in fs'.ibits
             && (forall i | 0 < i <= INODES && i != d && i != j :: Ino(fs', i) == Ino(g, i))
    ensures !WF(fs')
  {
    var d, j, name := Dest(fs, path).inode, Led(fs, path).inode, path[|path| - 1];
    ClearAgrees(fs, path, |path|);
    WalkLast(fs, ROOT, path, 0, |path|);
    var e := Parent(fs, path).value;
    assert EntryOk(fs, e, name);
    OthersFound(fs, g, {d}, e, name);
    var h := Freed(g, j, gone, NoInode);
    FreedOk(g, j, gone, NoInode);
    OthersFound(g, h, {j}, e, name);
    assert Found(fs', e, name) == Found(h, e, name);
    assert !EntryOk(fs', e, name);
  }

  lemma {:induction false} RemovedBy(fs: FS, g: FS, fs': FS, path: Path)
    requires WF(fs) && PathOk(path) && Removable(fs, path) && !Dots(path[|path| - 1])
    requires var d, j, name := Dest(fs, path).inode, Led(fs, path).inode, path[|path| - 1];
             var k, gone := Found(fs, d, name).value, Named(fs.disk, Ino(fs, j));
             && Lost(fs, g, d, name, k) && fs' == Freed(g, j, gone, NoInode).(ibits := fs.ibits - {j - 1})
             && (j == k && 11 <= j ==> Unlinked(fs, fs', d, name, j, gone))
    ensures AfterUnlink(fs, fs', path)
  {
    var d, j, name := Dest(fs, path).inode, Led(fs, path).inode, path[|path| - 1];
    assert EntryOk(fs, d, name);
    if Crossed(fs, path) {
      if Clear(fs, path) {
        OwnBlocks(fs, j);
        Dangling(fs, g, fs', path, Named(fs.disk, Ino(fs, j)));
      }
    }
    if Straight(fs, path) {
      NotCrossed(fs, path);
      StraightOn(fs, path);
      RemovedAt(fs, fs', path, j);
    }
  }

  // ---------------------------------------------------------------- making a directory

  /** Inode `j` is a new directory with nothing in it; `d` has an entry for it if a block of `d` had room. */
  ghost predicate Made(fs: FS, fs': FS, d: nat, name: Name, j: nat)
    requires Shape(fs) && IsDirAt(fs, d) && 0 < j <= INODES
  {
    && WF(fs') && fs'.n == fs.n && Others(fs, fs', {d, j}) && IsDirAt(fs', d)
    && Ino(fs', d) == Ino(fs, d).(links := Ino(fs, d).links + 1)
    && (Roomy(fs, d, name) ==> Space(RecsOf(fs', d)) == Space(RecsOf(fs, d)) + MinLen(|name|) && Typed(RecsOf(fs', d), name, j, 2))
    && (!Roomy(fs, d, name) ==> RecsOf(fs', d) == RecsOf(fs, d))
    && j != d && j - 1 !in fs.ibits && fs'.ibits == fs.ibits + {j - 1}
    && (forall nm :: Found(fs', d, nm) == if Roomy(fs, d, name) && nm == name then Some(j) else Found(fs, d, nm))
    && IsDirAt(fs', j)
    && (forall nm :: Found(fs', j, nm) == if nm == [46] then Some(j) else if nm == [46, 46] then Some(d) else None)
    && RecsOf(fs', j) == Two(Rec(j, 12, 2, [46]), Rec(d, 4084, 2, [46, 46]))
    && Ino(fs', j) == NewDirInode(Ino(fs', j).direct[0]) && BitsAfterMkdir(fs, fs', d, name, Ino(fs', j).direct[0])
  }

  /** Mode 0755, one block, 8 sectors, and two links: its entry and its own `.`. */
  function NewDirInode(b: nat): Inode { Inode(0x41ED, BS, 2, 8, NoBlocks[0 := b], 0) }

  /** The new directory's block was taken, and nothing else if the entry fitted; otherwise what the parent grew by, too. */
  ghost predicate BitsAfterMkdir(fs: FS, fs': FS, d: nat, name: Name, b: nat)
    requires Shape(fs) && IsDirAt(fs, d)
  {
    && b != 0 && b !in fs.used && fs.used + {b} <= fs'.used
    && |fs'.used - fs.used| == 1 + if Roomy(fs, d, name) then 0 else Growth(Ino(fs, d))
  }

  /** The steps: inode and block taken (g), entry added (h), directory written (k), parent inode written back. */
  lemma {:induction false} MadeBy(fs: FS, g: FS, h: FS, k: FS, fs': FS, d: nat, name: Name, j: nat, b: nat, ino: Inode, blk: Block, links: nat)
    requires WF(fs) && IsDirAt(fs, d) && Found(fs, d, name) == None && 11 < j <= INODES && j != d && j - 1 !in fs.ibits
    requires g == fs.(ibits := fs.ibits + {j - 1}, used := fs.used + {b}) && WF(g) && Others(fs, g, {})
    requires IsDirAt(g, d) && RecsOf(g, d) == RecsOf(fs, d) && Added(g, h, d, name, j) && Typed(RecsOf(h, d), name, j, 2)
    requires FIRST_DATA <= b < fs.n && b !in fs.used && ino == NewDirInode(b) && links == Ino(fs, d).links + 1
    requires DirBlock(blk) && Parse(blk, 0) == Two(Rec(j, 12, 2, [46]), Rec(d, 4084, 2, [46, 46]))
    requires k == NewDir(h, j, b, ino, blk) && fs' == k.(inodes := k.inodes[d - 1 := Ino(fs, d).(links := links)])
    ensures Made(fs, fs', d, name, j)
  {
    assert InodeOk(fs, j) && Kept(fs, g, j) && Kept(g, h, j);
    DotsWritten(h, k, d, j, b, ino, blk);
    PinBack(g, h, k, d, name, j, links);
    FourSteps(fs, g, h, k, fs', d, j);
    DirStays(k, fs', d, j);
    MadeBits(fs, g, h, d, name, j, b);
  }

  lemma DirStays(k: FS, fs': FS, d: nat, j: nat)
    requires WF(k) && Shape(fs') && 0 < j <= INODES && j != d && Others(k, fs', {d}) && IsDirAt(k, j)
    ensures IsDirAt(fs', j) && RecsOf(fs', j) == RecsOf(k, j) && Ino(fs', j) == Ino(k, j)
    ensures forall nm :: Found(fs', j, nm) == Found(k, j, nm)
  {
    assert InodeOk(k, j) && Kept(k, fs', j);
    KeptSays(k, fs', j);
  }

  lemma {:induction false} DotsWritten(h: FS, k: FS, d: nat, j: nat, b: nat, ino: Inode, blk: Block)
    requires WF(h) && 11 < j <= INODES && j - 1 in h.ibits && Ino(h, j) == NoInode && d != 0
    requires FIRST_DATA <= b < h.n && b in h.used && b !in h.owner && OneBlock(ino, b)
    requires DirBlock(blk) && Parse(blk, 0) == Two(Rec(j, 12, 2, [46]), Rec(d, 4084, 2, [46, 46]))
    requires k == NewDir(h, j, b, ino, blk)
    ensures WF(k) && Others(h, k, {j}) && IsDirAt(k, j) && RecsOf(k, j) == Parse(blk, 0)
    ensures forall nm :: Found(k, j, nm) == if nm == [46] then Some(j) else if nm == [46, 46] then Some(d) else None
  {
    DotsSay(j, d, 12, 4084);
    NewDirOk(h, j, b, ino, blk);
    forall nm
      ensures Found(k, j, nm) == if nm == [46] then Some(j) else if nm == [46, 46] then Some(d) else None
    {
      assert Found(k, j, nm) == Find(Parse(blk, 0), nm);
      assert nm == [46] || nm == [46, 46] <==> Dots(nm);
    }
  }

  lemma FourSteps(fs: FS, g: FS, h: FS, k: FS, fs': FS, d: nat, j: nat)
    requires Shape(fs) && Shape(g) && Shape(h) && Shape(k) && Shape(fs')
    requires Others(fs, g, {}) && Others(g, h, {d}) && Others(h, k, {j}) && Others(k, fs', {d})
    ensures Others(fs, fs', {d, j})
  {
    OthersThrough(fs, g, h, {}, {d});
    OthersThrough(fs, h, k, {} + {d}, {j});
    OthersThrough(fs, k, fs', {} + {d} + {j}, {d});
    assert {} + {d} + {j} + {d} == {d, j};
  }

  lemma MadeBits(fs: FS, g: FS, h: FS, d: nat, name: Name, j: nat, b: nat)
    requires Shape(fs) && IsDirAt(fs, d) && b != 0 && b !in fs.used && 0 < j
    requires g == fs.(ibits := fs.ibits + {j - 1}, used := fs.used + {b})
    requires IsDirAt(g, d) && RecsOf(g, d) == RecsOf(fs, d) && Added(g, h, d, name, j)
    ensures BitsAfterMkdir(fs, h, d, name, b)
  {
    assert h.used - fs.used == (h.used - g.used) + {b};
    if Roomy(fs, d, name) {
      assert h.used - g.used == {};
    }
  }

  ghost predicate DirMade(fs: FS, fs': FS, path: Path, j: nat)
    requires Shape(fs) && 0 < j <= INODES
  {
    && |path| > 0 && Resolve(fs, path) == None && Parent(fs, path).Some? && IsDirAt(fs, Parent(fs, path).value)
    && WF(fs') && IsDirAt(fs', j) && (forall nm | !Dots(nm) :: Found(fs', j, nm) == None)
    && j - 1 !in fs.ibits && fs'.ibits == fs.ibits + {j - 1}
    && Resolve(fs', path) == (if Roomy(fs, Parent(fs, path).value, path[|path| - 1]) then Some(j) else None)
    && (forall e: nat, nm {:trigger Found(fs', e, nm)} {:trigger Found(fs, e, nm)} | e != j ::
          Found(fs', e, nm) == if Resolve(fs', path).Some? && e == Parent(fs, path).value && nm == path[|path| - 1] then Some(j)
                               else Found(fs, e, nm))
    && (forall p: Path {:trigger Resolve(fs', p)} {:trigger Resolve(fs, p)} | Resolve(fs, p).Some? :: Resolve(fs', p) == Resolve(fs, p))
    && OtherNodes(fs, fs', j)
    && Ino(fs', j) == NewDirInode(Ino(fs', j).direct[0])
    && Ino(fs', Parent(fs, path).value) == Ino(fs, Parent(fs, path).value).(links := Ino(fs, Parent(fs, path).value).links + 1)
    && BitsAfterMkdir(fs, fs', Parent(fs, path).value, path[|path| - 1], Ino(fs', j).direct[0])
  }

  lemma MadeAt(fs: FS, fs': FS, path: Path, j: nat)
    requires WF(fs) && |path| > 0 && 0 < j <= INODES && Resolve(fs, path) == None
    requires Parent(fs, path).Some? && IsDirAt(fs, Parent(fs, path).value)
    requires Made(fs, fs', Parent(fs, path).value, path[|path| - 1], j)
    ensures DirMade(fs, fs', path, j)
  {
    var d, name := Parent(fs, path).value, path[|path| - 1];
    assert InodeOk(fs, j);
    WalkLast(fs, ROOT, path, 0, |path|);
    forall e: nat, nm | e != j
      ensures Found(fs', e, nm) == if Roomy(fs, d, name) && e == d && nm == name then Some(j) else Found(fs, e, nm)
    {
      if e != d { OthersFound(fs, fs', {d, j}, e, nm); }
    }
    MorePaths(fs, fs');
    ExtendsWalk(fs, fs', ROOT, path, 0, |path| - 1);
    WalkLast(fs', ROOT, path, 0, |path|);
    NodesKept(fs, fs', {d, j}, j);
  }

  /** A directory made in what the code takes for the parent. */
  ghost predicate MadeIn(fs: FS, fs': FS, path: Path, j: nat)
    requires Shape(fs) && 0 < j <= INODES
  {
    && |path| > 0 && ParentThere(fs, path) && !Led(fs, path).Hit?
    && var d, name := Dest(fs, path).inode, path[|path| - 1]; Found(fs, d, name) == None && Made(fs, fs', d, name, j)
  }

  /** What a mkdir does; on a straight path, it does it at the path. */
  ghost predicate AfterMkdir(fs: FS, fs': FS, path: Path, j: nat)
    requires WF(fs) && 0 < j <= INODES
  {
    MadeIn(fs, fs', path, j) && (Straight(fs, path) ==> DirMade(fs, fs', path, j))
  }

  lemma MadeStraight(fs: FS, fs': FS, path: Path, j: nat)
    requires WF(fs) && PathOk(path) && 0 < j <= INODES && MadeIn(fs, fs', path, j)
    ensures AfterMkdir(fs, fs', path, j)
  {
    if Straight(fs, path) {
      StraightOn(fs, path);
      MadeAt(fs, fs', path, j);
    }
  }

  lemma MorePaths(fs: FS, fs': FS)
    requires Shape(fs) && Shape(fs') && Extends(fs, fs')
    ensures forall p: Path {:trigger Resolve(fs', p)} {:trigger Resolve(fs, p)} | Resolve(fs, p).Some? ::
              Resolve(fs', p) == Resolve(fs, p)
  {
    forall p: Path | Resolve(fs, p).Some?
      ensures Resolve(fs', p) == Resolve(fs, p)
    {
      ExtendsWalk(fs, fs', ROOT, p, 0, |p|);
    }
  }

  // ---------------------------------------------------------------- removing a directory

  ghost predicate EmptyDir(fs: FS, j: nat)
    requires Shape(fs)
  {
    IsDirAt(fs, j) && forall nm :: !Dots(nm) ==> Found(fs, j, nm) == None
  }

  /** What the code takes for the parent is a directory with an entry of this name, and the target is an empty directory. */
  ghost predicate DirRemovable(fs: FS, path: Path)
    requires Shape(fs)
  {
    Entered(fs, path) && Led(fs, path).Hit? && EmptyDir(fs, Led(fs, path).inode)
  }

  /** A link less, but not below two. */
  function FewerLinks(links: nat): nat { if links > 2 then links - 1 else links }

  /** Directory `d` has lost `name` and a link; inode `j` and its direct blocks are free again. */
  ghost predicate DirUnlinked(fs: FS, fs': FS, d: nat, name: Name, j: nat)
    requires Shape(fs) && 0 < j <= INODES
  {
    && WF(fs') && OtherNodes(fs, fs', j) && j != d && 0 < d <= INODES && Others(fs, fs', {d, j})
    && Ino(fs', d) == Ino(fs, d).(links := FewerLinks(Ino(fs, d).links)) && Ino(fs', j) == NoInode
    && fs'.ibits == fs.ibits - {j - 1} && fs'.used == fs.used - NamedDirectly(Ino(fs, j))
    && forall e: nat, nm {:trigger Found(fs', e, nm)} {:trigger Found(fs, e, nm)} ::
         Found(fs', e, nm) == if e == j || (e == d && nm == name) then None else Found(fs, e, nm)
  }

  ghost predicate DirTakenFrom(fs: FS, fs': FS, path: Path)
    requires Shape(fs)
  {
    DirRemovable(fs, path) && DirUnlinked(fs, fs', Dest(fs, path).inode, path[|path| - 1], Led(fs, path).inode)
  }

  /** Its direct blocks and its inode are free; an indirect table and what that names stay taken. */
  ghost predicate DirRemoved(fs: FS, fs': FS, path: Path, j: nat)
    requires Shape(fs) && 0 < j <= INODES
  {
    && WF(fs') && Resolve(fs, path) == Some(j) && Resolve(fs', path) == None
    && (forall p: Path {:trigger Resolve(fs', p)} {:trigger Resolve(fs, p)} | Resolve(fs', p).Some? :: Resolve(fs, p) == Resolve(fs', p))
    && |path| > 0 && Parent(fs, path).Some? && ParentRelinked(fs, fs', Parent(fs, path).value)
    && (forall e: nat, nm {:trigger Found(fs', e, nm)} {:trigger Found(fs, e, nm)} | e != j ::
          Found(fs', e, nm) == if e == Parent(fs, path).value && nm == path[|path| - 1] then None else Found(fs, e, nm))
    && OtherNodes(fs, fs', j)
    && fs'.ibits == fs.ibits - {j - 1} && fs'.used == fs.used - NamedDirectly(Ino(fs, j))
  }

  ghost predicate ParentRelinked(fs: FS, fs': FS, d: nat)
    requires Shape(fs) && Shape(fs')
  {
    0 < d <= INODES && Ino(fs', d) == Ino(fs, d).(links := FewerLinks(Ino(fs, d).links))
  }

  /** What an rmdir does, as `AfterUnlink` says it of a file. */
  ghost predicate AfterRmdir(fs: FS, fs': FS, path: Path)
    requires WF(fs)
  {
    && (!Crossed(fs, path) ==> DirTakenFrom(fs, fs', path))
    && (Clear(fs, path) ==> (WF(fs') <==> !Crossed(fs, path)))
    && (Straight(fs, path) ==> RemovedDir(fs, fs', path))
  }

  ghost predicate RemovedDir(fs: FS, fs': FS, path: Path)
    requires Shape(fs)
  {
    Resolve(fs, path).Some? && 0 < Resolve(fs, path).value <= INODES && DirRemoved(fs, fs', path, Resolve(fs, path).value)
  }

  /** The steps: entry, inode and blocks as for a file (h), then the parent's link count. */
  lemma DirUnlinkedBy(fs: FS, h: FS, fs': FS, d: nat, name: Name, j: nat, links: nat)
    requires WF(fs) && 0 < j <= INODES && IsDirAt(fs, j) && IsDirAt(fs, d)
    requires Unlinked(fs, h, d, name, j, NamedDirectly(Ino(fs, j))) && links == FewerLinks(Ino(fs, d).links)
    requires fs' == h.(inodes := h.inodes[d - 1 := Ino(fs, d).(links := links)])
    ensures DirUnlinked(fs, fs', d, name, j)
  {
    assert InodeOk(h, d);
    Relinked(h, d, links);
    OthersThrough(fs, h, fs', {d, j}, {d});
    assert {d, j} + {d} == {d, j};
    forall e: nat, nm
      ensures Found(fs', e, nm) == if e == j || (e == d && nm == name) then None else Found(fs, e, nm)
    {
      if e == j {
        OthersFound(h, fs', {d}, j, nm);
      } else if e != d {
        OthersFound(fs, fs', {d, j}, e, nm);
      } else {
        assert Found(fs', d, nm) == Found(h, d, nm);
      }
    }
    NodesKept(fs, fs', {d, j}, j);
  }

  lemma DirRemovedAt(fs: FS, fs': FS, path: Path, j: nat)
    requires WF(fs) && |path| > 0 && 0 < j <= INODES && Resolve(fs, path) == Some(j) && Parent(fs, path).Some?
    requires DirUnlinked(fs, fs', Parent(fs, path).value, path[|path| - 1], j)
    ensures DirRemoved(fs, fs', path, j)
  {
    WalkLast(fs, ROOT, path, 0, |path|);
    MorePaths(fs', fs);
    ExtendsWalk(fs', fs, ROOT, path, 0, |path| - 1);
    WalkLast(fs', ROOT, path, 0, |path|);
  }

  lemma {:induction false} DirRemovedBy(fs: FS, g: FS, h: FS, fs': FS, path: Path, links: nat)
    requires WF(fs) && PathOk(path) && DirRemovable(fs, path) && !Dots(path[|path| - 1])
    requires var d, j, name := Dest(fs, path).inode, Led(fs, path).inode, path[|path| - 1];
             var k, gone := Found(fs, d, name).value, NamedDirectly(Ino(fs, j));
             && Lost(fs, g, d, name, k) && h == Freed(g, j, gone, NoInode).(ibits := fs.ibits - {j - 1})
             && (j == k && 11 <= j ==> Unlinked(fs, h, d, name, j, gone)) && links == FewerLinks(Ino(fs, d).links)
             && fs' == h.(inodes := h.inodes[d - 1 := Ino(fs, d).(links := links)])
    ensures AfterRmdir(fs, fs', path)
  {
    var d, j, name := Dest(fs, path).inode, Led(fs, path).inode, path[|path| - 1];
    assert EntryOk(fs, d, name);
    if Crossed(fs, path) {
      if Clear(fs, path) {
        OwnedDirectly(fs, j);
        Dangling(fs, g, fs', path, NamedDirectly(Ino(fs, j)));
      }
    } else {
      DirUnlinkedBy(fs, h, fs', d, name, j, links);
    }
    if Straight(fs, path) {
      NotCrossed(fs, path);
      StraightOn(fs, path);
      DirRemovedAt(fs, fs', path, j);
    }
  }
}
