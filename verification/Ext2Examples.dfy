/** Runs from a new volume in which the driver does less than its callers may expect. */
module Ext2Examples {
  import opened Basics
  import opened Ext2Bytes
  import opened Ext2Bitmap
  import opened Ext2Dir
  import opened Ext2Volume
  import opened Ext2State
  import opened Ext2Walk
  import opened Ext2Paths
  import opened Ext2Links
  import opened Ext2Driver
  import opened Ext2Tree

  /** Name `k` of 255 bytes. */
  function LongName(k: nat): (n: Name)
    requires k < 256
    ensures |n| == 255 && NameOk(n) && !Dots(n) && n[0] == 97 + k / 16 && n[1] == 97 + k % 16
  {
    seq(255, i requires 0 <= i < 255 => if i == 0 then 97 + k / 16 else if i == 1 then 97 + k % 16 else 97)
  }

  lemma LongNames(j: nat, k: nat)
    requires j < 256 && k < 256 && LongName(j) == LongName(k)
    ensures j == k
  {
    assert LongName(j)[0] == LongName(k)[0] && LongName(j)[1] == LongName(k)[1];
  }

  // ---------------------------------------------------------------- what is left

  ghost function Range(lo: nat, n: nat): (r: set<nat>)
    ensures |r| == n && forall i: nat :: i in r <==> lo <= i < lo + n
  {
    if n == 0 then {} else Range(lo, n - 1) + {lo + n - 1}
  }

  lemma Contains<T>(a: set<T>, b: set<T>)
    requires a <= b
    ensures |a| <= |b|
  {
    assert |b| == |a| + |b - a|;
  }

  /** At least `m` inodes are free. */
  ghost predicate Spare(fs: FS, m: nat) {
    exists s: set<nat> {:trigger SpareIn(fs, s)} :: SpareIn(fs, s) && |s| >= m
  }

  ghost predicate SpareIn(fs: FS, s: set<nat>) {
    forall i | i in s :: 11 <= i < INODES && i !in fs.ibits
  }

  lemma SpareOne(fs: FS, fs': FS, j: nat, m: nat)
    requires Spare(fs, m + 1) && 0 < j && fs'.ibits == fs.ibits + {j - 1}
    ensures Spare(fs', m) && !NoInodes(fs)
  {
    var s: set<nat> :| SpareIn(fs, s) && |s| >= m + 1;
    var i :| i in s;
    assert SpareIn(fs', s - {j - 1}) && |s - {j - 1}| >= |s| - 1;
  }

  lemma SomeSpare(fs: FS, m: nat)
    requires Spare(fs, m) && m > 0
    ensures !NoInodes(fs)
  {
    var s: set<nat> :| SpareIn(fs, s) && |s| >= m;
    var i :| i in s;
  }

  /** A new volume has everything but its first blocks and inodes. */
  lemma NewHas(fs: FS, m: nat)
    requires Formatted(fs) && m + 14 <= fs.n
    ensures !Short(fs, m) && Spare(fs, 245)
  {
    forall s: set<nat> | FreeWithin(fs, s)
      ensures |s| >= m
    {
      assert Range(14, m) <= s;
      Contains(Range(14, m), s);
    }
    assert SpareIn(fs, Range(11, 245));
  }

  lemma StillFree(fs: FS, fs': FS, m: nat, c: nat)
    requires fs'.n == fs.n && |fs'.used - fs.used| <= c && !Short(fs, m + c)
    ensures !Short(fs', m)
  {
    forall s: set<nat> | FreeWithin(fs', s)
      ensures |s| >= m
    {
      var t := fs'.used - fs.used;
      assert FreeWithin(fs, s + t) && |s + t| <= |s| + |t|;
    }
  }

  lemma NotShort(fs: FS, k: nat, m: nat)
    requires !Short(fs, m) && k <= m
    ensures !Short(fs, k)
  {
    forall s: set<nat> | FreeWithin(fs, s)
      ensures |s| >= k
    {
    }
  }

  // ---------------------------------------------------------------- short paths

  lemma InRoot(fs: FS, name: Name)
    requires WF(fs) && NameOk(name)
    ensures IsDirAt(fs, ROOT) && Straight(fs, [name]) && Inside(fs, [name]) && Dest(fs, [name]) == Hit(ROOT)
    ensures Parent(fs, [name]) == Some(ROOT) && Resolve(fs, [name]) == Found(fs, ROOT, name)
    ensures Led(fs, [name]) == AsLook(Found(fs, ROOT, name))
  {
    var path := [name];
    assert InodeOk(fs, ROOT);
    assert path[..0] == [];
    WalkLast(fs, ROOT, path, 0, 1);
    ClearIf(fs, path);
    StraightOn(fs, path);
  }

  lemma InDir(fs: FS, d: nat, dir: Name, name: Name)
    requires WF(fs) && NameOk(dir) && NameOk(name) && Found(fs, ROOT, dir) == Some(d) && IsDirAt(fs, d)
    ensures var path := [dir, name];
            && Straight(fs, path) && Inside(fs, path) && Dest(fs, path) == Hit(d)
            && Parent(fs, path) == Some(d) && Resolve(fs, path) == Found(fs, d, name)
            && Led(fs, path) == AsLook(Found(fs, d, name))
  {
    var path := [dir, name];
    assert path[..1] == [dir] && [dir][1..] == [];
    assert TextLen([dir]) == 1 + |dir|;
    assert Walk(fs, ROOT, path, 0, 1) == Walk(fs, d, path, 1, 1);
    WalkLast(fs, ROOT, path, 0, 2);
    ClearIf(fs, path);
    StraightOn(fs, path);
  }

  // ---------------------------------------------------------------- a lost directory

  /** The root has `k` entries with long names, besides those of a new volume, in its one block. */
  ghost predicate Filling(fs: FS, k: nat) {
    && WF(fs) && k <= 16 && IsDirAt(fs, ROOT) && Ino(fs, ROOT).size == BS && Space(RecsOf(fs, ROOT)) == 44 + 264 * k
    && (forall i: nat | k <= i < 32 :: Found(fs, ROOT, LongName(i)) == None)
    && Spare(fs, 245 - k) && !Short(fs, 18 - k)
  }

  /** The root has one block and no room for another long name. */
  ghost predicate FullRoot(fs: FS) {
    && WF(fs) && IsDirAt(fs, ROOT) && Ino(fs, ROOT).size == BS && (forall name: Name | |name| == 255 :: !Roomy(fs, ROOT, name))
    && (forall i: nat | 16 <= i < 32 :: Found(fs, ROOT, LongName(i)) == None)
    && Spare(fs, 200) && !Short(fs, 1)
  }

  /** Directory `j` was to be entry `k` of that root, which has no room left, but has its link. */
  ghost predicate LostAt(fs: FS, k: nat, j: nat) {
    && k < 16 && FullRoot(fs) && IsDirAt(fs, j) && Resolve(fs, [LongName(k)]) == None
    && Ino(fs, ROOT).links == 3 + |Live(fs, ROOT)|
  }

  method NewRootVolume(raw: Disk) returns (v: Volume)
    requires 32 <= |raw| <= BITS
    ensures fresh(v) && v.n == |raw| && Formatted(v.Fs()) && Filling(v.Fs(), 0) && Linked(v.Fs(), true)
  {
    v := new Volume.Mkfs(raw);
    ghost var f := v.Fs();
    NewHas(f, 18);
    OneBlockDir(f, ROOT, 12);
    NewRootSpace();
    NewLinked(f);
    forall i: nat | i < 32
      ensures Found(f, ROOT, LongName(i)) == None
    {
      assert LongName(i) != LOST_FOUND;
    }
  }

  lemma NewRootSpace()
    ensures Space(NewRoot()) == 44 && forall need: nat | need <= 4000 :: AnyRoom(NewRoot(), need)
  {
    var a, b := Two(Rec(2, 12, 2, [46]), Rec(2, 12, 2, [46, 46])), One(Rec(11, 4072, 2, LOST_FOUND));
    SpaceAppend(a, b);
    assert Space(One(Rec(2, 12, 2, [46, 46]))) == 12 && Space(a) == 24 && Space(b) == 20;
    forall need: nat | need <= 4000
      ensures AnyRoom(NewRoot(), need)
    {
      ValidAppend(a, b, need);
    }
  }

  lemma NewRootRoomy(fs: FS, name: Name)
    requires Formatted(fs) && NameOk(name)
    ensures IsDirAt(fs, ROOT) && Roomy(fs, ROOT, name)
    ensures !Dots(name) && |name| != 10 ==> Found(fs, ROOT, name) == None
  {
    OneBlockDir(fs, ROOT, 12);
    NewRootSpace();
  }

  /** One more directory with a long name: it is there, or it is lost because the root has no room. */
  method NextDir(v: Volume, k: nat) returns (ok: bool, lost: bool, ghost j: nat)
    requires k < 16 && Filling(v.Fs(), k) && Linked(v.Fs(), true)
    modifies v
    ensures ok && if lost then LostAt(v.Fs(), k, j) else k < 15 && Filling(v.Fs(), k + 1) && Linked(v.Fs(), true)
  {
    ghost var f := v.Fs();
    var name := LongName(k);
    InRoot(f, name);
    SomeSpare(f, 245 - k);
    Enough(f, k);
    var refused;
    ok, refused, j := v.Mkdir([name]);
    InRoot(v.Fs(), name);
    var r := v.ResolvePath([name]);
    lost := r == Missing;
    RoomInside(f, ROOT, name);
    if Roomy(f, ROOT, name) {
      FilledMore(f, v.Fs(), k, j);
      LinkedMore(f, v.Fs(), name, j);
    } else {
      FilledUp(f, v.Fs(), k, j);
    }
  }

  lemma Enough(fs: FS, k: nat)
    requires k < 16 && Filling(fs, k)
    ensures !Short(fs, 2) && !Short(fs, 1)
  {
    NotShort(fs, 2, 18 - k);
    NotShort(fs, 1, 18 - k);
  }

  lemma LinkedMore(fs: FS, fs': FS, name: Name, j: nat)
    requires WF(fs) && IsDirAt(fs, ROOT) && Linked(fs, true) && Found(fs, ROOT, name) == None && !Dots(name)
    requires 0 < j <= INODES && Made(fs, fs', ROOT, name, j) && Roomy(fs, ROOT, name)
    ensures Linked(fs', true)
  {
    MadeStep(fs, fs', ROOT, name, j, true);
  }

  lemma FilledMore(fs: FS, fs': FS, k: nat, j: nat)
    requires k < 16 && Filling(fs, k) && 0 < j <= INODES && Made(fs, fs', ROOT, LongName(k), j) && Roomy(fs, ROOT, LongName(k))
    ensures Filling(fs', k + 1)
  {
    SpareOne(fs, fs', j, 245 - (k + 1));
    StillFree(fs, fs', 18 - (k + 1), 1);
    OthersNot(fs, fs', k, j);
  }

  lemma OthersNot(fs: FS, fs': FS, k: nat, j: nat)
    requires k < 16 && Filling(fs, k) && 0 < j <= INODES && Made(fs, fs', ROOT, LongName(k), j)
    ensures forall i: nat | k + 1 <= i < 32 :: Found(fs', ROOT, LongName(i)) == None
  {
    forall i: nat | k + 1 <= i < 32
      ensures Found(fs', ROOT, LongName(i)) == None
    {
      if LongName(i) == LongName(k) { LongNames(i, k); }
      assert Found(fs, ROOT, LongName(i)) == None;
    }
  }

  lemma FilledUp(fs: FS, fs': FS, k: nat, j: nat)
    requires k < 16 && Filling(fs, k) && 0 < j <= INODES && Made(fs, fs', ROOT, LongName(k), j) && !Roomy(fs, ROOT, LongName(k))
    requires Linked(fs, true)
    ensures FullRoot(fs') && Ino(fs', ROOT).links == 3 + |Live(fs', ROOT)|
  {
    MadeExactly(fs, fs', ROOT, LongName(k), j, true);
    SpareOne(fs, fs', j, 245 - (k + 1));
    StillFree(fs, fs', 18 - (k + 2), 2);
    NotShort(fs', 1, 18 - (k + 2));
    forall name: Name | |name| == 255
      ensures !Roomy(fs', ROOT, name)
    {
    }
    assert Spare(fs', 200);
  }

  /** One of the first 16 directories with long names: `mkdir` succeeds, and its path leads nowhere. */
  method LostDirectory(raw: Disk) returns (v: Volume, ok: bool, k: nat, ghost j: nat)
    requires 32 <= |raw| <= BITS
    ensures fresh(v) && ok && LostAt(v.Fs(), k, j)
  {
    v := NewRootVolume(raw);
    k, ok, j := 0, true, 0;
    var lost := false;
    while !lost
      invariant fresh(v) && k < 16 && ok
      invariant !lost ==> Filling(v.Fs(), k) && Linked(v.Fs(), true)
      invariant lost ==> LostAt(v.Fs(), k, j)
      decreases 16 - k, if lost then 0 else 1
    {
      ok, lost, j := NextDir(v, k);
      if !lost { k := k + 1; }
    }
  }

  /** A file created in such a root and removed again: the block the root grew by stays used. */
  method GrownForGood(raw: Disk) returns (v: Volume, written: bool, ghost before: FS)
    requires 32 <= |raw| <= BITS
    ensures FullRoot(before) && written && WF(v.Fs()) && Marked(v.blockBmp) != before.used
  {
    var ok, k;
    ghost var j;
    v, ok, k, j := LostDirectory(raw);
    before := v.Fs();
    InRoot(before, LongName(20));
    SomeSpare(before, 200);
    written := CreateThenUnlink(v, [LongName(20)], []);
  }

  // ---------------------------------------------------------------- a leaked table

  const D: Name := [100]
  const MANY: nat := 195   // more entries with long names than 12 blocks hold

  predicate IsLong(name: Name, k: nat)
    requires k <= 256
  {
    exists i: nat {:trigger LongName(i)} :: i < k && name == LongName(i)
  }

  ghost predicate FileIn(fs: FS, d: nat, name: Name)
    requires Shape(fs)
  {
    Found(fs, d, name).Some? && IsFileAt(fs, Found(fs, d, name).value)
  }

  /** Directory `d` of the root has the first `k` long names, for files, and no others. */
  ghost predicate Having(fs: FS, d: nat, k: nat) {
    && WF(fs) && k <= MANY && Found(fs, ROOT, D) == Some(d) && IsDirAt(fs, d)
    && (forall i: nat {:trigger LongName(i)} | i < k :: FileIn(fs, d, LongName(i)))
    && (forall name {:trigger Found(fs, d, name)} | !Dots(name) && Found(fs, d, name).Some? :: IsLong(name, k))
  }

  /** And there is enough for the rest. */
  ghost predicate Growing(fs: FS, d: nat, k: nat) {
    && Having(fs, d, k) && Space(RecsOf(fs, d)) == 24 + 264 * k && Ino(fs, d).size <= BS * (k + 1)
    && Spare(fs, 244 - k) && !Short(fs, 500 - 2 * k)
  }

  lemma NotYet(fs: FS, d: nat, k: nat)
    requires Having(fs, d, k) && k < MANY
    ensures Found(fs, d, LongName(k)) == None
  {
    if Found(fs, d, LongName(k)).Some? {
      var i: nat :| i < k && LongName(k) == LongName(i);
      LongNames(i, k);
      assert false;
    }
  }

  /** The volume with an empty directory in its root. */
  method StartGrowing(raw: Disk) returns (v: Volume, ghost d: nat)
    requires 600 <= |raw| <= BITS
    ensures fresh(v) && Growing(v.Fs(), d, 0)
  {
    v := NewRootVolume(raw);
    ghost var f := v.Fs();
    InRoot(f, D);
    SomeSpare(f, 245);
    Enough(f, 0);
    NewRootRoomy(f, D);
    var ok, refused;
    ok, refused, d := v.Mkdir([D]);
    Started(f, v.Fs(), d);
  }

  lemma Started(fs: FS, fs': FS, d: nat)
    requires Formatted(fs) && Filling(fs, 0) && 600 <= fs.n && 0 < d <= INODES && Made(fs, fs', ROOT, D, d)
    ensures Growing(fs', d, 0)
  {
    NewHas(fs, 510);
    NewRootRoomy(fs, D);
    SpareOne(fs, fs', d, 244);
    StillFree(fs, fs', 500, 10);
    DotsSpace(d);
  }

  lemma DotsSpace(d: nat)
    requires d != 0
    ensures Space(Two(Rec(d, 12, 2, [46]), Rec(2, 4084, 2, [46, 46]))) == 24
  {
    assert Space(One(Rec(2, 4084, 2, [46, 46]))) == 12;
  }

  method GrowOne(v: Volume, ghost d: nat, k: nat)
    requires k < MANY && Growing(v.Fs(), d, k)
    modifies v
    ensures Growing(v.Fs(), d, k + 1)
  {
    ghost var f := v.Fs();
    var name := LongName(k);
    InDir(f, d, D, name);
    NotYet(f, d, k);
    SomeSpare(f, 244 - k);
    NotShort(f, 1, 500 - 2 * k);
    NotShort(f, 2, 500 - 2 * k);
    var ok, refused;
    ghost var j;
    ok, refused, j := v.WriteFile([D, name], []);
    GrownOne(f, v.Fs(), d, k, j);
  }

  lemma GrownOne(fs: FS, fs': FS, d: nat, k: nat, j: nat)
    requires k < MANY && Growing(fs, d, k) && 0 < j <= INODES && Created(fs, fs', d, LongName(k), j, [])
    requires FileWritten(fs, fs', [D, LongName(k)], j, [])
    ensures Growing(fs', d, k + 1)
  {
    InDir(fs, d, D, LongName(k));
    SpareOne(fs, fs', j, 244 - (k + 1));
    StillFree(fs, fs', 500 - 2 * (k + 1), 2);
    HasOne(fs, fs', d, k, j);
  }

  lemma HasOne(fs: FS, fs': FS, d: nat, k: nat, j: nat)
    requires k < MANY && Having(fs, d, k) && 0 < j <= INODES && j - 1 !in fs.ibits
    requires FileWritten(fs, fs', [D, LongName(k)], j, []) && IsDirAt(fs', d) && Parent(fs, [D, LongName(k)]) == Some(d)
    ensures Having(fs', d, k + 1)
  {
    assert EntryOk(fs, ROOT, D);
    forall i: nat | i < k + 1
      ensures FileIn(fs', d, LongName(i))
    {
      if i < k {
        var x := Found(fs, d, LongName(i)).value;
        assert FileIn(fs, d, LongName(i)) && EntryOk(fs, d, LongName(i));
        if LongName(i) == LongName(k) { LongNames(i, k); }
        assert IsFileAt(fs', x) == IsFileAt(fs, x);
      }
    }
    forall name | !Dots(name) && Found(fs', d, name).Some?
      ensures IsLong(name, k + 1)
    {
      if name != LongName(k) {
        var i: nat :| i < k && name == LongName(i);
        assert i < k + 1 && name == LongName(i);
      }
    }
  }

  /** A directory with so many entries has an indirect table. */
  lemma TableThere(fs: FS, d: nat)
    requires Growing(fs, d, MANY)
    ensures Ino(fs, d).indirect != 0
  {
    RoomInside(fs, d, D);
    assert Ino(fs, d).size / BS >= 13;
    assert Ptr(fs.disk, Ino(fs, d), 12) != 0;
  }

  /** Takes entry `k` out again. */
  method ShrinkOne(v: Volume, ghost d: nat, k: nat)
    requires k < MANY && Having(v.Fs(), d, k + 1)
    modifies v
    ensures Having(v.Fs(), d, k) && Ino(v.Fs(), d) == old(Ino(v.Fs(), d))
  {
    ghost var f := v.Fs();
    var name := LongName(k);
    InDir(f, d, D, name);
    assert FileIn(f, d, LongName(k));
    assert EntryOk(f, d, name);
    var ok := v.Unlink([D, name]);
    NotCrossed(f, [D, name]);
    ShrunkOne(f, v.Fs(), d, k);
  }

  lemma ShrunkOne(fs: FS, fs': FS, d: nat, k: nat)
    requires k < MANY && Having(fs, d, k + 1) && RemovedFile(fs, fs', [D, LongName(k)]) && Parent(fs, [D, LongName(k)]) == Some(d)
    ensures Having(fs', d, k)
  {
    var j := Resolve(fs, [D, LongName(k)]).value;
    WalkLast(fs, ROOT, [D, LongName(k)], 0, 2);
    assert EntryOk(fs, ROOT, D) && EntryOk(fs, d, LongName(k));
    assert IsFileAt(fs, d) == IsFileAt(fs', d);
    forall i: nat | i < k
      ensures FileIn(fs', d, LongName(i))
    {
      var x := Found(fs, d, LongName(i)).value;
      assert FileIn(fs, d, LongName(i)) && EntryOk(fs, d, LongName(i));
      if LongName(i) == LongName(k) { LongNames(i, k); }
      assert IsFileAt(fs', x) == IsFileAt(fs, x);
    }
    forall name | !Dots(name) && Found(fs', d, name).Some?
      ensures IsLong(name, k)
    {
      var i: nat :| i < k + 1 && name == LongName(i);
      assert i < k && name == LongName(i);
    }
  }

  /** A directory is filled, emptied and removed: its indirect table stays marked used. */
  method LeakedTable(raw: Disk) returns (v: Volume, ok: bool, ghost table: nat)
    requires 600 <= |raw| <= BITS
    ensures ok && WF(v.Fs()) && Resolve(v.Fs(), [D]) == None && table != 0 && table in Marked(v.blockBmp)
  {
    ghost var d;
    v, d := StartGrowing(raw);
    var k := 0;
    while k < MANY
      invariant k <= MANY && fresh(v) && Growing(v.Fs(), d, k)
    {
      GrowOne(v, d, k);
      k := k + 1;
    }
    TableThere(v.Fs(), d);
    table := Ino(v.Fs(), d).indirect;
    while k > 0
      invariant k <= MANY && fresh(v) && Having(v.Fs(), d, k) && Ino(v.Fs(), d).indirect == table
    {
      k := k - 1;
      ShrinkOne(v, d, k);
    }
    ok := RemoveEmpty(v, d);
  }

  method RemoveEmpty(v: Volume, ghost d: nat) returns (ok: bool)
    requires Having(v.Fs(), d, 0) && Ino(v.Fs(), d).indirect != 0
    modifies v
    ensures ok && WF(v.Fs()) && Resolve(v.Fs(), [D]) == None && old(Ino(v.Fs(), d).indirect) in Marked(v.blockBmp)
  {
    ghost var f := v.Fs();
    InRoot(f, D);
    ok := v.Rmdir([D]);
    RmdirGivesBack(f, v.Fs(), [D], d);
  }

  // ---------------------------------------------------------------- through the bytes of a file

  const F: Name := [102]
  const X: Name := [120]
  const Y: Name := [121]

  /** A block that reads as one record: x, for inode `t`. */
  method Crafted(t: nat) returns (b: Block)
    requires 0 < t <= INODES
    ensures Scan(b, 0, X) == Hit(t) && b[6] == 1
  {
    var r := Rec(t, 4096, 2, X);
    SingleRecord(ZeroBlock, r);
    b := Written(ZeroBlock, 0, r);
    WrittenAt(ZeroBlock, 0, r);
    ScanIsFind(b, 0, X);
  }

  /** A file of one block holds it in a block. */
  lemma FirstBlock(fs: FS, j: nat, b: Block, name: Name)
    requires WF(fs) && 0 < j <= INODES && Content(fs.disk, Ino(fs, j)) == b && b[6] != 0
    ensures LookAt(fs, j, name) == Scan(b, 0, name)
  {
    var ino := Ino(fs, j);
    var p := Ptr(fs.disk, ino, 0);
    assert ByteAt(fs.disk, ino, 6) == b[6];
    forall k | 0 <= k < BS
      ensures fs.disk[p][k] == b[k]
    {
      assert ByteAt(fs.disk, ino, k) == b[k];
    }
    assert fs.disk[p] == b;
    assert LookIn(fs.disk, ino, name, 0) == Missing;
  }

  /**
   The file f holds a record for the root: writing to f/x/y succeeds and makes a file y in the root, though nothing is
   at f/x.
   */
  method ThroughAFile(raw: Disk) returns (v: Volume, ok: bool, ghost before: FS, ghost j: nat)
    requires 32 <= |raw| <= BITS
    ensures ok && WF(before) && Led(before, [F, X]) == Hit(ROOT) && Resolve(before, [F, X]) == None
    ensures Resolve(before, [Y]) == None && WF(v.Fs()) && Resolve(v.Fs(), [Y]) == Some(j) && IsFileAt(v.Fs(), j)
  {
    ghost var i;
    v, i := CraftedFile(raw);
    before := v.Fs();
    Detour(before, i, ROOT, Y);
    InRoot(before, Y);
    var refused;
    ok, refused, j := v.WriteFile([F, X, Y], []);
    InRoot(v.Fs(), Y);
  }

  /** File f of the root, inode `i`, has bytes that read as a record x for directory `t`, which has no entry `y`. */
  ghost predicate OneFile(fs: FS, i: nat, t: nat, y: Name) {
    && WF(fs) && Found(fs, ROOT, F) == Some(i) && IsFileAt(fs, i) && LookAt(fs, i, X) == Hit(t)
    && IsDirAt(fs, t) && Found(fs, t, y) == None && Spare(fs, 1) && !Short(fs, 2) && Ino(fs, t).size <= 3 * BS
  }

  method CraftedFile(raw: Disk) returns (v: Volume, ghost i: nat)
    requires 32 <= |raw| <= BITS
    ensures fresh(v) && OneFile(v.Fs(), i, ROOT, Y)
  {
    v := NewRootVolume(raw);
    ghost var f := v.Fs();
    InRoot(f, F);
    SomeSpare(f, 245);
    Enough(f, 0);
    NewRootRoomy(f, F);
    var b := Crafted(ROOT);
    var ok, refused;
    ok, refused, i := v.WriteFile([F], b);
    CraftedThere(f, v.Fs(), i, b);
  }

  lemma CraftedThere(fs: FS, fs': FS, i: nat, b: Block)
    requires Formatted(fs) && Filling(fs, 0) && 0 < i <= INODES && Created(fs, fs', ROOT, F, i, b)
    requires Scan(b, 0, X) == Hit(ROOT) && b[6] != 0
    ensures OneFile(fs', i, ROOT, Y)
  {
    NewRootRoomy(fs, F);
    NewRootRoomy(fs, Y);
    FirstBlock(fs', i, b, X);
    SpareOne(fs, fs', i, 244);
    StillFree(fs, fs', 16, 2);
    NotShort(fs', 2, 16);
    SpareLess(fs', 244, 1);
  }

  lemma SpareLess(fs: FS, m: nat, k: nat)
    requires Spare(fs, m) && k <= m
    ensures Spare(fs, k)
  {
    var s: set<nat> :| SpareIn(fs, s) && |s| >= m;
    assert SpareIn(fs, s) && |s| >= k;
  }

  lemma Detour(fs: FS, i: nat, t: nat, y: Name)
    requires OneFile(fs, i, t, y)
    ensures Led(fs, [F, X]) == Hit(t) && Resolve(fs, [F, X]) == None
    ensures Led(fs, [F, X, y]) == Missing && Dest(fs, [F, X, y]) == Hit(t) && Inside(fs, [F, X, y])
    ensures !WriteRefused(fs, [F, X, y]) && !CannotWrite(fs, [F, X, y], 0)
  {
    var path, q := [F, X, y], [F, X];
    assert InodeOk(fs, ROOT);
    LookAtDir(fs, ROOT, F);
    LookAtDir(fs, t, y);
    assert Trace(fs, ROOT, path, 0, 1) == Trace(fs, i, path, 1, 1) == Hit(i);
    TraceLast(fs, ROOT, path, 0, 2);
    TraceLast(fs, ROOT, path, 0, 3);
    assert path[..2] == q && q[..2] == q;
    TextOfTwo(F, X);
    CutExactly(q, PARENT_TEXT);
    TracePrefix(fs, ROOT, path, q, 0, 2);
    assert Walk(fs, ROOT, q, 0, 1) == Walk(fs, i, q, 1, 1);
    WalkLast(fs, ROOT, q, 0, 2);
    SomeSpare(fs, 1);
    NotShort(fs, 1, 2);
    NotShort(fs, 0, 2);
  }

  // ---------------------------------------------------------------- a parent that is cut

  const C: Name := [99]

  /** `b` without its last byte. */
  function Clipped(b: Name): Name
    requires |b| > 0
  {
    b[..|b| - 1]
  }

  /** A directory with the name `a` in the root, and in it one with the name `b`, both empty but for that. */
  ghost predicate TwoDeep(fs: FS, a: Name, b: Name, d: nat, e: nat) {
    && WF(fs) && Found(fs, ROOT, a) == Some(d) && IsDirAt(fs, d) && Found(fs, d, b) == Some(e) && IsDirAt(fs, e)
    && (forall nm | !Dots(nm) && nm != b :: Found(fs, d, nm) == None)
    && (forall nm | !Dots(nm) :: Found(fs, e, nm) == None)
    && (forall nm: Name | |nm| <= 255 :: Roomy(fs, e, nm))
    && Spare(fs, 243) && !Short(fs, 14) && Ino(fs, e).size <= BS
    && IsDirAt(fs, ROOT) && Ino(fs, ROOT).size <= BS && Found(fs, ROOT, F) == None
  }

  method MakeTwo(raw: Disk, b: Name) returns (v: Volume, ghost d: nat, ghost e: nat)
    requires 32 <= |raw| <= BITS && NameOk(b) && !Dots(b)
    ensures fresh(v) && TwoDeep(v.Fs(), LongName(0), b, d, e)
  {
    v, d := MakeFirst(raw);
    ghost var f := v.Fs();
    InDir(f, d, LongName(0), b);
    SomeSpare(f, 244);
    NotShort(f, 1, 16);
    NotShort(f, 2, 16);
    assert AnyRoom(One(Rec(2, 4084, 2, [46, 46])), MinLen(|b|));
    var ok, refused;
    ok, refused, e := v.Mkdir([LongName(0), b]);
    TwoMade(f, v.Fs(), LongName(0), b, d, e);
  }

  lemma TwoMade(fs: FS, fs': FS, a: Name, b: Name, d: nat, e: nat)
    requires WF(fs) && !Dots(a) && !Dots(b) && Found(fs, ROOT, a) == Some(d) && IsDirAt(fs, d) && Roomy(fs, d, b)
    requires (forall nm | !Dots(nm) :: Found(fs, d, nm) == None) && Spare(fs, 244) && !Short(fs, 16)
    requires Ino(fs, ROOT).size == BS && Found(fs, ROOT, F) == None
    requires 0 < e <= INODES && Made(fs, fs', d, b, e)
    ensures TwoDeep(fs', a, b, d, e)
  {
    MadeLeaves(fs, fs', e);
    assert EntryOk(fs, ROOT, a) && InodeOk(fs, e) && InodeOk(fs, ROOT);
    OthersFound(fs, fs', {d, e}, ROOT, a);
    OthersFound(fs, fs', {d, e}, ROOT, F);
    assert Kept(fs, fs', ROOT);
    KeptSays(fs, fs', ROOT);
    DotsRoomy(fs', e, d);
  }

  /** A new directory has room for any name. */
  lemma DotsRoomy(fs: FS, e: nat, d: nat)
    requires Shape(fs) && IsDirAt(fs, e) && RecsOf(fs, e) == Two(Rec(e, 12, 2, [46]), Rec(d, 4084, 2, [46, 46]))
    ensures forall nm: Name | |nm| <= 255 :: Roomy(fs, e, nm)
  {
    forall nm: Name | |nm| <= 255
      ensures Roomy(fs, e, nm)
    {
      assert AnyRoom(One(Rec(d, 4084, 2, [46, 46])), MinLen(|nm|));
    }
  }

  lemma MadeLeaves(fs: FS, fs': FS, j: nat)
    requires Spare(fs, 244) && !Short(fs, 16) && 0 < j
    requires fs'.n == fs.n && fs'.ibits == fs.ibits + {j - 1} && |fs'.used - fs.used| == 1
    ensures Spare(fs', 243) && !Short(fs', 14)
  {
    SpareOne(fs, fs', j, 243);
    StillFree(fs, fs', 14, 2);
  }

  /** A directory in the root of a new volume. */
  method MakeFirst(raw: Disk) returns (v: Volume, ghost d: nat)
    requires 32 <= |raw| <= BITS
    ensures fresh(v) && WF(v.Fs()) && Found(v.Fs(), ROOT, LongName(0)) == Some(d) && IsDirAt(v.Fs(), d)
    ensures RecsOf(v.Fs(), d) == Two(Rec(d, 12, 2, [46]), Rec(2, 4084, 2, [46, 46])) && Ino(v.Fs(), d).size == BS
    ensures (forall nm | !Dots(nm) :: Found(v.Fs(), d, nm) == None) && Spare(v.Fs(), 244) && !Short(v.Fs(), 16)
    ensures Ino(v.Fs(), ROOT).size == BS && Found(v.Fs(), ROOT, F) == None
  {
    v := NewRootVolume(raw);
    ghost var f := v.Fs();
    InRoot(f, LongName(0));
    SomeSpare(f, 245);
    NotShort(f, 1, 18);
    NotShort(f, 2, 18);
    NewRootRoomy(f, LongName(0));
    NewRootRoomy(f, F);
    var ok, refused;
    ok, refused, d := v.Mkdir([LongName(0)]);
    InRoot(v.Fs(), LongName(0));
    SpareOne(f, v.Fs(), d, 244);
    StillFree(f, v.Fs(), 16, 2);
  }

  /** With a parent of 512 bytes, the code looks for one whose last name is one byte shorter. */
  lemma CutParent(fs: FS, d: nat, a: Name, b: Name)
    requires WF(fs) && |a| == 255 && |b| == 255 && NameOk(a) && NameOk(b) && Found(fs, ROOT, a) == Some(d) && IsDirAt(fs, d)
    ensures Base([a, b, C]) == [a, Clipped(b)] && NameOk(Clipped(b))
    ensures Dest(fs, [a, b, C]) == AsLook(Found(fs, d, Clipped(b)))
    ensures Resolve(fs, [a, b]) == Found(fs, d, b) && Led(fs, [a, b]) == AsLook(Found(fs, d, b))
  {
    var path := [a, b, C];
    assert path[..2] == [a, b] && [a, b][1..] == [b];
    assert Cut([b], 255) == [Clipped(b)];
    InDir(fs, d, a, Clipped(b));
    InDir(fs, d, a, b);
  }

  /** The directory is there, and a file in it is refused. */
  method RefusedThere(raw: Disk) returns (v: Volume, refused: bool, ghost e: nat)
    requires 32 <= |raw| <= BITS
    ensures WF(v.Fs()) && Resolve(v.Fs(), [LongName(0), LongName(1)]) == Some(e) && IsDirAt(v.Fs(), e) && refused
  {
    ghost var d;
    v, d, e := MakeTwo(raw, LongName(1));
    ghost var f := v.Fs();
    CutParent(f, d, LongName(0), LongName(1));
    assert Clipped(LongName(1)) != LongName(1);
    assert !Dots(Clipped(LongName(1)));
    LedInto(f, d, e, LongName(0), LongName(1));
    var ok;
    ghost var j;
    ok, refused, j := v.WriteFile([LongName(0), LongName(1), C], []);
  }

  lemma LedInto(fs: FS, d: nat, e: nat, a: Name, b: Name)
    requires TwoDeep(fs, a, b, d, e) && NameOk(a) && NameOk(b)
    ensures Led(fs, [a, b, C]) == Missing
  {
    var path, q := [a, b, C], [a, b];
    InDir(fs, d, a, b);
    assert path[..2] == q && q[..2] == q;
    TracePrefix(fs, ROOT, q, path, 0, 2);
    TraceLast(fs, ROOT, path, 0, 3);
    LookAtDir(fs, e, C);
  }

  /** No such directory, but one whose name is one byte shorter: the file is made there, and is not at the path given. */
  method MadeElsewhere(raw: Disk) returns (v: Volume, ok: bool, read: bool, ghost j: nat)
    requires 32 <= |raw| <= BITS
    ensures ok && !read && WF(v.Fs()) && Resolve(v.Fs(), [LongName(0), LongName(1), C]) == None
    ensures Resolve(v.Fs(), [LongName(0), Clipped(LongName(1)), C]) == Some(j)
  {
    ghost var d, e;
    var a, b := LongName(0), LongName(1);
    assert NameOk(Clipped(b)) && !Dots(Clipped(b)) && b != Clipped(b);
    v, d, e := MakeTwo(raw, Clipped(b));
    ghost var f := v.Fs();
    CutParent(f, d, a, b);
    Nowhere(f, d, a, b);
    SomeSpare(f, 243);
    NotShort(f, 1, 14);
    NotShort(f, 0, 14);
    var refused;
    ok, refused, j := v.WriteFile([a, b, C], []);
    ghost var g := v.Fs();
    Elsewhere(f, g, d, e, j, a, b);
    Nowhere(g, d, a, b);
    var out;
    read, out := v.ReadFile([a, b, C], 0);
  }

  lemma Nowhere(fs: FS, d: nat, a: Name, b: Name)
    requires WF(fs) && NameOk(a) && NameOk(b) && Found(fs, ROOT, a) == Some(d) && IsDirAt(fs, d) && Found(fs, d, b) == None
    ensures Led(fs, [a, b, C]) == Missing && Resolve(fs, [a, b, C]) == None
  {
    var path, q := [a, b, C], [a, b];
    InDir(fs, d, a, b);
    assert path[..2] == q && q[..2] == q;
    TracePrefix(fs, ROOT, q, path, 0, 2);
    TraceMisses(fs, ROOT, path, 0, 3);
    WalkPrefix(fs, ROOT, q, path, 0, 2);
    WalkLast(fs, ROOT, path, 0, 3);
  }

  lemma Elsewhere(fs: FS, fs': FS, d: nat, e: nat, j: nat, a: Name, b: Name)
    requires NameOk(a) && NameOk(b) && |b| == 255 && TwoDeep(fs, a, Clipped(b), d, e) && NameOk(Clipped(b))
    requires 0 < j <= INODES && Created(fs, fs', e, C, j, []) && b != Clipped(b) && Found(fs, d, b) == None
    ensures Found(fs', ROOT, a) == Some(d) && IsDirAt(fs', d) && Found(fs', d, b) == None
    ensures Resolve(fs', [a, Clipped(b), C]) == Some(j)
  {
    assert EntryOk(fs, ROOT, a) && EntryOk(fs, d, Clipped(b)) && InodeOk(fs, j) && InodeOk(fs, d);
    OthersFound(fs, fs', {e, j}, ROOT, a);
    OthersFound(fs, fs', {e, j}, d, b);
    OthersFound(fs, fs', {e, j}, d, Clipped(b));
    assert Kept(fs, fs', d);
    KeptSays(fs, fs', d);
    var path, q := [a, Clipped(b), C], [a, Clipped(b)];
    InDir(fs', d, a, Clipped(b));
    assert path[..2] == q && q[..2] == q;
    WalkPrefix(fs', ROOT, q, path, 0, 2);
    WalkLast(fs', ROOT, path, 0, 3);
  }

  // ---------------------------------------------------------------- an unlink that takes out another entry

  /** Directories a, a/b and a/b/d, with few blocks; the text of a/b fills the buffer for a parent. */
  ghost predicate Nest(fs: FS, a: Name, b: Name, x: nat, y: nat, z: nat) {
    && WF(fs) && |a| == 255 && |b| == 254 && NameOk(a) && NameOk(b) && !Dots(a) && !Dots(b) && a != F
    && Found(fs, ROOT, a) == Some(x) && IsDirAt(fs, x) && Found(fs, x, b) == Some(y) && IsDirAt(fs, y)
    && Found(fs, y, D) == Some(z) && IsDirAt(fs, z) && IsDirAt(fs, ROOT)
    && Ino(fs, ROOT).size <= 2 * BS && Ino(fs, y).size <= 2 * BS && Ino(fs, z).size <= BS
  }

  lemma TextOfTwo(a: Name, b: Name)
    ensures TextLen([a, b]) == 2 + |a| + |b|
  {
    assert [a, b][1..] == [b] && [b][1..] == [];
    assert TextLen([b]) == 1 + |b| + TextLen([]);
    assert TextLen([a, b]) == 1 + |a| + TextLen([b]);
  }

  lemma InNest(fs: FS, a: Name, b: Name, x: nat, y: nat, name: Name)
    requires WF(fs) && |a| == 255 && |b| == 254 && NameOk(a) && NameOk(b) && NameOk(name)
    requires Found(fs, ROOT, a) == Some(x) && IsDirAt(fs, x) && Found(fs, x, b) == Some(y) && IsDirAt(fs, y)
    ensures var path := [a, b, name];
            && Straight(fs, path) && Inside(fs, path) && Dest(fs, path) == Hit(y)
            && Parent(fs, path) == Some(y) && Resolve(fs, path) == Found(fs, y, name)
            && Led(fs, path) == AsLook(Found(fs, y, name))
  {
    var path, q := [a, b, name], [a, b];
    assert path[..2] == q && q[..2] == q;
    TextOfTwo(a, b);
    InDir(fs, x, a, b);
    WalkPrefix(fs, ROOT, q, path, 0, 2);
    WalkLast(fs, ROOT, path, 0, 3);
    ClearIf(fs, path);
    StraightOn(fs, path);
  }

  method MakeNest(raw: Disk) returns (v: Volume, ghost x: nat, ghost y: nat, ghost z: nat)
    requires 32 <= |raw| <= BITS
    ensures fresh(v) && Nest(v.Fs(), LongName(0), Clipped(LongName(1)), x, y, z)
    ensures Found(v.Fs(), y, C) == None && Found(v.Fs(), z, C) == None && Found(v.Fs(), ROOT, F) == None
    ensures Spare(v.Fs(), 242) && !Short(v.Fs(), 12) && Ino(v.Fs(), y).size <= BS && Ino(v.Fs(), ROOT).size <= BS
  {
    var a, b := LongName(0), Clipped(LongName(1));
    v, x, y := MakeTwo(raw, b);
    ghost var f := v.Fs();
    InNest(f, a, b, x, y, D);
    SomeSpare(f, 243);
    NotShort(f, 1, 14);
    var ok, refused;
    ok, refused, z := v.Mkdir([a, b, D]);
    Nested(f, v.Fs(), a, b, x, y, z);
  }

  lemma Nested(fs: FS, fs': FS, a: Name, b: Name, x: nat, y: nat, z: nat)
    requires TwoDeep(fs, a, b, x, y) && |a| == 255 && |b| == 254 && NameOk(a) && NameOk(b) && !Dots(a) && !Dots(b)
    requires 0 < z <= INODES && Made(fs, fs', y, D, z)
    ensures Nest(fs', a, b, x, y, z) && Spare(fs', 242) && !Short(fs', 12) && Ino(fs', y).size <= BS && Ino(fs', ROOT).size <= BS
    ensures Found(fs', y, C) == None && Found(fs', z, C) == None && Found(fs', ROOT, F) == None
  {
    SpareOne(fs, fs', z, 242);
    StillFree(fs, fs', 12, 2);
    StaysBut(fs, fs', y, z, ROOT, a, x);
    StaysBut(fs, fs', y, z, x, b, y);
    OthersFound(fs, fs', {y, z}, ROOT, F);
  }

  /** An entry of a directory that stays. */
  lemma StaysBut(fs: FS, fs': FS, d: nat, j: nat, e: nat, name: Name, k: nat)
    requires WF(fs) && WF(fs') && 0 < j <= INODES && j - 1 !in fs.ibits && Others(fs, fs', {d, j}) && e != d
    requires IsDirAt(fs, e) && !Dots(name) && Found(fs, e, name) == Some(k)
    ensures e != j && k != j && IsDirAt(fs', e) && Ino(fs', e) == Ino(fs, e) && Found(fs', e, name) == Some(k)
  {
    assert EntryOk(fs, e, name) && InodeOk(fs, j) && InodeOk(fs, e) && Kept(fs, fs', e);
    KeptSays(fs, fs', e);
  }

  /** A file with the same name in a/b and in a/b/d; the second is made through the bytes of file f. */
  method FillNest(raw: Disk) returns (v: Volume, ghost x: nat, ghost y: nat, ghost z: nat)
    requires 32 <= |raw| <= BITS
    ensures fresh(v) && Both(v.Fs(), LongName(0), Clipped(LongName(1)), x, y, z)
  {
    var a, b := LongName(0), Clipped(LongName(1));
    v, x, y, z := FillOne(raw);
    ghost var i := CraftInto(v, a, b, x, y, z);
    ghost var g := v.Fs();
    Detour(g, i, z, C);
    var ok, refused;
    ghost var j;
    ok, refused, j := v.WriteFile([F, X, C], []);
    FilledLast(g, v.Fs(), a, b, x, y, z, j);
  }

  method FillOne(raw: Disk) returns (v: Volume, ghost x: nat, ghost y: nat, ghost z: nat)
    requires 32 <= |raw| <= BITS
    ensures fresh(v) && OneIn(v.Fs(), LongName(0), Clipped(LongName(1)), x, y, z)
  {
    var a, b := LongName(0), Clipped(LongName(1));
    v, x, y, z := MakeNest(raw);
    ghost var f := v.Fs();
    InNest(f, a, b, x, y, C);
    SomeSpare(f, 242);
    NotShort(f, 0, 12);
    NotShort(f, 1, 12);
    var ok, refused;
    ghost var j;
    ok, refused, j := v.WriteFile([a, b, C], []);
    FilledIn(f, v.Fs(), a, b, x, y, z, j);
  }

  /** The file a/b/c is there, and no file f. */
  ghost predicate OneIn(fs: FS, a: Name, b: Name, x: nat, y: nat, z: nat) {
    && Nest(fs, a, b, x, y, z) && Ino(fs, ROOT).size <= BS && Spare(fs, 241) && !Short(fs, 10)
    && Found(fs, y, C).Some? && Found(fs, z, C) == None && Found(fs, ROOT, F) == None
  }

  lemma FilledIn(fs: FS, fs': FS, a: Name, b: Name, x: nat, y: nat, z: nat, j: nat)
    requires Nest(fs, a, b, x, y, z) && 0 < j <= INODES && Created(fs, fs', y, C, j, [])
    requires Ino(fs, y).size <= BS && Ino(fs, ROOT).size <= BS
    requires Found(fs, z, C) == None && Found(fs, ROOT, F) == None && Spare(fs, 242) && !Short(fs, 12)
    ensures OneIn(fs', a, b, x, y, z)
  {
    SpareOne(fs, fs', j, 241);
    StillFree(fs, fs', 10, 2);
    assert EntryOk(fs, ROOT, a) && EntryOk(fs, x, b);
    StaysBut(fs, fs', y, j, ROOT, a, x);
    StaysBut(fs, fs', y, j, x, b, y);
    assert EntryOk(fs, y, D) && InodeOk(fs, z) && Kept(fs, fs', z);
    KeptSays(fs, fs', z);
    OthersFound(fs, fs', {y, j}, ROOT, F);
  }

  method CraftInto(v: Volume, a: Name, b: Name, ghost x: nat, ghost y: nat, ghost z: nat) returns (ghost i: nat)
    requires OneIn(v.Fs(), a, b, x, y, z)
    modifies v
    ensures Nest(v.Fs(), a, b, x, y, z) && OneFile(v.Fs(), i, z, C) && Found(v.Fs(), y, C).Some?
  {
    ghost var f := v.Fs();
    InNest(f, a, b, x, y, D);
    FoundRange(f, y, D);
    var r := v.ResolvePath([a, b, D]);
    var blk := Crafted(r.inode);
    InRoot(f, F);
    SomeSpare(f, 241);
    NotShort(f, 1, 10);
    NotShort(f, 2, 10);
    var ok, refused;
    ok, refused, i := v.WriteFile([F], blk);
    CraftedIn(f, v.Fs(), a, b, x, y, z, i, blk);
  }

  lemma CraftedIn(fs: FS, fs': FS, a: Name, b: Name, x: nat, y: nat, z: nat, i: nat, blk: Block)
    requires OneIn(fs, a, b, x, y, z) && 0 < i <= INODES && Created(fs, fs', ROOT, F, i, blk)
    requires Scan(blk, 0, X) == Hit(z) && blk[6] != 0
    ensures Nest(fs', a, b, x, y, z) && OneFile(fs', i, z, C) && Found(fs', y, C).Some?
  {
    FirstBlock(fs', i, blk, X);
    StillEnough(fs, fs', i);
    assert EntryOk(fs, ROOT, a) && EntryOk(fs, x, b) && EntryOk(fs, y, D);
    StaysBut(fs, fs', ROOT, i, x, b, y);
    StaysBut(fs, fs', ROOT, i, y, D, z);
    DirKept(fs, fs', ROOT, i, z);
    OthersFound(fs, fs', {ROOT, i}, y, C);
  }

  lemma DirKept(fs: FS, fs': FS, d: nat, j: nat, z: nat)
    requires WF(fs) && WF(fs') && Others(fs, fs', {d, j}) && IsDirAt(fs, z) && z != d && z != j
    ensures IsDirAt(fs', z) && Ino(fs', z) == Ino(fs, z) && forall nm :: Found(fs', z, nm) == Found(fs, z, nm)
  {
    assert InodeOk(fs, z) && Kept(fs, fs', z);
    KeptSays(fs, fs', z);
  }

  lemma StillEnough(fs: FS, fs': FS, i: nat)
    requires Spare(fs, 241) && !Short(fs, 10) && 0 < i && fs'.n == fs.n && fs'.ibits == fs.ibits + {i - 1} && |fs'.used - fs.used| <= 3
    ensures Spare(fs', 1) && !Short(fs', 2)
  {
    SpareOne(fs, fs', i, 240);
    SpareLess(fs', 240, 1);
    StillFree(fs, fs', 7, 3);
    NotShort(fs', 2, 7);
  }

  /** Directories a, a/b and a/b/d, and files a/b/c and a/b/d/c. */
  ghost predicate Both(fs: FS, a: Name, b: Name, x: nat, y: nat, z: nat) {
    && WF(fs) && Found(fs, ROOT, a) == Some(x) && IsDirAt(fs, x) && Found(fs, x, b) == Some(y) && IsDirAt(fs, y)
    && Found(fs, y, D) == Some(z) && IsDirAt(fs, z) && Found(fs, y, C).Some? && FileIn(fs, z, C)
  }

  lemma FilledLast(fs: FS, fs': FS, a: Name, b: Name, x: nat, y: nat, z: nat, j: nat)
    requires Nest(fs, a, b, x, y, z) && 0 < j <= INODES && Created(fs, fs', z, C, j, []) && Found(fs, y, C).Some?
    ensures Both(fs', a, b, x, y, z)
  {
    assert EntryOk(fs, ROOT, a) && EntryOk(fs, x, b) && EntryOk(fs, y, D);
    StaysBut(fs, fs', z, j, ROOT, a, x);
    StaysBut(fs, fs', z, j, x, b, y);
    StaysBut(fs, fs', z, j, y, D, z);
    OthersFound(fs, fs', {z, j}, y, C);
  }

  /** Removing a/b/d/c succeeds, takes the entry of a/b/c out instead, and leaves a volume that is not sound. */
  method CrossedUnlink(raw: Disk) returns (v: Volume, ok: bool, ghost before: FS)
    requires 32 <= |raw| <= BITS
    ensures ok && WF(before) && Crossed(before, [LongName(0), Clipped(LongName(1)), D, C]) && !WF(v.Fs())
  {
    var a, b := LongName(0), Clipped(LongName(1));
    ghost var x, y, z;
    v, x, y, z := FillNest(raw);
    before := v.Fs();
    Across(before, a, b, x, y, z);
    ok := v.Unlink([a, b, D, C]);
  }

  /** Two components fill the room, and the third is dropped. */
  lemma CutLast(a: Name, b: Name, c: Name, room: nat)
    requires room == 2 + |a| + |b| && |b| > 0
    ensures Cut([a, b, c], room) == [a, b]
  {
    assert [a, b, c][1..] == [b, c] && [b, c][1..] == [c];
    assert Cut([c], 0) == [];
    assert Cut([b, c], 1 + |b|) == [b] + Cut([c], 0);
    assert Cut([a, b, c], room) == [a] + Cut([b, c], 1 + |b|);
  }

  lemma Across(fs: FS, a: Name, b: Name, x: nat, y: nat, z: nat)
    requires |a| == 255 && |b| == 254 && NameOk(a) && NameOk(b) && Both(fs, a, b, x, y, z)
    ensures var path := [a, b, D, C];
            Clear(fs, path) && Inside(fs, path) && Removable(fs, path) && Crossed(fs, path)
  {
    var path, q := [a, b, D, C], [a, b, D];
    assert path[..3] == q && q[..3] == q;
    CutLast(a, b, D, PARENT_TEXT);
    InDir(fs, x, a, b);
    InNest(fs, a, b, x, y, D);
    WalkPrefix(fs, ROOT, q, path, 0, 3);
    WalkLast(fs, ROOT, path, 0, 4);
    ClearIf(fs, path);
    ClearAgrees(fs, path, 4);
    assert EntryOk(fs, y, C) && EntryOk(fs, z, C) && EntryOk(fs, y, D);
  }
}
