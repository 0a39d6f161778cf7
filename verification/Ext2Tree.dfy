/** The volume as a tree of names: what the operations do to it, and what holds after any run of them. */
module Ext2Tree {
  import opened Basics
  import opened Ext2Bytes
  import opened Ext2Bitmap
  import opened Ext2Dir
  import opened Ext2Volume
  import opened Ext2State
  import opened Ext2Walk
  import opened Ext2Paths
  import opened Ext2Links
  import opened Ext2Driver

  /** Each block an inode names is data and marked used, and no other pointer names it. */
  lemma NamedOnce(fs: FS, i: nat, s: nat, i': nat, s': nat)
    requires WF(fs) && 0 < i <= INODES && 0 < i' <= INODES && s < SLOTS && s' < SLOTS
    requires Slot(fs.disk, Ino(fs, i), s) != 0
    ensures FIRST_DATA <= Slot(fs.disk, Ino(fs, i), s) < fs.n && Slot(fs.disk, Ino(fs, i), s) in fs.used
    ensures Slot(fs.disk, Ino(fs, i), s) == Slot(fs.disk, Ino(fs, i'), s') ==> i == i' && s == s'
  {
    assert InodeOk(fs, i) && InodeOk(fs, i');
  }

  // ---------------------------------------------------------------- one path for each inode

  /** Neither `.` nor `..` on the way. */
  predicate Plain(path: Path) {
    forall k | 0 <= k < |path| :: !Dots(path[k])
  }

  /** Two plain walks that end at the same inode are the same walk. */
  lemma {:induction false} SameWalk(fs: FS, p: Path, m: nat, q: Path, n: nat)
    requires WF(fs) && m <= |p| && n <= |q| && Plain(p) && Plain(q)
    requires Walk(fs, ROOT, p, 0, m).Some? && Walk(fs, ROOT, p, 0, m) == Walk(fs, ROOT, q, 0, n)
    ensures m == n && p[..m] == q[..n]
    decreases m + n
  {
    if m > 0 { WalkLast(fs, ROOT, p, 0, m); }
    if n > 0 { WalkLast(fs, ROOT, q, 0, n); }
    if m > 0 {
      assert EntryOk(fs, Walk(fs, ROOT, p, 0, m - 1).value, p[m - 1]);
    }
    if n > 0 {
      assert EntryOk(fs, Walk(fs, ROOT, q, 0, n - 1).value, q[n - 1]);
    }
    if m > 0 && n > 0 {
      SameWalk(fs, p, m - 1, q, n - 1);
      assert p[..m] == p[..m - 1] + [p[m - 1]];
      assert q[..n] == q[..n - 1] + [q[n - 1]];
    }
  }

  lemma OnePath(fs: FS, p: Path, q: Path)
    requires WF(fs) && Plain(p) && Plain(q) && Resolve(fs, p).Some? && Resolve(fs, p) == Resolve(fs, q)
    ensures p == q
  {
    SameWalk(fs, p, |p|, q, |q|);
    assert p[..|p|] == p && q[..|q|] == q;
  }

  /** Nor do two clear paths take the code to the same inode. */
  lemma OneClearPath(fs: FS, p: Path, q: Path)
    requires WF(fs) && Plain(p) && Plain(q) && Clear(fs, p) && Clear(fs, q) && Led(fs, p).Hit? && Led(fs, p) == Led(fs, q)
    ensures p == q
  {
    ClearAgrees(fs, p, |p|);
    ClearAgrees(fs, q, |q|);
    OnePath(fs, p, q);
  }

  // ---------------------------------------------------------------- what a path shows

  datatype Node = Absent | Dir | File(bytes: seq<byte>)

  ghost function View(fs: FS, path: Path): Node
    requires Shape(fs)
  {
    if Resolve(fs, path).None? then Absent
    else if IsDirAt(fs, Resolve(fs, path).value) then Dir
    else if IsFileAt(fs, Resolve(fs, path).value) then File(Content(fs.disk, Ino(fs, Resolve(fs, path).value)))
    else Absent
  }

  /** As far as plain paths go, `fs'` has the entries of `fs` and others only for `j`, from which nothing leads on. */
  ghost predicate PlainLeaf(fs: FS, fs': FS, j: nat)
    requires Shape(fs) && Shape(fs')
  {
    && (forall d: nat, name {:trigger Found(fs', d, name)} {:trigger Found(fs, d, name)} | !Dots(name) ::
          Found(fs', d, name) == Found(fs, d, name) || (Found(fs', d, name) == Some(j) && Found(fs, d, name) == None))
    && (forall name :: !Dots(name) ==> Found(fs', j, name) == None)
  }

  lemma {:induction false} PlainWalk(fs: FS, fs': FS, j: nat, d: nat, path: Path, k: nat)
    requires Shape(fs) && Shape(fs') && PlainLeaf(fs, fs', j) && Plain(path)
    ensures Walk(fs', d, path, k, |path|) == Walk(fs, d, path, k, |path|)
            || (Walk(fs', d, path, k, |path|) == Some(j) && Walk(fs, d, path, k, |path|) == None)
    decreases |path| - k
  {
    if k < |path| {
      assert Found(fs', d, path[k]) == Found(fs, d, path[k]) || Found(fs', d, path[k]) == Some(j);
      if Found(fs', d, path[k]).Some? {
        PlainWalk(fs, fs', j, Found(fs', d, path[k]).value, path, k + 1);
        if Found(fs', d, path[k]) != Found(fs, d, path[k]) && k + 1 < |path| {
          assert Found(fs', j, path[k + 1]) == None;
        }
      }
    }
  }

  /** Only `path` shows something else when `j`, at `path`, came or went. */
  lemma LeafStep(fs: FS, fs': FS, path: Path, j: nat, p: Path)
    requires WF(fs) && WF(fs') && PlainLeaf(fs, fs', j) && OtherNodes(fs, fs', j)
    requires Plain(path) && Resolve(fs', path) == Some(j) && Plain(p) && p != path
    ensures View(fs', p) == View(fs, p)
  {
    PlainWalk(fs, fs', j, ROOT, p, 0);
    if Resolve(fs', p) == Some(j) {
      OnePath(fs', p, path);
    }
    if Resolve(fs', p).Some? {
      WalkRange(fs', ROOT, p, 0, |p|);
      assert IsFileAt(fs, Resolve(fs', p).value) == IsFileAt(fs', Resolve(fs', p).value);
    }
  }

  /** `fs'` shows at plain paths what `fs` shows, but `node` at `path`. */
  ghost predicate Shown(fs: FS, fs': FS, path: Path, node: Node)
    requires Shape(fs) && Shape(fs')
  {
    forall p: Path | Plain(p) :: View(fs', p) == if p == path then node else View(fs, p)
  }

  lemma WriteShows(fs: FS, fs': FS, path: Path, j: nat, bytes: seq<byte>)
    requires WF(fs) && |path| > 0 && 0 < j <= INODES && Plain(path) && FileWritten(fs, fs', path, j, bytes)
    ensures Shown(fs, fs', path, File(bytes))
  {
    assert InodeOk(fs', j);
    forall p: Path | Plain(p)
      ensures View(fs', p) == if p == path then File(bytes) else View(fs, p)
    {
      if p != path { WriteElse(fs, fs', path, j, bytes, p); }
    }
  }

  lemma WriteElse(fs: FS, fs': FS, path: Path, j: nat, bytes: seq<byte>, p: Path)
    requires WF(fs) && |path| > 0 && 0 < j <= INODES && Plain(path) && FileWritten(fs, fs', path, j, bytes)
    requires Plain(p) && p != path
    ensures View(fs', p) == View(fs, p)
  {
    WrittenLeaf(fs, fs', path, j, bytes);
    LeafStep(fs, fs', path, j, p);
  }

  lemma WrittenLeaf(fs: FS, fs': FS, path: Path, j: nat, bytes: seq<byte>)
    requires WF(fs) && |path| > 0 && 0 < j <= INODES && FileWritten(fs, fs', path, j, bytes)
    ensures PlainLeaf(fs, fs', j)
  {
    var d, last := Parent(fs, path).value, path[|path| - 1];
    WalkLast(fs, ROOT, path, 0, |path|);
    assert InodeOk(fs', j);
    assert Resolve(fs, path) == Found(fs, d, last);
    forall e: nat, name
      ensures Found(fs', e, name) == Found(fs, e, name) || (Found(fs', e, name) == Some(j) && Found(fs, e, name) == None)
    {
      assert Found(fs', e, name) == if e == d && name == last then Some(j) else Found(fs, e, name);
    }
  }

  lemma UnlinkShows(fs: FS, fs': FS, path: Path, j: nat)
    requires WF(fs) && 0 < j <= INODES && Plain(path) && !IsDir(Ino(fs, j)) && FileRemoved(fs, fs', path, j)
    ensures Shown(fs, fs', path, Absent)
  {
    RemovedLeaf(fs, fs', path, j);
    forall p: Path | Plain(p)
      ensures View(fs', p) == if p == path then Absent else View(fs, p)
    {
      if p != path { LeafStep(fs', fs, path, j, p); }
    }
  }

  lemma RemovedLeaf(fs: FS, fs': FS, path: Path, j: nat)
    requires WF(fs) && 0 < j <= INODES && !IsDir(Ino(fs, j)) && FileRemoved(fs, fs', path, j)
    ensures PlainLeaf(fs', fs, j) && OtherNodes(fs', fs, j)
  {
    var d, last := Parent(fs, path).value, path[|path| - 1];
    WalkLast(fs, ROOT, path, 0, |path|);
    forall e: nat, name
      ensures Found(fs, e, name) == Found(fs', e, name) || (Found(fs, e, name) == Some(j) && Found(fs', e, name) == None)
    {
      assert Found(fs', e, name) == if e == d && name == last then None else Found(fs, e, name);
    }
    NodesBack(fs, fs', j);
  }

  lemma NodesBack(fs: FS, fs': FS, j: nat)
    requires Shape(fs) && Shape(fs') && OtherNodes(fs, fs', j)
    ensures OtherNodes(fs', fs, j)
  {
    forall i | 0 < i <= INODES && i != j
      ensures IsFileAt(fs, i) == IsFileAt(fs', i) && IsDirAt(fs, i) == IsDirAt(fs', i)
      ensures IsFileAt(fs', i) ==> Content(fs.disk, Ino(fs, i)) == Content(fs'.disk, Ino(fs', i))
    {
      assert IsFileAt(fs', i) == IsFileAt(fs, i);
    }
  }

  /** A new directory shows exactly when its entry fitted into a block its parent had. */
  lemma MkdirShows(fs: FS, fs': FS, path: Path, j: nat)
    requires WF(fs) && 0 < j <= INODES && Plain(path) && DirMade(fs, fs', path, j)
    ensures Shown(fs, fs', path, if Roomy(fs, Parent(fs, path).value, path[|path| - 1]) then Dir else Absent)
  {
    MadeLeaf(fs, fs', path, j);
    forall p: Path | Plain(p)
      ensures View(fs', p) == if p != path then View(fs, p) else if Resolve(fs', path).Some? then Dir else Absent
    {
      if Resolve(fs', path).Some? {
        if p != path { LeafStep(fs, fs', path, j, p); }
      } else {
        SameView(fs, fs', j, p);
      }
    }
  }

  lemma MadeLeaf(fs: FS, fs': FS, path: Path, j: nat)
    requires WF(fs) && 0 < j <= INODES && DirMade(fs, fs', path, j)
    ensures Unnamed(fs, j) && j != ROOT && PlainLeaf(fs, fs', j)
    ensures Resolve(fs', path).None? ==>
              forall d: nat, name {:trigger Found(fs', d, name)} | !Dots(name) :: Found(fs', d, name) == Found(fs, d, name)
  {
    var d, last := Parent(fs, path).value, path[|path| - 1];
    assert InodeOk(fs, j);
    FreeUnnamed(fs, j);
    WalkLast(fs, ROOT, path, 0, |path|);
    forall e: nat, name | !Dots(name)
      ensures Found(fs', e, name) ==
                if Resolve(fs', path).Some? && e == d && name == last then Some(j) else Found(fs, e, name)
    {
      assert Found(fs, j, name) == None && Found(fs', j, name) == None;
    }
  }

  lemma FreeUnnamed(fs: FS, j: nat)
    requires WF(fs) && 0 < j && j - 1 !in fs.ibits
    ensures Unnamed(fs, j)
  {
    forall d: nat, name | !Dots(name)
      ensures Found(fs, d, name) != Some(j)
    {
      assert EntryOk(fs, d, name);
    }
  }

  /** The same plain entries, and the same inodes but for one that no entry names. */
  lemma SameView(fs: FS, fs': FS, j: nat, p: Path)
    requires WF(fs) && WF(fs') && OtherNodes(fs, fs', j) && Unnamed(fs, j) && j != ROOT && Plain(p)
    requires forall d: nat, name {:trigger Found(fs', d, name)} | !Dots(name) :: Found(fs', d, name) == Found(fs, d, name)
    ensures View(fs', p) == View(fs, p)
  {
    PlainWalk(fs, fs', 0, ROOT, p, 0);
    if Resolve(fs', p).Some? {
      WalkRange(fs', ROOT, p, 0, |p|);
      if |p| > 0 { WalkLast(fs, ROOT, p, 0, |p|); }
      assert IsFileAt(fs, Resolve(fs', p).value) == IsFileAt(fs', Resolve(fs', p).value);
    }
  }

  lemma RmdirShows(fs: FS, fs': FS, path: Path, j: nat)
    requires WF(fs) && 0 < j <= INODES && Plain(path) && EmptyDir(fs, j) && DirRemoved(fs, fs', path, j)
    ensures Shown(fs, fs', path, Absent)
  {
    EmptiedLeaf(fs, fs', path, j);
    forall p: Path | Plain(p)
      ensures View(fs', p) == if p == path then Absent else View(fs, p)
    {
      if p != path {
        LeafStep(fs', fs, path, j, p);
      }
    }
  }

  lemma EmptiedLeaf(fs: FS, fs': FS, path: Path, j: nat)
    requires WF(fs) && 0 < j <= INODES && EmptyDir(fs, j) && DirRemoved(fs, fs', path, j)
    ensures PlainLeaf(fs', fs, j) && OtherNodes(fs', fs, j)
  {
    var d, last := Parent(fs, path).value, path[|path| - 1];
    WalkLast(fs, ROOT, path, 0, |path|);
    assert InodeOk(fs', j);
    forall e: nat, name | !Dots(name)
      ensures Found(fs, e, name) == Found(fs', e, name) || (Found(fs, e, name) == Some(j) && Found(fs', e, name) == None)
    {
      assert e != j ==> Found(fs', e, name) == if e == d && name == last then None else Found(fs, e, name);
      assert Found(fs, j, name) == None && Found(fs', j, name) == None;
    }
    NodesBack(fs, fs', j);
  }

  // ---------------------------------------------------------------- two calls in a row

  /** What was written is what is read. */
  method WriteThenRead(v: Volume, path: Path, bytes: seq<byte>, size: nat) returns (ok: bool, out: seq<byte>)
    requires WF(v.Fs()) && PathOk(path) && |path| > 0 && !Dots(path[|path| - 1]) && Straight(v.Fs(), path)
    modifies v
    ensures ok ==> out == bytes[..Min(size, |bytes|)]
    ensures !ok ==> WriteRefused(old(v.Fs()), path) || CannotWrite(old(v.Fs()), path, |bytes|)
  {
    ghost var j;
    var refused;
    out := [];
    StraightOn(v.Fs(), path);
    ok, refused, j := v.WriteFile(path, bytes);
    if ok {
      TraceFollows(v.Fs(), ROOT, path, 0, |path|);
      ok, out := v.ReadFile(path, size);
    }
  }

  /**
   A file created and removed again leaves both bitmaps and all entries as they were; the block bitmap exactly when
   the entry had room in a block of the directory.
   */
  method CreateThenUnlink(v: Volume, path: Path, bytes: seq<byte>) returns (written: bool)
    requires WF(v.Fs()) && PathOk(path) && |path| > 0 && !Dots(path[|path| - 1]) && Straight(v.Fs(), path)
    requires Resolve(v.Fs(), path) == None
    modifies v
    ensures written ==> WF(v.Fs()) && Marked(v.inodeBmp) == old(Marked(v.inodeBmp))
    ensures written ==> forall d: nat, name {:trigger Found(v.Fs(), d, name)} :: Found(v.Fs(), d, name) == Found(old(v.Fs()), d, name)
    ensures written ==> Parent(old(v.Fs()), path).Some? && IsDirAt(old(v.Fs()), Parent(old(v.Fs()), path).value)
    ensures written ==> (Marked(v.blockBmp) == old(Marked(v.blockBmp)) <==>
                         Roomy(old(v.Fs()), Parent(old(v.Fs()), path).value, path[|path| - 1]))
    ensures !written ==> WriteRefused(old(v.Fs()), path) || CannotWrite(old(v.Fs()), path, |bytes|)
  {
    ghost var f := v.Fs();
    ghost var j;
    var refused;
    StraightOn(f, path);
    written, refused, j := v.WriteFile(path, bytes);
    if !written { return; }
    ghost var g := v.Fs();
    RemovableNow(f, g, path, j, bytes);
    var gone := v.Unlink(path);
    CreatedAndGone(f, g, v.Fs(), path, j, bytes);
  }

  lemma CreatedAndGone(fs: FS, g: FS, fs': FS, path: Path, j: nat, bytes: seq<byte>)
    requires WF(fs) && |path| > 0 && 0 < j <= INODES && Resolve(fs, path) == None && FileWritten(fs, g, path, j, bytes)
    requires Parent(g, path) == Parent(fs, path) && RemovedFile(g, fs', path) && (forall name :: Found(g, j, name) == None)
    ensures WF(fs') && fs'.ibits == fs.ibits
    ensures forall d: nat, name {:trigger Found(fs', d, name)} :: Found(fs', d, name) == Found(fs, d, name)
    ensures Parent(fs, path).Some? && IsDirAt(fs, Parent(fs, path).value)
    ensures fs'.used == fs.used <==> Roomy(fs, Parent(fs, path).value, path[|path| - 1])
  {
    var d, last := Parent(fs, path).value, path[|path| - 1];
    WalkLast(fs, ROOT, path, 0, |path|);
    assert Resolve(g, path) == Some(j);
    forall e: nat, name
      ensures Found(fs', e, name) == Found(fs, e, name)
    {
      assert Found(g, e, name) == if e == d && name == last then Some(j) else Found(fs, e, name);
      assert Found(fs', e, name) == if e == d && name == last then None else Found(g, e, name);
    }
  }

  lemma RemovableNow(fs: FS, fs': FS, path: Path, j: nat, bytes: seq<byte>)
    requires WF(fs) && PathOk(path) && |path| > 0 && 0 < j <= INODES && ShortParent(path)
    requires FileWritten(fs, fs', path, j, bytes) && Resolve(fs, path) == None
    ensures Parent(fs', path) == Parent(fs, path) && Removable(fs', path) && Inside(fs', path) && Straight(fs', path)
    ensures forall name :: Found(fs', j, name) == None
  {
    WalkLast(fs, ROOT, path, 0, |path|);
    WalkLast(fs', ROOT, path, 0, |path|);
    SameParent(fs, fs', path, j, bytes);
    assert InodeOk(fs', j);
    ClearIf(fs', path);
    StraightOn(fs', path);
  }

  lemma SameParent(fs: FS, fs': FS, path: Path, j: nat, bytes: seq<byte>)
    requires WF(fs) && |path| > 0 && 0 < j <= INODES && FileWritten(fs, fs', path, j, bytes) && Resolve(fs, path) == None
    ensures Parent(fs', path) == Parent(fs, path)
  {
    WalkLast(fs, ROOT, path, 0, |path|);
    ExtendsWalk(fs, fs', ROOT, path, 0, |path| - 1);
  }

  /**
   A directory made and removed again leaves both bitmaps and all entries as they were, if the entry had room in a block
   of the parent; otherwise it cannot be removed, and its blocks stay taken.
   */
  method MkdirThenRmdir(v: Volume, path: Path) returns (made: bool, gone: bool)
    requires WF(v.Fs()) && PathOk(path) && |path| > 0 && !Dots(path[|path| - 1]) && Straight(v.Fs(), path)
    modifies v
    ensures made ==> Parent(old(v.Fs()), path).Some? && IsDirAt(old(v.Fs()), Parent(old(v.Fs()), path).value) && WF(v.Fs())
    ensures made ==> (gone <==> Roomy(old(v.Fs()), Parent(old(v.Fs()), path).value, path[|path| - 1]))
    ensures made && gone ==> Marked(v.inodeBmp) == old(Marked(v.inodeBmp)) && Marked(v.blockBmp) == old(Marked(v.blockBmp))
    ensures made && gone ==>
              forall d: nat, name {:trigger Found(v.Fs(), d, name)} :: Found(v.Fs(), d, name) == Found(old(v.Fs()), d, name)
    ensures made && !gone ==> Marked(v.inodeBmp) > old(Marked(v.inodeBmp)) && Marked(v.blockBmp) > old(Marked(v.blockBmp))
    ensures !made ==> MkdirRefused(old(v.Fs()), path) || CannotMake(old(v.Fs()), path)
  {
    ghost var f := v.Fs();
    ghost var j;
    var refused;
    gone := false;
    StraightOn(f, path);
    made, refused, j := v.Mkdir(path);
    if !made { return; }
    ghost var g := v.Fs();
    RemovableAgain(f, g, path, j);
    gone := v.Rmdir(path);
    if gone { BackAgain(f, g, v.Fs(), path, j); }
  }

  lemma RemovableAgain(fs: FS, fs': FS, path: Path, j: nat)
    requires WF(fs) && PathOk(path) && 0 < j <= INODES && ShortParent(path) && DirMade(fs, fs', path, j)
    ensures Straight(fs', path) && Inside(fs', path)
    ensures DirRemovable(fs', path) <==> Resolve(fs', path) == Some(j)
  {
    ParentStays(fs, fs', path, j);
    assert IsFileAt(fs, Parent(fs, path).value) == IsFileAt(fs', Parent(fs, path).value);
    ClearIf(fs', path);
    StraightOn(fs', path);
    WalkLast(fs', ROOT, path, 0, |path|);
  }

  lemma {:induction false} BackAgain(fs: FS, g: FS, fs': FS, path: Path, j: nat)
    requires WF(fs) && 0 < j <= INODES && DirMade(fs, g, path, j) && DirRemoved(g, fs', path, j)
    ensures fs'.ibits == fs.ibits && fs'.used == fs.used
    ensures forall d: nat, name {:trigger Found(fs', d, name)} :: Found(fs', d, name) == Found(fs, d, name)
  {
    var b := Ino(g, j).direct[0];
    JustOne(Ino(g, j), b);
    assert g.used - fs.used == {b} by { OnlyThat(g.used - fs.used, b); }
    WalkLast(fs, ROOT, path, 0, |path|);
    WalkLast(g, ROOT, path, 0, |path|);
    assert InodeOk(fs, j) && InodeOk(fs', j);
    ParentStays(fs, g, path, j);
    forall d: nat, name
      ensures Found(fs', d, name) == Found(fs, d, name)
    {
    }
  }

  lemma OnlyThat(s: set<nat>, b: nat)
    requires |s| == 1 && b in s
    ensures s == {b}
  {
    assert |s - {b}| == 0;
  }

  lemma JustOne(ino: Inode, b: nat)
    requires OneBlock(ino, b) && b != 0
    ensures NamedDirectly(ino) == {b}
  {
    assert ino.direct[0] == b;
  }

  lemma ParentStays(fs: FS, fs': FS, path: Path, j: nat)
    requires WF(fs) && 0 < j <= INODES && DirMade(fs, fs', path, j)
    ensures Parent(fs', path) == Parent(fs, path)
  {
    assert InodeOk(fs, j);
    assert forall name :: Found(fs, j, name) == None;
    WalkLast(fs, ROOT, path, 0, |path|);
    ExtendsWalk(fs, fs', ROOT, path, 0, |path| - 1);
  }

  /** Removing a directory gives back everything it named exactly if it had no indirect table. */
  lemma RmdirGivesBack(fs: FS, fs': FS, path: Path, j: nat)
    requires WF(fs) && 0 < j <= INODES && DirRemoved(fs, fs', path, j)
    ensures fs'.used == fs.used - Named(fs.disk, Ino(fs, j)) <==> Ino(fs, j).indirect == 0
    ensures Ino(fs, j).indirect != 0 ==> Ino(fs, j).indirect in fs'.used
  {
    var ino := Ino(fs, j);
    assert InodeOk(fs, j);
    OwnBlocks(fs, j);
    NamedIs(fs.disk, ino);
    NamedDirectlyIs(fs.disk, ino);
    assert Slot(fs.disk, ino, LOGICAL) == ino.indirect;
    if ino.indirect == 0 {
      NoTable(fs.disk, ino, SLOTS);
    } else {
      assert ino.indirect in Named(fs.disk, ino) && ino.indirect in fs.used;
      forall s: nat | s < 12
        ensures ino.direct[s] != ino.indirect
      {
        assert Slot(fs.disk, ino, s) == ino.direct[s];
      }
    }
  }

  // ---------------------------------------------------------------- where operations act

  /** Plain walks from the root that end at inodes other than `d` and `j` are the same in both volumes. */
  ghost predicate Hidden(fs: FS, fs': FS, d: nat, j: nat)
    requires Shape(fs) && Shape(fs')
  {
    && j != ROOT && OtherNodes(fs, fs', j)
    && (forall e: nat, nm {:trigger Found(fs', e, nm)} {:trigger Found(fs, e, nm)} | e != d && e != j && !Dots(nm) ::
          Found(fs', e, nm) == Found(fs, e, nm))
    && (forall e: nat, nm {:trigger Found(fs, e, nm)} | !Dots(nm) && Found(fs, e, nm) == Some(j) :: e == d)
  }

  lemma {:induction false} WalkPrefix(fs: FS, d: nat, path: Path, q: Path, k: nat, hi: nat)
    requires Shape(fs) && k <= hi <= |path| && hi <= |q| && path[..hi] == q[..hi]
    ensures Walk(fs, d, path, k, hi) == Walk(fs, d, q, k, hi)
    decreases hi - k
  {
    if k < hi {
      assert path[k] == path[..hi][k] == q[..hi][k] == q[k];
      if Found(fs, d, path[k]).Some? { WalkPrefix(fs, Found(fs, d, path[k]).value, path, q, k + 1, hi); }
    }
  }

  /** What happens in a directory that no path leads to is not seen. */
  lemma {:induction false} HiddenWalk(fs: FS, fs': FS, d: nat, j: nat, p: Path, m: nat)
    requires WF(fs) && WF(fs') && Hidden(fs, fs', d, j) && !HasPath(fs, d) && Plain(p) && m <= |p|
    ensures Walk(fs', ROOT, p, 0, m) == Walk(fs, ROOT, p, 0, m)
    ensures Walk(fs, ROOT, p, 0, m) != Some(d) && Walk(fs, ROOT, p, 0, m) != Some(j)
  {
    WalkPrefix(fs, ROOT, p, p[..m], 0, m);
    assert Resolve(fs, p[..m]) == Walk(fs, ROOT, p, 0, m);
    if m > 0 {
      HiddenWalk(fs, fs', d, j, p, m - 1);
      WalkLast(fs, ROOT, p, 0, m);
      WalkLast(fs', ROOT, p, 0, m);
    }
  }

  lemma {:induction false} HiddenView(fs: FS, fs': FS, d: nat, j: nat, t: Tree)
    requires WF(fs) && WF(fs') && Hidden(fs, fs', d, j) && !HasPath(fs, d) && Shows(fs, t)
    ensures Shows(fs', t)
  {
    forall p: Path | Plain(p)
      ensures View(fs', p) == View(fs, p)
    {
      HiddenWalk(fs, fs', d, j, p, |p|);
      if Resolve(fs, p).Some? {
        WalkRange(fs, ROOT, p, 0, |p|);
        assert IsFileAt(fs, Resolve(fs, p).value) == IsFileAt(fs', Resolve(fs, p).value);
      }
    }
  }

  lemma HiddenBy(fs: FS, fs': FS, d: nat, name: Name, j: nat)
    requires WF(fs) && WF(fs') && IsDirAt(fs, d) && IsDirAt(fs', d) && 0 < j <= INODES && j != d && Others(fs, fs', {d, j})
    requires !Dots(name) && (Found(fs, d, name) == Some(j) || j - 1 !in fs.ibits)
    ensures Hidden(fs, fs', d, j)
  {
    NodesKept(fs, fs', {d, j}, j);
    forall e: nat, nm | e != d && e != j
      ensures Found(fs', e, nm) == Found(fs, e, nm)
    {
      OthersFound(fs, fs', {d, j}, e, nm);
    }
    NamedFrom(fs, d, name, j);
  }

  /** An inode that `d` names, or that is free, is named by no other directory. */
  lemma NamedFrom(fs: FS, d: nat, name: Name, j: nat)
    requires WF(fs) && 0 < j <= INODES && !Dots(name) && (Found(fs, d, name) == Some(j) || j - 1 !in fs.ibits)
    ensures j != ROOT && forall e: nat, nm {:trigger Found(fs, e, nm)} | !Dots(nm) && Found(fs, e, nm) == Some(j) :: e == d
  {
    assert InodeOk(fs, j) && EntryOk(fs, d, name);
    forall e: nat, nm | !Dots(nm) && Found(fs, e, nm) == Some(j)
      ensures e == d
    {
      assert EntryOk(fs, e, nm);
    }
  }

  /** The place where an operation acts. */
  lemma {:induction false} AtSpot(fs: FS, path: Path)
    requires WF(fs) && PathOk(path) && Plain(path) && |path| > 0 && ShortParent(path) && ParentThere(fs, path)
    requires Spot(fs, path).Some?
    ensures var p, d := Spot(fs, path).value, Dest(fs, path).inode;
            && |p| > 0 && Plain(p) && p[|p| - 1] == path[|path| - 1] && Parent(fs, p) == Some(d)
            && Resolve(fs, p) == Found(fs, d, p[|p| - 1]) && Led(fs, path) == AsLook(Resolve(fs, p))
  {
    var p, q := Spot(fs, path).value, PathOf(fs, Dest(fs, path).inode);
    assert p[..|p| - 1] == q;
    WalkPrefix(fs, ROOT, p, q, 0, |q|);
    WalkLast(fs, ROOT, p, 0, |p|);
    LedByParent(fs, path);
  }

  lemma {:induction false} WriteActs(fs: FS, fs': FS, t: Tree, op: Op, j: nat)
    requires WF(fs) && OpOk(op) && op.Write? && Shows(fs, t) && 0 < j <= INODES && WrittenTo(fs, fs', op.path, j, op.bytes)
    ensures WF(fs') && Shows(fs', Then(fs, t, op))
  {
    var d, name := Dest(fs, op.path).inode, op.path[|op.path| - 1];
    LedByParent(fs, op.path);
    if Spot(fs, op.path).Some? {
      AtSpot(fs, op.path);
      var p := Spot(fs, op.path).value;
      WrittenThere(fs, fs', p, j, op.bytes);
      WriteShows(fs, fs', p, j, op.bytes);
      ShowsStep(fs, fs', t, p, File(op.bytes));
    } else {
      WriteHidden(fs, fs', op.path, j, op.bytes);
      HiddenView(fs, fs', d, j, t);
    }
  }

  lemma WrittenThere(fs: FS, fs': FS, p: Path, j: nat, bytes: seq<byte>)
    requires WF(fs) && |p| > 0 && 0 < j <= INODES && Parent(fs, p).Some? && IsDirAt(fs, Parent(fs, p).value)
    requires if Resolve(fs, p).Some? then Resolve(fs, p) == Some(j) && IsFileAt(fs, j) && Overwritten(fs, fs', j, bytes)
             else Created(fs, fs', Parent(fs, p).value, p[|p| - 1], j, bytes)
    ensures FileWritten(fs, fs', p, j, bytes)
  {
    if Resolve(fs, p).Some? {
      WrittenOver(fs, fs', p, j, bytes);
    } else {
      WrittenNew(fs, fs', p, j, bytes);
    }
  }

  lemma {:induction false} WriteHidden(fs: FS, fs': FS, path: Path, j: nat, bytes: seq<byte>)
    requires WF(fs) && PathOk(path) && ShortParent(path) && 0 < j <= INODES && WrittenTo(fs, fs', path, j, bytes)
    requires !Dots(path[|path| - 1])
    ensures WF(fs') && Hidden(fs, fs', Dest(fs, path).inode, j)
  {
    var d, name := Dest(fs, path).inode, path[|path| - 1];
    LedByParent(fs, path);
    assert EntryOk(fs, d, name) && InodeOk(fs, d);
    if Led(fs, path).Hit? {
      assert Kept(fs, fs', d);
      KeptSays(fs, fs', d);
    } else {
      assert Found(fs', d, name) == Some(j);
    }
    HiddenBy(fs, fs', d, name, j);
  }

  lemma MadeShows(fs: FS, fs': FS, t: Tree, p: Path, j: nat)
    requires WF(fs) && 0 < j <= INODES && Plain(p) && Shows(fs, t) && DirMade(fs, fs', p, j)
    ensures Shows(fs', if Roomy(fs, Parent(fs, p).value, p[|p| - 1]) then t[p := Dir] else t)
  {
    MkdirShows(fs, fs', p, j);
    if Roomy(fs, Parent(fs, p).value, p[|p| - 1]) {
      ShowsStep(fs, fs', t, p, Dir);
    } else {
      ShowsLost(fs, fs', t, p);
    }
  }

  lemma {:induction false} MkdirActs(fs: FS, fs': FS, t: Tree, op: Op, j: nat)
    requires WF(fs) && OpOk(op) && op.MakeDir? && Shows(fs, t) && 0 < j <= INODES && MadeIn(fs, fs', op.path, j)
    ensures WF(fs') && Shows(fs', Then(fs, t, op))
  {
    var d, name := Dest(fs, op.path).inode, op.path[|op.path| - 1];
    if Spot(fs, op.path).Some? {
      AtSpot(fs, op.path);
      var p := Spot(fs, op.path).value;
      MadeAt(fs, fs', p, j);
      MadeShows(fs, fs', t, p, j);
    } else {
      HiddenBy(fs, fs', d, name, j);
      HiddenView(fs, fs', d, j, t);
    }
  }

  lemma {:induction false} UnlinkActs(fs: FS, fs': FS, t: Tree, op: Op)
    requires WF(fs) && OpOk(op) && op.Remove? && Shows(fs, t) && TakenFrom(fs, fs', op.path)
    ensures WF(fs') && Shows(fs', Then(fs, t, op))
  {
    var d, name, j := Dest(fs, op.path).inode, op.path[|op.path| - 1], Led(fs, op.path).inode;
    LedByParent(fs, op.path);
    if Spot(fs, op.path).Some? {
      AtSpot(fs, op.path);
      var p := Spot(fs, op.path).value;
      RemovedAt(fs, fs', p, j);
      UnlinkShows(fs, fs', p, j);
      ShowsStep(fs, fs', t, p, Absent);
    } else {
      assert InodeOk(fs', d);
      HiddenBy(fs, fs', d, name, j);
      HiddenView(fs, fs', d, j, t);
    }
  }

  lemma {:induction false} RmdirActs(fs: FS, fs': FS, t: Tree, op: Op)
    requires WF(fs) && OpOk(op) && op.RemoveDir? && Shows(fs, t) && DirTakenFrom(fs, fs', op.path)
    ensures WF(fs') && Shows(fs', Then(fs, t, op))
  {
    var d, name, j := Dest(fs, op.path).inode, op.path[|op.path| - 1], Led(fs, op.path).inode;
    LedByParent(fs, op.path);
    if Spot(fs, op.path).Some? {
      AtSpot(fs, op.path);
      var p := Spot(fs, op.path).value;
      DirRemovedAt(fs, fs', p, j);
      RmdirShows(fs, fs', p, j);
      ShowsStep(fs, fs', t, p, Absent);
    } else {
      NamedFrom(fs, d, name, j);
      HiddenView(fs, fs', d, j, t);
    }
  }

  // ---------------------------------------------------------------- any run of operations

  datatype Op = Write(path: Path, bytes: seq<byte>) | Remove(path: Path) | MakeDir(path: Path) | RemoveDir(path: Path)

  /** Names of 1 to 255 bytes without `.` and `..`, and a parent whose text fits its buffer. */
  predicate OpOk(op: Op) {
    PathOk(op.path) && Plain(op.path) && ShortParent(op.path)
  }

  type Tree = map<Path, Node>

  ghost predicate Shows(fs: FS, t: Tree)
    requires Shape(fs)
  {
    forall p: Path | Plain(p) :: View(fs, p) == if p in t then t[p] else Absent
  }

  /** What an operation does to the tree, at a path. */
  function After(t: Tree, op: Op, path: Path): Tree {
    match op
    case Write(_, bytes) => t[path := File(bytes)]
    case Remove(_) => t - {path}
    case MakeDir(_) => t[path := Dir]
    case RemoveDir(_) => t - {path}
  }

  /** The volume does not admit the operation. */
  ghost predicate Refused(fs: FS, op: Op)
    requires Shape(fs)
  {
    match op
    case Write(path, _) => WriteRefused(fs, path)
    case Remove(path) => !Removable(fs, path)
    case MakeDir(path) => MkdirRefused(fs, path)
    case RemoveDir(path) => !DirRemovable(fs, path)
  }

  /** Admitted, and a new directory's entry fits into a block its parent has. */
  ghost predicate Effective(fs: FS, op: Op)
    requires Shape(fs)
  {
    && !Refused(fs, op) && |op.path| > 0 && ParentThere(fs, op.path)
    && (op.MakeDir? ==> Roomy(fs, Dest(fs, op.path).inode, op.path[|op.path| - 1]))
  }

  /** Blocks or inodes have run out, or a file is too long. */
  ghost predicate OutOfSpace(fs: FS, op: Op)
    requires Shape(fs)
  {
    match op
    case Write(path, bytes) =>
      || |bytes| > LOGICAL * BS
      || (Led(fs, path).Hit? && IsFileAt(fs, Led(fs, path).inode) && Short(Emptied(fs, Led(fs, path).inode), DataBlocks(|bytes|)))
      || (!Led(fs, path).Hit? && NoPlaceFor(fs, path, DataBlocks(|bytes|)))
    case MakeDir(path) => NoPlaceFor(fs, path, 1)
    case _ => false
  }

  ghost predicate NoPlaceFor(fs: FS, path: Path, k: nat)
    requires Shape(fs)
  {
    |path| > 0 && ParentThere(fs, path) && NoSpaceFor(fs, Dest(fs, path).inode, path[|path| - 1], k)
  }

  /** A plain path leads to `d`. */
  ghost predicate HasPath(fs: FS, d: nat)
    requires Shape(fs)
  {
    exists q: Path {:trigger Resolve(fs, q)} :: Plain(q) && Resolve(fs, q) == Some(d)
  }

  ghost function PathOf(fs: FS, d: nat): (q: Path)
    requires Shape(fs) && HasPath(fs, d)
    ensures Plain(q) && Resolve(fs, q) == Some(d)
  {
    var q: Path {:trigger Resolve(fs, q)} :| Plain(q) && Resolve(fs, q) == Some(d);
    q
  }

  /** The place in the tree where an operation on `path` acts: in the directory that the code takes for the parent. */
  ghost function Spot(fs: FS, path: Path): Option<Path>
    requires Shape(fs) && |path| > 0
  {
    if Dest(fs, path).Hit? && HasPath(fs, Dest(fs, path).inode)
    then Some(PathOf(fs, Dest(fs, path).inode) + [path[|path| - 1]]) else None
  }

  /** On a clear path, that is the path. */
  lemma {:induction false} SpotIs(fs: FS, path: Path)
    requires WF(fs) && PathOk(path) && Plain(path) && |path| > 0 && Straight(fs, path) && ParentThere(fs, path)
    ensures Spot(fs, path) == Some(path)
  {
    StraightOn(fs, path);
    var q, d := path[..|path| - 1], Dest(fs, path).inode;
    WalkPrefix(fs, ROOT, path, q, 0, |q|);
    assert Resolve(fs, q) == Some(d);
    OnePath(fs, q, PathOf(fs, d));
    assert path == q + [path[|path| - 1]];
  }

  const NewTree: Tree := map[[] := Dir, [LOST_FOUND] := Dir]

  /** The tree after an operation on a volume. */
  ghost function Then(fs: FS, t: Tree, op: Op): Tree
    requires Shape(fs)
  {
    if Effective(fs, op) && Spot(fs, op.path).Some? then After(t, op, Spot(fs, op.path).value) else t
  }

  lemma ShowsStep(fs: FS, fs': FS, t: Tree, path: Path, node: Node)
    requires Shape(fs) && Shape(fs') && Shows(fs, t) && Shown(fs, fs', path, node)
    ensures Shows(fs', if node == Absent then t - {path} else t[path := node])
  {
  }

  /** A directory that got lost changes nothing in the tree. */
  lemma ShowsLost(fs: FS, fs': FS, t: Tree, path: Path)
    requires Shape(fs) && Shape(fs') && Shows(fs, t) && Shown(fs, fs', path, Absent) && Resolve(fs, path).None?
    ensures Shows(fs', t)
  {
    assert View(fs, path) == Absent;
  }

  /** Every directory that is made gets its entry. */
  ghost predicate KeepsCount(fs: FS, op: Op)
    requires Shape(fs)
  {
    op.MakeDir? ==> Refused(fs, op) || Effective(fs, op)
  }

  lemma WriteLinks(fs: FS, fs': FS, op: Op, j: nat, exact: bool)
    requires WF(fs) && OpOk(op) && op.Write? && 0 < j <= INODES && WrittenTo(fs, fs', op.path, j, op.bytes) && Linked(fs, exact)
    ensures Linked(fs', exact)
  {
    if Led(fs, op.path).Hit? {
      OverwrittenStep(fs, fs', j, op.bytes, exact);
    } else {
      CreatedStep(fs, fs', Dest(fs, op.path).inode, op.path[|op.path| - 1], j, op.bytes, exact);
    }
  }

  lemma MkdirLinks(fs: FS, fs': FS, op: Op, j: nat, exact: bool)
    requires WF(fs) && OpOk(op) && op.MakeDir? && 0 < j <= INODES && MadeIn(fs, fs', op.path, j) && Linked(fs, exact)
    ensures Linked(fs', exact && KeepsCount(fs, op))
  {
    MadeStep(fs, fs', Dest(fs, op.path).inode, op.path[|op.path| - 1], j, exact);
    Fitted(fs, fs', op, j);
    Looser(fs', exact && Roomy(fs, Dest(fs, op.path).inode, op.path[|op.path| - 1]), exact && KeepsCount(fs, op));
  }

  lemma Fitted(fs: FS, fs': FS, op: Op, j: nat)
    requires WF(fs) && op.MakeDir? && 0 < j <= INODES && MadeIn(fs, fs', op.path, j)
    ensures KeepsCount(fs, op) ==> Roomy(fs, Dest(fs, op.path).inode, op.path[|op.path| - 1])
  {
  }

  lemma Looser(fs: FS, a: bool, b: bool)
    requires Shape(fs) && Linked(fs, a) && (b ==> a)
    ensures Linked(fs, b)
  {
    forall d: nat | IsDirAt(fs, d)
      ensures CountOk(fs, d, b)
    {
      assert CountOk(fs, d, a);
    }
  }

  lemma UnlinkLinks(fs: FS, fs': FS, op: Op, exact: bool)
    requires WF(fs) && OpOk(op) && op.Remove? && TakenFrom(fs, fs', op.path) && Linked(fs, exact)
    ensures Linked(fs', exact)
  {
    var d, name, j := Dest(fs, op.path).inode, op.path[|op.path| - 1], Led(fs, op.path).inode;
    LedByParent(fs, op.path);
    UnlinkedStep(fs, fs', d, name, j, Named(fs.disk, Ino(fs, j)), exact);
  }

  lemma RmdirLinks(fs: FS, fs': FS, op: Op, exact: bool)
    requires WF(fs) && OpOk(op) && op.RemoveDir? && DirTakenFrom(fs, fs', op.path) && Linked(fs, exact)
    ensures Linked(fs', exact)
  {
    var d, name, j := Dest(fs, op.path).inode, op.path[|op.path| - 1], Led(fs, op.path).inode;
    LedByParent(fs, op.path);
    RemovedStep(fs, fs', d, name, j, exact);
  }

  method StepWrite(v: Volume, op: Op, ghost t: Tree, ghost exact: bool) returns (ok: bool, refused: bool)
    requires WF(v.Fs()) && OpOk(op) && Inside(v.Fs(), op.path) && Shows(v.Fs(), t) && op.Write? && Linked(v.Fs(), exact)
    modifies v
    ensures refused <==> Refused(old(v.Fs()), op)
    ensures refused ==> !ok && v.Fs() == old(v.Fs())
    ensures ok ==> WF(v.Fs()) && Shows(v.Fs(), Then(old(v.Fs()), t, op)) && Linked(v.Fs(), exact && KeepsCount(old(v.Fs()), op))
    ensures !ok && !refused ==> OutOfSpace(old(v.Fs()), op)
  {
    ghost var f := v.Fs();
    ghost var j;
    ok, refused, j := v.WriteFile(op.path, op.bytes);
    if |op.path| > 0 && ParentThere(f, op.path) { LedByParent(f, op.path); }
    if ok { WriteActs(f, v.Fs(), t, op, j); WriteLinks(f, v.Fs(), op, j, exact); }
  }

  method StepMakeDir(v: Volume, op: Op, ghost t: Tree, ghost exact: bool) returns (ok: bool, refused: bool)
    requires WF(v.Fs()) && OpOk(op) && Inside(v.Fs(), op.path) && Shows(v.Fs(), t) && op.MakeDir? && Linked(v.Fs(), exact)
    modifies v
    ensures refused <==> Refused(old(v.Fs()), op)
    ensures refused ==> !ok && v.Fs() == old(v.Fs())
    ensures ok ==> WF(v.Fs()) && Shows(v.Fs(), Then(old(v.Fs()), t, op)) && Linked(v.Fs(), exact && KeepsCount(old(v.Fs()), op))
    ensures !ok && !refused ==> OutOfSpace(old(v.Fs()), op)
  {
    ghost var f := v.Fs();
    ghost var j;
    ok, refused, j := v.Mkdir(op.path);
    if |op.path| > 0 && ParentThere(f, op.path) { LedByParent(f, op.path); }
    if ok { MkdirActs(f, v.Fs(), t, op, j); MkdirLinks(f, v.Fs(), op, j, exact); }
  }

  method StepTakeAway(v: Volume, op: Op, ghost t: Tree, ghost exact: bool) returns (ok: bool)
    requires WF(v.Fs()) && OpOk(op) && Inside(v.Fs(), op.path) && Shows(v.Fs(), t) && (op.Remove? || op.RemoveDir?) && Linked(v.Fs(), exact)
    modifies v
    ensures ok <==> !Refused(old(v.Fs()), op)
    ensures ok ==> WF(v.Fs()) && Shows(v.Fs(), Then(old(v.Fs()), t, op)) && Linked(v.Fs(), exact && KeepsCount(old(v.Fs()), op))
    ensures !ok ==> v.Fs() == old(v.Fs())
  {
    ghost var f := v.Fs();
    NotCrossed(f, op.path);
    if op.Remove? {
      ok := v.Unlink(op.path);
      if ok { UnlinkActs(f, v.Fs(), t, op); UnlinkLinks(f, v.Fs(), op, exact); }
    } else {
      ok := v.Rmdir(op.path);
      if ok { RmdirActs(f, v.Fs(), t, op); RmdirLinks(f, v.Fs(), op, exact); }
    }
  }

  /** One operation, against the tree. */
  method Step(v: Volume, op: Op, ghost t: Tree, ghost exact: bool) returns (ok: bool, refused: bool)
    requires WF(v.Fs()) && OpOk(op) && Inside(v.Fs(), op.path) && Shows(v.Fs(), t) && Linked(v.Fs(), exact)
    modifies v
    ensures refused <==> Refused(old(v.Fs()), op)
    ensures refused ==> !ok && v.Fs() == old(v.Fs())
    ensures ok ==> WF(v.Fs()) && Shows(v.Fs(), Then(old(v.Fs()), t, op)) && Linked(v.Fs(), exact && KeepsCount(old(v.Fs()), op))
    ensures !ok && !refused ==> OutOfSpace(old(v.Fs()), op)
  {
    if op.Write? {
      ok, refused := StepWrite(v, op, t, exact);
    } else if op.MakeDir? {
      ok, refused := StepMakeDir(v, op, t, exact);
    } else {
      ok := StepTakeAway(v, op, t, exact);
      refused := !ok;
    }
  }

  /** A volume in a run, the tree computed from the operations before, and whether every directory made got its entry. */
  datatype Moment = Moment(fs: FS, tree: Tree, exact: bool)

  /** The volume is sound, shows the tree, counts its links and passes the driver's probe. */
  ghost predicate Good(x: Moment) {
    WF(x.fs) && Shows(x.fs, x.tree) && Linked(x.fs, x.exact) && Probed(x.fs)
  }

  /** The tree after `op`; a refused operation leaves the volume as it was. */
  ghost predicate Moved(x: Moment, op: Op, y: Moment) {
    && WF(x.fs) && y.tree == Then(x.fs, x.tree, op) && (Refused(x.fs, op) ==> y.fs == x.fs)
    && (y.exact <==> x.exact && KeepsCount(x.fs, op))
  }

  ghost predicate MovedAt(ops: seq<Op>, seen: seq<Moment>, k: nat) {
    k < |ops| && k + 1 < |seen| && Moved(seen[k], ops[k], seen[k + 1])
  }

  ghost predicate GoodAt(seen: seq<Moment>, k: nat) {
    k < |seen| && Good(seen[k])
  }

  /** From a new volume through the operations: every volume is sound and shows its tree. */
  ghost predicate Sound(ops: seq<Op>, seen: seq<Moment>) {
    && 0 < |seen| <= |ops| + 1 && NewVolume(seen[0].fs) && seen[0].tree == NewTree && seen[0].exact
    && (forall k: nat | k < |seen| :: GoodAt(seen, k))
    && (forall k: nat | k + 1 < |seen| :: MovedAt(ops, seen, k))
  }

  /** Operation `op` found no space on `fs`, or its path leads out of the volume. */
  ghost predicate StuckAt(fs: FS, op: Op) {
    WF(fs) && (!Inside(fs, op.path) || (!Refused(fs, op) && OutOfSpace(fs, op)))
  }

  /** The next operation of a run. */
  method RunOn(v: Volume, op: Op, ghost x: Moment) returns (stuck: bool, ghost y: Moment)
    requires OpOk(op) && Good(x) && v.Fs() == x.fs
    modifies v
    ensures if stuck then StuckAt(x.fs, op) else Good(y) && Moved(x, op, y) && v.Fs() == y.fs
  {
    y := x;
    var inside := v.StaysInside(op.path);
    if !inside { return true, y; }
    var ok, refused := Step(v, op, x.tree, x.exact);
    stuck := !ok && !refused;
    if stuck { return; }
    y := Moment(v.Fs(), Then(x.fs, x.tree, op), x.exact && KeepsCount(x.fs, op));
    LinkedProbed(v.Fs(), y.exact);
  }

  /**
   Formats a partition and runs the operations. `seen` are the volumes before the first, second and so on, with their
   trees; the run ends early only at an operation that is admitted and finds no space, or whose path leads out of the
   volume.
   */
  method Run(raw: Disk, ops: seq<Op>) returns (v: Volume, done: nat, ghost seen: seq<Moment>)
    requires 32 <= |raw| <= BITS && forall k | 0 <= k < |ops| :: OpOk(ops[k])
    ensures |seen| == done + 1 && Sound(ops, seen)
    ensures if done == |ops| then v.Fs() == seen[done].fs else done < |ops| && StuckAt(seen[done].fs, ops[done])
  {
    v, seen := Begin(raw, ops);
    done := 0;
    while done < |ops|
      invariant 0 <= done <= |ops| && |seen| == done + 1 && fresh(v) && v.Fs() == seen[done].fs && Sound(ops, seen)
    {
      var stuck;
      stuck, seen := RunNext(v, ops, done, seen);
      if stuck { return; }
      done := done + 1;
    }
  }

  method Begin(raw: Disk, ghost ops: seq<Op>) returns (v: Volume, ghost seen: seq<Moment>)
    requires 32 <= |raw| <= BITS
    ensures fresh(v) && |seen| == 1 && seen[0].fs == v.Fs() && Sound(ops, seen)
  {
    v := new Volume.Mkfs(raw);
    NewShows(v.Fs());
    NewLinked(v.Fs());
    LinkedProbed(v.Fs(), true);
    seen := [Moment(v.Fs(), NewTree, true)];
  }

  method RunNext(v: Volume, ops: seq<Op>, k: nat, ghost seen: seq<Moment>) returns (stuck: bool, ghost seen': seq<Moment>)
    requires k < |ops| && OpOk(ops[k]) && |seen| == k + 1 && Sound(ops, seen) && v.Fs() == seen[k].fs
    modifies v
    ensures stuck ==> seen' == seen && StuckAt(seen[k].fs, ops[k])
    ensures !stuck ==> |seen'| == k + 2 && Sound(ops, seen') && v.Fs() == seen'[k + 1].fs
  {
    ghost var y;
    assert GoodAt(seen, k);
    seen' := seen;
    stuck, y := RunOn(v, ops[k], seen[k]);
    if !stuck {
      GoesOn(ops, seen, y);
      seen' := seen + [y];
    }
  }

  lemma GoesOn(ops: seq<Op>, seen: seq<Moment>, y: Moment)
    requires Sound(ops, seen) && |seen| <= |ops| && Good(y) && Moved(seen[|seen| - 1], ops[|seen| - 1], y)
    ensures Sound(ops, seen + [y])
  {
    forall k: nat | k < |seen + [y]|
      ensures GoodAt(seen + [y], k)
    {
      assert k < |seen| ==> GoodAt(seen, k);
    }
    forall k: nat | k + 1 < |seen + [y]|
      ensures MovedAt(ops, seen + [y], k)
    {
      assert k + 1 < |seen| ==> MovedAt(ops, seen, k);
    }
  }

  lemma NewShows(fs: FS)
    requires WF(fs) && NewVolume(fs)
    ensures Shows(fs, NewTree)
  {
    forall p: Path | Plain(p)
      ensures View(fs, p) == if p in NewTree then NewTree[p] else Absent
    {
      NewPath(fs, p);
      assert p in NewTree <==> p == [] || p == [LOST_FOUND];
    }
  }

  lemma NewPath(fs: FS, p: Path)
    requires WF(fs) && NewVolume(fs) && Plain(p)
    ensures View(fs, p) == if p == [] || p == [LOST_FOUND] then Dir else Absent
  {
    assert InodeOk(fs, ROOT);
    if |p| > 0 {
      var r := Found(fs, ROOT, p[0]);
      assert !Dots(p[0]);
      if p[0] == LOST_FOUND {
        assert Resolve(fs, p) == Walk(fs, 11, p, 1, |p|);
        if |p| == 1 {
          assert p == [LOST_FOUND];
        } else {
          assert !Dots(p[1]);
          assert Found(fs, 11, p[1]) == None;
        }
      } else {
        assert r == None;
      }
    }
  }
}
