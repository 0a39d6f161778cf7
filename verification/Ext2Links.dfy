/** Link counts: how many links a directory has, and the subdirectories that account for them. */
module Ext2Links {
  import opened Basics
  import opened Ext2Dir
  import opened Ext2Volume
  import opened Ext2State
  import opened Ext2Walk
  import opened Ext2Paths

  const UP: Name := [46, 46]

  predicate Numbered(i: nat) { i <= INODES }

  /** `d` has an entry for the directory `j`. */
  ghost predicate Holding(fs: FS, d: nat, j: nat)
    requires Shape(fs)
  {
    IsDirAt(fs, j) && Naming(fs, d, j)
  }

  ghost predicate Naming(fs: FS, d: nat, j: nat)
    requires Shape(fs)
  {
    exists nm: Name {:trigger Found(fs, d, nm)} :: !Dots(nm) && Found(fs, d, nm) == Some(j)
  }

  /** `j` is another directory, and `d` is its parent by its own `..`. */
  ghost predicate Below(fs: FS, d: nat, j: nat)
    requires Shape(fs)
  {
    j != d && IsDirAt(fs, j) && Found(fs, j, UP) == Some(d)
  }

  /** The live subdirectories of `d`. */
  ghost function Live(fs: FS, d: nat): set<nat>
    requires Shape(fs)
  {
    set j: nat | j <= INODES && Numbered(j) && Holding(fs, d, j)
  }

  /** All directories whose `..` leads to `d`, those without an entry too. */
  ghost function Children(fs: FS, d: nat): set<nat>
    requires Shape(fs)
  {
    set j: nat | j <= INODES && Numbered(j) && Below(fs, d, j)
  }

  /** A live subdirectory's `..` leads back. */
  ghost predicate UpLeadsBack(fs: FS)
    requires Shape(fs)
  {
    forall d: nat, nm {:trigger Found(fs, d, nm)} | !Dots(nm) && Found(fs, d, nm).Some? && IsDirAt(fs, Found(fs, d, nm).value) ::
      Found(fs, Found(fs, d, nm).value, UP) == Some(d)
  }

  /** Two links, and one for every subdirectory; lost ones may have left theirs behind. */
  ghost predicate CountOk(fs: FS, d: nat, exact: bool)
    requires Shape(fs) && 0 < d <= INODES
  {
    && 2 + |Live(fs, d)| <= Ino(fs, d).links <= 2 + |Children(fs, d)|
    && (exact ==> Ino(fs, d).links == 2 + |Live(fs, d)|)
  }

  ghost predicate Linked(fs: FS, exact: bool)
    requires Shape(fs)
  {
    && UpLeadsBack(fs)
    && forall d: nat {:trigger IsDirAt(fs, d)} | IsDirAt(fs, d) :: CountOk(fs, d, exact)
  }

  /** What the driver asks of a volume before it mounts it: inode 2 is a directory with two links at least. */
  ghost predicate Probed(fs: FS)
    requires Shape(fs)
  {
    Ino(fs, 2).mode / 0x1000 == 4 && Ino(fs, 2).links >= 2
  }

  lemma LinkedProbed(fs: FS, exact: bool)
    requires WF(fs) && Linked(fs, exact)
    ensures Probed(fs)
  {
    assert InodeOk(fs, ROOT);
    assert IsDirAt(fs, ROOT);
  }

  lemma {:induction false} SmallSet(s: set<nat>, n: nat)
    requires forall i | i in s :: i < n
    ensures |s| <= n
  {
    if n == 0 {
      assert s == {};
    } else {
      Without(s, n - 1);
      SmallSet(s - {n - 1}, n - 1);
    }
  }

  /** The 16-bit count never wraps. */
  lemma LinksFit(fs: FS, exact: bool, d: nat)
    requires WF(fs) && Linked(fs, exact) && IsDirAt(fs, d)
    ensures Ino(fs, d).links <= INODES + 3 < 0x1_0000
  {
    SmallSet(Children(fs, d), INODES + 1);
  }

  // ---------------------------------------------------------------- one step

  /** All directories but `j` stay directories or not, with the same `..`, and only entries for `j` come or go. */
  ghost predicate OneNode(fs: FS, fs': FS, j: nat)
    requires Shape(fs) && Shape(fs')
  {
    && (forall i: nat {:trigger IsDirAt(fs', i)} {:trigger IsDirAt(fs, i)} | i != j :: IsDirAt(fs', i) == IsDirAt(fs, i))
    && (forall i: nat {:trigger Found(fs', i, UP)} {:trigger Found(fs, i, UP)} | i != j :: Found(fs', i, UP) == Found(fs, i, UP))
    && (forall e: nat, nm {:trigger Found(fs', e, nm)} {:trigger Found(fs, e, nm)} | e != j && !Dots(nm) :: SameBut(Found(fs, e, nm), Found(fs', e, nm), j))
  }

  predicate SameBut(x: Option<nat>, y: Option<nat>, j: nat) {
    x == y || (x == None && y == Some(j)) || (x == Some(j) && y == None)
  }

  lemma LiveElse(fs: FS, fs': FS, j: nat, e: nat)
    requires Shape(fs) && Shape(fs') && OneNode(fs, fs', j) && e != j
    ensures Live(fs', e) - {j} == Live(fs, e) - {j}
  {
    forall i: nat | i != j
      ensures Naming(fs', e, i) <==> Naming(fs, e, i)
    {
      if Naming(fs, e, i) {
        var nm: Name :| !Dots(nm) && Found(fs, e, nm) == Some(i);
        assert Found(fs', e, nm) == Some(i);
      }
      if Naming(fs', e, i) {
        var nm: Name :| !Dots(nm) && Found(fs', e, nm) == Some(i);
        assert Found(fs, e, nm) == Some(i);
      }
    }
  }

  lemma ChildrenElse(fs: FS, fs': FS, j: nat, e: nat)
    requires Shape(fs) && Shape(fs') && OneNode(fs, fs', j) && e != j
    ensures Children(fs', e) - {j} == Children(fs, e) - {j}
  {
  }

  lemma Without(a: set<nat>, j: nat)
    ensures |a - {j}| == if j in a then |a| - 1 else |a|
  {
    if j in a {
      assert a == (a - {j}) + {j};
    } else {
      assert a - {j} == a;
    }
  }

  /** The counts of `e` differ by what `j` contributes. */
  lemma CountsElse(fs: FS, fs': FS, j: nat, e: nat)
    requires Shape(fs) && Shape(fs') && OneNode(fs, fs', j) && e != j && 0 < j <= INODES
    ensures |Live(fs', e)| == |Live(fs, e)| - Bit(Holding(fs, e, j)) + Bit(Holding(fs', e, j))
    ensures |Children(fs', e)| == |Children(fs, e)| - Bit(Below(fs, e, j)) + Bit(Below(fs', e, j))
  {
    LiveElse(fs, fs', j, e);
    ChildrenElse(fs, fs', j, e);
    Without(Live(fs, e), j);
    Without(Live(fs', e), j);
    Without(Children(fs, e), j);
    Without(Children(fs', e), j);
  }

  /** Entry `name` of `d` comes or goes, for inode `j`. */
  lemma {:induction false} NodeFrom(fs: FS, fs': FS, d: nat, name: Name, j: nat)
    requires WF(fs) && WF(fs') && Others(fs, fs', {d, j}) && IsDirAt(fs, d) && IsDirAt(fs', d) && j != d && !Dots(name)
    requires (forall nm | nm != name :: Found(fs', d, nm) == Found(fs, d, nm)) && SameBut(Found(fs, d, name), Found(fs', d, name), j)
    ensures OneNode(fs, fs', j)
  {
    forall i: nat | i != j
      ensures IsDirAt(fs', i) == IsDirAt(fs, i) && Found(fs', i, UP) == Found(fs, i, UP)
    {
      if i != d && 0 < i <= INODES {
        assert Kept(fs, fs', i) && InodeOk(fs, i);
        KeptSays(fs, fs', i);
      }
    }
    forall e: nat, nm | e != j && !Dots(nm)
      ensures SameBut(Found(fs, e, nm), Found(fs', e, nm), j)
    {
      if e != d { OthersFound(fs, fs', {d, j}, e, nm); }
    }
  }

  /** Nothing is named by what is no directory. */
  lemma NoDir(fs: FS, j: nat, nm: Name)
    requires Shape(fs) && !IsDirAt(fs, j)
    ensures Found(fs, j, nm) == None
  {
  }

  /** A file came, changed or went. */
  lemma {:induction false} FileStep(fs: FS, fs': FS, j: nat, exact: bool)
    requires WF(fs) && WF(fs') && OneNode(fs, fs', j) && 0 < j <= INODES && !IsDirAt(fs, j) && !IsDirAt(fs', j) && Linked(fs, exact)
    requires forall e: nat {:trigger Ino(fs', e)} | IsDirAt(fs, e) && e != j :: Ino(fs', e).links == Ino(fs, e).links
    ensures Linked(fs', exact)
  {
    forall d: nat, nm | !Dots(nm) && Found(fs', d, nm).Some? && IsDirAt(fs', Found(fs', d, nm).value)
      ensures Found(fs', Found(fs', d, nm).value, UP) == Some(d)
    {
      assert Found(fs, d, nm) == Found(fs', d, nm);
    }
    forall d: nat | IsDirAt(fs', d)
      ensures CountOk(fs', d, exact)
    {
      assert IsDirAt(fs, d);
      CountsElse(fs, fs', j, d);
    }
  }

  /** Directory `d` gained a subdirectory `j`, or at least a link. */
  lemma {:induction false} MadeStep(fs: FS, fs': FS, d: nat, name: Name, j: nat, exact: bool)
    requires WF(fs) && IsDirAt(fs, d) && 0 < j <= INODES && !Dots(name) && Found(fs, d, name) == None
    requires Made(fs, fs', d, name, j) && Linked(fs, exact)
    ensures Linked(fs', exact && Roomy(fs, d, name))
    ensures exact ==> Ino(fs', d).links == 2 + |Live(fs', d)| + if Roomy(fs, d, name) then 0 else 1
  {
    assert InodeOk(fs, j);
    MadeExactly(fs, fs', d, name, j, exact);
    MadeUp(fs, fs', d, name, j);
    NodeFrom(fs, fs', d, name, j);
    forall e: nat | IsDirAt(fs', e)
      ensures CountOk(fs', e, exact && Roomy(fs, d, name))
    {
      if e == j {
        NoneLive(fs', j);
      } else {
        assert IsDirAt(fs, e);
        CountsElse(fs, fs', j, e);
        MadeHolds(fs, fs', d, name, j, e);
        if e != d { assert Kept(fs, fs', e); }
      }
    }
  }

  /** The link of a lost directory stays. */
  lemma MadeExactly(fs: FS, fs': FS, d: nat, name: Name, j: nat, exact: bool)
    requires WF(fs) && IsDirAt(fs, d) && 0 < j <= INODES && !Dots(name) && Found(fs, d, name) == None
    requires Made(fs, fs', d, name, j) && Linked(fs, exact)
    ensures exact ==> Ino(fs', d).links == 2 + |Live(fs', d)| + if Roomy(fs, d, name) then 0 else 1
  {
    NodeFrom(fs, fs', d, name, j);
    CountsElse(fs, fs', j, d);
    MadeHolds(fs, fs', d, name, j, d);
  }

  lemma NoneLive(fs: FS, j: nat)
    requires Shape(fs) && forall nm :: !Dots(nm) ==> Found(fs, j, nm) == None
    ensures Live(fs, j) == {}
  {
  }

  lemma MadeHolds(fs: FS, fs': FS, d: nat, name: Name, j: nat, e: nat)
    requires WF(fs) && IsDirAt(fs, d) && 0 < j <= INODES && !Dots(name) && Made(fs, fs', d, name, j) && e != j
    ensures !IsDirAt(fs, j)
    ensures Holding(fs', e, j) <==> e == d && Roomy(fs, d, name)
    ensures Below(fs', e, j) <==> e == d
  {
    assert InodeOk(fs, j);
    Unheld(fs, j);
    if e == d {
      if Roomy(fs, d, name) { assert Found(fs', d, name) == Some(j); }
    } else {
      forall nm | !Dots(nm)
        ensures Found(fs', e, nm) != Some(j)
      {
        OthersFound(fs, fs', {d, j}, e, nm);
      }
    }
  }

  /** A free inode has no entry. */
  lemma Unheld(fs: FS, j: nat)
    requires WF(fs) && 0 < j && j - 1 !in fs.ibits
    ensures forall e: nat, nm {:trigger Found(fs, e, nm)} | !Dots(nm) :: Found(fs, e, nm) != Some(j)
  {
    forall e: nat, nm | !Dots(nm)
      ensures Found(fs, e, nm) != Some(j)
    {
      assert EntryOk(fs, e, nm);
    }
  }

  lemma MadeUp(fs: FS, fs': FS, d: nat, name: Name, j: nat)
    requires WF(fs) && IsDirAt(fs, d) && 0 < j <= INODES && !Dots(name) && Found(fs, d, name) == None
    requires Made(fs, fs', d, name, j) && UpLeadsBack(fs)
    ensures UpLeadsBack(fs')
  {
    Unheld(fs, j);
    NodeFrom(fs, fs', d, name, j);
    forall e: nat, nm | !Dots(nm) && Found(fs', e, nm).Some? && IsDirAt(fs', Found(fs', e, nm).value)
      ensures Found(fs', Found(fs', e, nm).value, UP) == Some(e)
    {
      var i := Found(fs', e, nm).value;
      if i == j {
        MadeHolds(fs, fs', d, name, j, e);
      } else {
        assert Found(fs, e, nm) == Some(i);
      }
    }
  }

  /** Directory `d` lost its subdirectory `j`. */
  lemma {:induction false} RemovedStep(fs: FS, fs': FS, d: nat, name: Name, j: nat, exact: bool)
    requires WF(fs) && IsDirAt(fs, d) && 0 < j <= INODES && !Dots(name) && Found(fs, d, name) == Some(j) && IsDirAt(fs, j)
    requires DirUnlinked(fs, fs', d, name, j) && Linked(fs, exact)
    ensures Linked(fs', exact)
  {
    assert IsDirAt(fs', d) by { assert InodeOk(fs', d); }
    NodeFrom(fs, fs', d, name, j);
    forall e: nat, nm | !Dots(nm) && Found(fs', e, nm).Some? && IsDirAt(fs', Found(fs', e, nm).value)
      ensures Found(fs', Found(fs', e, nm).value, UP) == Some(e)
    {
      assert Found(fs, e, nm) == Found(fs', e, nm);
    }
    forall e: nat | IsDirAt(fs', e)
      ensures CountOk(fs', e, exact)
    {
      assert IsDirAt(fs, e);
      CountsElse(fs, fs', j, e);
      RemovedHolds(fs, d, name, j, e);
      if e != d { assert Kept(fs, fs', e); }
    }
  }

  lemma RemovedHolds(fs: FS, d: nat, name: Name, j: nat, e: nat)
    requires WF(fs) && IsDirAt(fs, d) && !Dots(name) && Found(fs, d, name) == Some(j) && IsDirAt(fs, j) && UpLeadsBack(fs) && e != j
    ensures Holding(fs, e, j) <==> e == d
    ensures Below(fs, e, j) <==> e == d
  {
    assert EntryOk(fs, d, name);
    forall nm | !Dots(nm) && Found(fs, e, nm) == Some(j)
      ensures e == d
    {
      assert EntryOk(fs, e, nm);
    }
  }

  lemma CreatedStep(fs: FS, fs': FS, d: nat, name: Name, j: nat, bytes: seq<byte>, exact: bool)
    requires WF(fs) && IsDirAt(fs, d) && 0 < j <= INODES && !Dots(name) && Found(fs, d, name) == None
    requires Created(fs, fs', d, name, j, bytes) && Linked(fs, exact)
    ensures Linked(fs', exact)
  {
    assert InodeOk(fs, j);
    NodeFrom(fs, fs', d, name, j);
    forall e: nat | IsDirAt(fs, e) && e != j
      ensures Ino(fs', e).links == Ino(fs, e).links
    {
      if e != d { assert Kept(fs, fs', e); }
    }
    FileStep(fs, fs', j, exact);
  }

  lemma OverwrittenStep(fs: FS, fs': FS, j: nat, bytes: seq<byte>, exact: bool)
    requires WF(fs) && 0 < j <= INODES && IsFileAt(fs, j) && Overwritten(fs, fs', j, bytes) && Linked(fs, exact)
    ensures Linked(fs', exact)
  {
    forall i: nat | i != j
      ensures IsDirAt(fs', i) == IsDirAt(fs, i) && forall nm :: Found(fs', i, nm) == Found(fs, i, nm)
      ensures IsDirAt(fs, i) ==> Ino(fs', i).links == Ino(fs, i).links
    {
      if 0 < i <= INODES {
        assert Kept(fs, fs', i) && InodeOk(fs, i);
        KeptSays(fs, fs', i);
      }
    }
    FileStep(fs, fs', j, exact);
  }

  lemma UnlinkedStep(fs: FS, fs': FS, d: nat, name: Name, j: nat, gone: set<nat>, exact: bool)
    requires WF(fs) && IsDirAt(fs, d) && 0 < j <= INODES && !Dots(name) && Found(fs, d, name) == Some(j) && !IsDirAt(fs, j)
    requires Unlinked(fs, fs', d, name, j, gone) && Linked(fs, exact)
    ensures Linked(fs', exact)
  {
    assert IsDirAt(fs', d) by { assert InodeOk(fs', d); }
    NodeFrom(fs, fs', d, name, j);
    forall e: nat | IsDirAt(fs, e) && e != j
      ensures Ino(fs', e).links == Ino(fs, e).links
    {
      if e != d { assert Kept(fs, fs', e); }
    }
    FileStep(fs, fs', j, exact);
  }

  // ---------------------------------------------------------------- a new volume

  lemma NewDirs(fs: FS)
    requires WF(fs) && NewVolume(fs) && Formatted(fs)
    ensures IsDirAt(fs, ROOT) && IsDirAt(fs, 11) && Found(fs, 11, UP) == Some(ROOT) && Found(fs, ROOT, UP) == Some(ROOT)
    ensures forall i: nat {:trigger IsDirAt(fs, i)} :: IsDirAt(fs, i) <==> i == ROOT || i == 11
  {
    assert InodeOk(fs, ROOT) && InodeOk(fs, 11);
    OneBlockDir(fs, ROOT, 12);
    OneBlockDir(fs, 11, 13);
    DotsSay(11, 2, 12, 4084);
    RootUp();
  }

  lemma RootUp()
    ensures Find(NewRoot(), UP) == Some(2)
  {
    assert [46] != UP;
    var rest := Append(Nil, One(Rec(11, 4072, 2, LOST_FOUND)));
    assert NewRoot() == Cons(Rec(2, 12, 2, [46]), Cons(Rec(2, 12, 2, UP), rest));
  }

  /** The root has three links, for `lost+found`; that has two. */
  lemma NewLinked(fs: FS)
    requires WF(fs) && NewVolume(fs) && Formatted(fs)
    ensures Linked(fs, true)
  {
    NewDirs(fs);
    assert Found(fs, ROOT, LOST_FOUND) == Some(11);
    assert Live(fs, ROOT) == {11} && Live(fs, 11) == {};
    assert Children(fs, ROOT) == {11} && Children(fs, 11) == {};
  }
}
