/** Paths from the root: where the entries of directories lead, and where the lookups of the code lead. */
module Ext2Walk {
  import opened Basics
  import opened Ext2Bytes
  import opened Ext2Dir
  import opened Ext2Volume
  import opened Ext2State

  /** The components of an absolute path. */
  type Path = seq<Name>

  predicate PathOk(path: Path) {
    forall k | 0 <= k < |path| :: NameOk(path[k])
  }

  /** Where components `k` up to `hi` lead from inode `d`. */
  ghost function Walk(fs: FS, d: nat, path: Path, k: nat, hi: nat): Option<nat>
    requires Shape(fs) && hi <= |path|
    decreases hi - k
  {
    if k >= hi then Some(d)
    else if Found(fs, d, path[k]).None? then None
    else Walk(fs, Found(fs, d, path[k]).value, path, k + 1, hi)
  }

  ghost function Resolve(fs: FS, path: Path): Option<nat>
    requires Shape(fs)
  {
    Walk(fs, ROOT, path, 0, |path|)
  }

  /** The directory a path's last component is looked up in. */
  ghost function Parent(fs: FS, path: Path): Option<nat>
    requires Shape(fs) && |path| > 0
  {
    Walk(fs, ROOT, path, 0, |path| - 1)
  }

  lemma {:induction false} WalkLast(fs: FS, d: nat, path: Path, k: nat, hi: nat)
    requires Shape(fs) && k < hi <= |path|
    ensures Walk(fs, d, path, k, hi) ==
              if Walk(fs, d, path, k, hi - 1).None? then None
              else Found(fs, Walk(fs, d, path, k, hi - 1).value, path[hi - 1])
    decreases hi - k
  {
    if k + 1 < hi && Found(fs, d, path[k]).Some? {
      WalkLast(fs, Found(fs, d, path[k]).value, path, k + 1, hi);
    } else if k + 1 == hi && Found(fs, d, path[k]).Some? {
      assert Walk(fs, Found(fs, d, path[k]).value, path, k + 1, hi) == Found(fs, d, path[k]);
    }
  }

  // ---------------------------------------------------------------- records lead to inodes

  lemma {:induction false} FindRange(recs: Recs, name: Name)
    requires AllValid(recs) && Find(recs, name).Some?
    ensures 0 < Find(recs, name).value <= INODES
  {
    if !Matches(recs.head, name) {
      FindRange(recs.tail, name);
    }
  }

  lemma {:induction false} DirRecsValid(disk: Disk, dirs: Dirs, ino: Inode, k: nat)
    requires Reads(disk, dirs) && DirBlocks(disk, dirs, ino, k)
    ensures AllValid(DirRecs(disk, dirs, ino, k))
  {
    if k > 0 {
      DirRecsValid(disk, dirs, ino, k - 1);
      assert Holds(disk, dirs, Ptr(disk, ino, k - 1));
      ValidAppend(DirRecs(disk, dirs, ino, k - 1), dirs[Ptr(disk, ino, k - 1)], 0);
    }
  }

  lemma FoundRange(fs: FS, d: nat, name: Name)
    requires WF(fs) && Found(fs, d, name).Some?
    ensures 0 < Found(fs, d, name).value <= INODES
  {
    DirRecsValid(fs.disk, fs.dirs, Ino(fs, d), Ino(fs, d).size / BS);
    FindRange(RecsOf(fs, d), name);
  }

  lemma {:induction false} WalkRange(fs: FS, d: nat, path: Path, k: nat, hi: nat)
    requires WF(fs) && hi <= |path| && 0 < d <= INODES && Walk(fs, d, path, k, hi).Some?
    ensures 0 < Walk(fs, d, path, k, hi).value <= INODES
    decreases hi - k
  {
    if k < hi {
      FoundRange(fs, d, path[k]);
      WalkRange(fs, Found(fs, d, path[k]).value, path, k + 1, hi);
    }
  }

  // ---------------------------------------------------------------- where the code goes

  /** Looking a name up in whatever inode `i` has, directory or not. */
  ghost function LookAt(fs: FS, i: nat, name: Name): Look
    requires Shape(fs) && 0 < i <= INODES
  {
    LookIn(fs.disk, Ino(fs, i), name, Blocks(Ino(fs, i).size))
  }

  lemma LookAtDir(fs: FS, d: nat, name: Name)
    requires WF(fs) && IsDirAt(fs, d)
    ensures LookAt(fs, d, name) == AsLook(Found(fs, d, name))
  {
    LookIsLookup(fs.disk, fs.dirs, Ino(fs, d), name);
  }

  /**
   Where components `k` up to `hi` take the code from inode `i`; it does not ask whether `i` is a directory. An inode
   number the volume does not have is outside of it.
   */
  ghost function Trace(fs: FS, i: nat, path: Path, k: nat, hi: nat): Look
    requires Shape(fs) && hi <= |path| && 0 < i <= INODES
    decreases hi - k
  {
    if k >= hi then Hit(i)
    else match LookAt(fs, i, path[k])
         case Missing => Missing
         case Outside => Outside
         case Hit(next) => if 0 < next <= INODES then Trace(fs, next, path, k + 1, hi) else Outside
  }

  /** Where a path takes the code. */
  ghost function Led(fs: FS, path: Path): Look
    requires Shape(fs)
  {
    Trace(fs, ROOT, path, 0, |path|)
  }

  lemma {:induction false} TraceRange(fs: FS, i: nat, path: Path, k: nat, hi: nat)
    requires Shape(fs) && hi <= |path| && 0 < i <= INODES && Trace(fs, i, path, k, hi).Hit?
    ensures 0 < Trace(fs, i, path, k, hi).inode <= INODES
    decreases hi - k
  {
    if k < hi {
      TraceRange(fs, LookAt(fs, i, path[k]).inode, path, k + 1, hi);
    }
  }

  lemma {:induction false} TraceLast(fs: FS, i: nat, path: Path, k: nat, hi: nat)
    requires Shape(fs) && k < hi <= |path| && 0 < i <= INODES && Trace(fs, i, path, k, hi - 1).Hit?
    ensures 0 < Trace(fs, i, path, k, hi - 1).inode <= INODES
    ensures var r := LookAt(fs, Trace(fs, i, path, k, hi - 1).inode, path[hi - 1]);
            Trace(fs, i, path, k, hi) == if r.Hit? && !(0 < r.inode <= INODES) then Outside else r
    decreases hi - k
  {
    if k + 1 < hi {
      TraceLast(fs, LookAt(fs, i, path[k]).inode, path, k + 1, hi);
    }
  }

  /** Components that are there take the code where they lead. */
  lemma {:induction false} TraceFollows(fs: FS, d: nat, path: Path, k: nat, hi: nat)
    requires WF(fs) && hi <= |path| && 0 < d <= INODES && Walk(fs, d, path, k, hi).Some?
    ensures Trace(fs, d, path, k, hi) == Hit(Walk(fs, d, path, k, hi).value)
    decreases hi - k
  {
    if k < hi {
      LookAtDir(fs, d, path[k]);
      FoundRange(fs, d, path[k]);
      TraceFollows(fs, Found(fs, d, path[k]).value, path, k + 1, hi);
    }
  }

  /** Component `k` is looked up in something that is not a directory, and is not missing there. */
  ghost predicate AstrayAt(fs: FS, path: Path, k: nat)
    requires WF(fs) && k < |path|
  {
    var i := Walk(fs, ROOT, path, 0, k);
    i.Some? && !IsDirAt(fs, i.value) && 0 < i.value <= INODES && LookAt(fs, i.value, path[k]) != Missing
  }

  /** No proper prefix of the path leads to a file in whose bytes the next component is found. */
  ghost predicate Clear(fs: FS, path: Path)
    requires WF(fs)
  {
    forall k: nat | k < |path| :: !AstrayAt(fs, path, k)
  }

  /** As far as the first `hi` components go, the code goes where the entries lead. */
  ghost predicate Agrees(fs: FS, path: Path, hi: nat)
    requires WF(fs) && hi <= |path|
  {
    Trace(fs, ROOT, path, 0, hi) == AsLook(Walk(fs, ROOT, path, 0, hi))
  }

  /** The code goes where the entries lead, for a path and all its prefixes, exactly when the path is clear. */
  lemma {:induction false} ClearExactly(fs: FS, path: Path)
    requires WF(fs)
    ensures Clear(fs, path) <==> forall hi: nat | hi <= |path| :: Agrees(fs, path, hi)
  {
    if Clear(fs, path) {
      forall hi: nat | hi <= |path|
        ensures Agrees(fs, path, hi)
      {
        ClearAgrees(fs, path, hi);
      }
    } else {
      var k: nat :| k < |path| && AstrayAt(fs, path, k);
      TraceFollows(fs, ROOT, path, 0, k);
      TraceLast(fs, ROOT, path, 0, k + 1);
      WalkLast(fs, ROOT, path, 0, k + 1);
      assert !Agrees(fs, path, k + 1);
    }
  }

  lemma {:induction false} ClearAgrees(fs: FS, path: Path, hi: nat)
    requires WF(fs) && hi <= |path| && Clear(fs, path)
    ensures Agrees(fs, path, hi)
  {
    if hi > 0 {
      ClearAgrees(fs, path, hi - 1);
      WalkLast(fs, ROOT, path, 0, hi);
      var i := Walk(fs, ROOT, path, 0, hi - 1);
      if i.Some? {
        WalkRange(fs, ROOT, path, 0, hi - 1);
        TraceLast(fs, ROOT, path, 0, hi);
        assert !AstrayAt(fs, path, hi - 1);
        if IsDirAt(fs, i.value) {
          LookAtDir(fs, i.value, path[hi - 1]);
          if Found(fs, i.value, path[hi - 1]).Some? { FoundRange(fs, i.value, path[hi - 1]); }
        }
      } else {
        TraceMisses(fs, ROOT, path, 0, hi);
      }
    }
  }

  lemma {:induction false} TraceMisses(fs: FS, i: nat, path: Path, k: nat, hi: nat)
    requires Shape(fs) && k < hi <= |path| && 0 < i <= INODES && Trace(fs, i, path, k, hi - 1) == Missing
    ensures Trace(fs, i, path, k, hi) == Missing
    decreases hi - k
  {
    if k + 1 < hi && LookAt(fs, i, path[k]).Hit? {
      TraceMisses(fs, LookAt(fs, i, path[k]).inode, path, k + 1, hi);
    }
  }

  /** A path whose parent is a directory is clear. */
  lemma {:induction false} ClearIf(fs: FS, path: Path)
    requires WF(fs) && |path| > 0 && Parent(fs, path).Some? && IsDirAt(fs, Parent(fs, path).value)
    ensures Clear(fs, path)
  {
    forall k: nat | k < |path|
      ensures !AstrayAt(fs, path, k)
    {
      if k + 1 < |path| { Onwards(fs, path, k, |path| - 1); }
    }
  }

  /** Walking on means being in a directory. */
  lemma {:induction false} Onwards(fs: FS, path: Path, k: nat, hi: nat)
    requires WF(fs) && k < hi <= |path| && Walk(fs, ROOT, path, 0, hi).Some?
    ensures Walk(fs, ROOT, path, 0, k).Some? && IsDirAt(fs, Walk(fs, ROOT, path, 0, k).value)
    decreases hi
  {
    WalkLast(fs, ROOT, path, 0, hi);
    if k + 1 < hi { Onwards(fs, path, k, hi - 1); }
  }

  // ---------------------------------------------------------------- the parent's text

  const PARENT_TEXT: nat := 511

  /** The length of the text of a path: each component and the slash before it. */
  function TextLen(path: Path): nat {
    if path == [] then 0 else 1 + |path[0]| + TextLen(path[1..])
  }

  /** The components of the first `room` bytes of the text of a path; the last one may be cut. */
  function Cut(path: Path, room: nat): Path {
    if path == [] || room < 2 then []
    else if 1 + |path[0]| <= room then [path[0]] + Cut(path[1..], room - 1 - |path[0]|)
    else [path[0][..room - 1]]
  }

  /** Nothing is cut exactly when the text fits. */
  lemma {:induction false} CutExactly(path: Path, room: nat)
    requires forall k | 0 <= k < |path| :: |path[k]| > 0
    ensures Cut(path, room) == path <==> TextLen(path) <= room
  {
    if path != [] && room >= 2 && 1 + |path[0]| <= room {
      CutExactly(path[1..], room - 1 - |path[0]|);
      assert path == [path[0]] + path[1..];
      assert Cut(path, room)[1..] == Cut(path[1..], room - 1 - |path[0]|);
    } else if path != [] && room >= 2 {
      assert Cut(path, room)[0] != path[0];
    }
  }

  lemma {:induction false} CutOk(path: Path, room: nat)
    requires PathOk(path)
    ensures PathOk(Cut(path, room))
  {
    if path != [] && room >= 2 && 1 + |path[0]| <= room {
      CutOk(path[1..], room - 1 - |path[0]|);
    }
  }

  /** The path the code takes for the parent. */
  function Base(path: Path): Path {
    if path == [] then [] else Cut(path[..|path| - 1], PARENT_TEXT)
  }

  /** The text of the parent fits its buffer. */
  predicate ShortParent(path: Path) {
    path != [] ==> TextLen(path[..|path| - 1]) <= PARENT_TEXT
  }

  /** Nothing about the volume leads the code astray on this path or its parent. */
  ghost predicate Straight(fs: FS, path: Path)
    requires WF(fs)
  {
    Clear(fs, path) && ShortParent(path)
  }

  /** The inode the code takes for the parent. */
  ghost function Dest(fs: FS, path: Path): Look
    requires Shape(fs)
  {
    Led(fs, Base(path))
  }

  /** Neither the path nor its parent takes the code to bytes that are not the volume's. */
  ghost predicate Inside(fs: FS, path: Path)
    requires Shape(fs)
  {
    Led(fs, path) != Outside && Dest(fs, path) != Outside
  }

  lemma {:induction false} TracePrefix(fs: FS, i: nat, path: Path, q: Path, k: nat, hi: nat)
    requires Shape(fs) && k <= hi <= |path| && hi <= |q| && path[..hi] == q[..hi] && 0 < i <= INODES
    ensures Trace(fs, i, path, k, hi) == Trace(fs, i, q, k, hi)
    decreases hi - k
  {
    if k < hi {
      assert path[k] == path[..hi][k] == q[..hi][k] == q[k];
      if LookAt(fs, i, path[k]).Hit? && 0 < LookAt(fs, i, path[k]).inode <= INODES {
        TracePrefix(fs, LookAt(fs, i, path[k]).inode, path, q, k + 1, hi);
      }
    }
  }

  /** A parent that fits is looked for where it is. */
  lemma {:induction false} DestIs(fs: FS, path: Path)
    requires Shape(fs) && PathOk(path) && |path| > 0 && ShortParent(path)
    ensures Dest(fs, path) == Trace(fs, ROOT, path, 0, |path| - 1)
  {
    var q := path[..|path| - 1];
    CutExactly(q, PARENT_TEXT);
    TracePrefix(fs, ROOT, q, path, 0, |q|);
  }

  /** On a straight path the code finds the inode the path leads to, and its parent. */
  lemma {:induction false} StraightOn(fs: FS, path: Path)
    requires WF(fs) && PathOk(path) && |path| > 0 && Straight(fs, path)
    ensures Led(fs, path) == AsLook(Resolve(fs, path)) && Dest(fs, path) == AsLook(Parent(fs, path)) && Inside(fs, path)
  {
    ClearAgrees(fs, path, |path|);
    ClearAgrees(fs, path, |path| - 1);
    DestIs(fs, path);
  }

  /** If the parent that fits is a directory, the path is looked up in it. */
  lemma {:induction false} LedByParent(fs: FS, path: Path)
    requires WF(fs) && PathOk(path) && |path| > 0 && ShortParent(path) && Dest(fs, path).Hit? && IsDirAt(fs, Dest(fs, path).inode)
    ensures Led(fs, path) == AsLook(Found(fs, Dest(fs, path).inode, path[|path| - 1]))
  {
    var d, name := Dest(fs, path).inode, path[|path| - 1];
    DestIs(fs, path);
    TraceLast(fs, ROOT, path, 0, |path|);
    LookAtDir(fs, d, name);
    if Found(fs, d, name).Some? { FoundRange(fs, d, name); }
  }
}
