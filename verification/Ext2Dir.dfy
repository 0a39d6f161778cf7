/**
 A directory block: records chained by their length fields, as in the linked-list directory of
 "The Second Extended File System: Internal Layout", section 4.1.
 */
module Ext2Dir {
  import opened Basics
  import opened LittleEndian
  import opened Ext2Bytes

  type Name = seq<byte>

  predicate NameOk(name: Name) {
    0 < |name| <= 255 && forall i | 0 <= i < |name| :: name[i] != 0 && name[i] != 47
  }

  const MAX_INODE: nat := 256

  datatype Record<N> = Rec(inode: nat, len: nat, ftype: byte, name: N)

  type Rec = Record<Name>

  /** A sequence of records. */
  datatype Recs = Nil | Cons(head: Rec, tail: Recs)

  /** The shortest record that holds a name of this length. */
  function MinLen(nameLen: nat): (r: nat)
    ensures 8 + nameLen <= r < 12 + nameLen
  {
    (nameLen + 11) / 4 * 4
  }

  /** The `n` bytes at `o`. */
  function Text(b: Block, o: nat, n: nat): (s: seq<byte>)
    requires o + n <= BS
    ensures |s| == n
  {
    b[o..o + n]
  }

  lemma TextAt(b: Block, o: nat, n: nat, s: seq<byte>)
    requires o + n <= BS && |s| == n && forall i | 0 <= i < n :: b[o + i] == s[i]
    ensures Text(b, o, n) == s
  {
  }

  lemma TextKept(b: Block, b': Block, o: nat, n: nat)
    requires o + n <= BS && forall x | o <= x < o + n :: b'[x] == b[x]
    ensures Text(b', o, n) == Text(b, o, n)
  {
  }

  function RecAt(b: Block, o: nat): Rec
    requires o + 8 <= BS
  {
    var n := b[o + 6];
    Rec(Get32(b, o), Get16(b, o + 4), b[o + 7], if o + 8 + n <= BS then Text(b, o + 8, n) else [])
  }

  function Len(b: Block, o: nat): nat
    requires o + 8 <= BS
  {
    Get16(b, o + 4)
  }

  lemma LenBound(b: Block, o: nat)
    requires o + 8 <= BS
    ensures Len(b, o) < 0x1_0000
  {
    Widths();
    LoadBound(b, o + 4, o + 6);
  }

  /** A record that starts at `o` stays inside the block and has room for its name. */
  predicate Fits(b: Block, o: nat) {
    o + 8 <= BS && 8 + b[o + 6] <= Len(b, o) && o + Len(b, o) <= BS
  }

  /** The records from `o` on fill the block exactly. */
  predicate Partition(b: Block, o: nat)
    decreases BS - o
  {
    o == BS || (o < BS && Fits(b, o) && Partition(b, o + Len(b, o)))
  }

  function Parse(b: Block, o: nat): Recs
    requires Partition(b, o)
    decreases BS - o
  {
    if o == BS then Nil else Cons(RecAt(b, o), Parse(b, o + Len(b, o)))
  }

  /** Following record lengths from `s` arrives at `o`. */
  ghost predicate Reach(b: Block, s: nat, o: nat)
    decreases o - s
  {
    s == o || (s < o && Fits(b, s) && Reach(b, s + Len(b, s), o))
  }

  ghost function Between(b: Block, s: nat, o: nat): Recs
    requires Reach(b, s, o)
    decreases o - s
  {
    if s == o then Nil else Cons(RecAt(b, s), Between(b, s + Len(b, s), o))
  }

  // ---------------------------------------------------------------- what the records say

  /** A live record names an inode and is long enough for its name. */
  predicate RecValid(r: Rec) {
    r.inode != 0 ==> r.inode <= MAX_INODE && NameOk(r.name) && MinLen(|r.name|) <= r.len
  }

  predicate AllValid(recs: Recs) {
    recs.Cons? ==> RecValid(recs.head) && AllValid(recs.tail)
  }

  predicate DirBlock(b: Block) {
    Partition(b, 0) && AllValid(Parse(b, 0))
  }

  predicate Matches(r: Rec, name: Name) {
    r.inode != 0 && r.name == name
  }

  /** The inode of the first live record with this name. */
  function Find(recs: Recs, name: Name): Option<nat> {
    if recs.Nil? then None
    else if Matches(recs.head, name) then Some(recs.head.inode)
    else Find(recs.tail, name)
  }

  /** How many live records have this name. */
  function Count(recs: Recs, name: Name): nat {
    if recs.Nil? then 0 else (if Matches(recs.head, name) then 1 else 0) + Count(recs.tail, name)
  }

  /** Room for a record of `need` bytes: a free record that long, or that much behind a live one's name. */
  predicate HasRoom(r: Rec, need: nat) {
    if r.inode == 0 then need <= r.len else MinLen(|r.name|) + need <= r.len
  }

  predicate AnyRoom(recs: Recs, need: nat) {
    recs.Cons? && (HasRoom(recs.head, need) || AnyRoom(recs.tail, need))
  }

  function Append(a: Recs, b: Recs): Recs {
    if a.Nil? then b else Cons(a.head, Append(a.tail, b))
  }

  /** `.` or `..`. */
  predicate Dots(name: Name) {
    (|name| == 1 && name[0] == 46) || (|name| == 2 && name[0] == 46 && name[1] == 46)
  }

  /** No live record but `.` and `..`. */
  predicate OnlyDots(recs: Recs) {
    recs.Cons? ==> !Occupies(recs.head) && OnlyDots(recs.tail)
  }

  /** A live record other than `.` and `..`. */
  predicate Occupies(r: Rec) {
    r.inode != 0 && |r.name| > 0 && !Dots(r.name)
  }

  lemma {:induction false} OnlyDotsAppend(a: Recs, b: Recs)
    ensures OnlyDots(Append(a, b)) <==> OnlyDots(a) && OnlyDots(b)
  {
    if a.Cons? {
      OnlyDotsAppend(a.tail, b);
    }
  }

  /** Only dots: no other name is found. */
  lemma {:induction false} OnlyDotsFind(recs: Recs)
    requires AllValid(recs)
    ensures OnlyDots(recs) <==> forall nm :: !Dots(nm) ==> Find(recs, nm) == None
  {
    if recs.Cons? {
      OnlyDotsFind(recs.tail);
      if Occupies(recs.head) {
        assert Find(recs, recs.head.name).Some?;
      } else {
        forall n | !Dots(n) ensures Find(recs, n) == Find(recs.tail, n) { }
      }
    }
  }

  lemma {:induction false} FindAppend(a: Recs, b: Recs, name: Name)
    ensures Find(Append(a, b), name) == if Find(a, name).Some? then Find(a, name) else Find(b, name)
    ensures Count(Append(a, b), name) == Count(a, name) + Count(b, name)
  {
    if a.Cons? {
      FindAppend(a.tail, b, name);
    }
  }

  lemma {:induction false} ValidAppend(a: Recs, b: Recs, need: nat)
    ensures AllValid(Append(a, b)) <==> AllValid(a) && AllValid(b)
    ensures AnyRoom(Append(a, b), need) <==> AnyRoom(a, need) || AnyRoom(b, need)
  {
    if a.Cons? {
      ValidAppend(a.tail, b, need);
    }
  }

  lemma {:induction false} FoundIffCounted(recs: Recs, name: Name)
    ensures Find(recs, name).Some? <==> Count(recs, name) > 0
  {
    if recs.Cons? {
      FoundIffCounted(recs.tail, name);
    }
  }

  /** The bytes that the live records need. */
  function Space(recs: Recs): nat {
    if recs.Nil? then 0 else (if recs.head.inode != 0 then MinLen(|recs.head.name|) else 0) + Space(recs.tail)
  }

  function Lengths(recs: Recs): nat {
    if recs.Nil? then 0 else recs.head.len + Lengths(recs.tail)
  }

  lemma {:induction false} SpaceAppend(a: Recs, b: Recs)
    ensures Space(Append(a, b)) == Space(a) + Space(b) && Lengths(Append(a, b)) == Lengths(a) + Lengths(b)
  {
    if a.Cons? {
      SpaceAppend(a.tail, b);
    }
  }

  /** The records of a block fill it. */
  lemma {:induction false} LengthsIs(b: Block, o: nat)
    requires Partition(b, o)
    ensures o <= BS && Lengths(Parse(b, o)) == BS - o
    decreases BS - o
  {
    if o < BS {
      LengthsIs(b, o + Len(b, o));
    }
  }

  /** Room for a record means that the live ones leave so much. */
  lemma {:induction false} RoomLeft(recs: Recs, need: nat)
    requires AllValid(recs)
    ensures Space(recs) <= Lengths(recs)
    ensures AnyRoom(recs, need) ==> Space(recs) + need <= Lengths(recs)
  {
    if recs.Cons? {
      RoomLeft(recs.tail, need);
    }
  }

  /** `y` says what `x` says, with one more entry for `name`, and needs the space for that one more. */
  ghost predicate OneMore(x: Recs, y: Recs, name: Name, ino: nat) {
    && Space(y) == Space(x) + MinLen(|name|)
    && (forall n :: n != name ==> Find(y, n) == Find(x, n) && Count(y, n) == Count(x, n))
    && Count(y, name) == Count(x, name) + 1
    && (Count(x, name) == 0 ==> Find(y, name) == Some(ino))
  }

  /** There is a record of this name for this inode, of file type `ft`. */
  predicate Typed(recs: Recs, name: Name, ino: nat, ft: byte) {
    recs.Cons? && ((recs.head.inode == ino && recs.head.ftype == ft && recs.head.name == name) || Typed(recs.tail, name, ino, ft))
  }

  lemma {:induction false} TypedAppend(a: Recs, b: Recs, name: Name, ino: nat, ft: byte)
    ensures Typed(Append(a, b), name, ino, ft) <==> Typed(a, name, ino, ft) || Typed(b, name, ino, ft)
  {
    if a.Cons? {
      TypedAppend(a.tail, b, name, ino, ft);
    }
  }

  /** Replacing the middle of a record sequence. */
  lemma {:induction false} OneMoreInside(a: Recs, x: Recs, y: Recs, b: Recs, name: Name, ino: nat)
    requires OneMore(x, y, name, ino)
    ensures OneMore(Append(a, Append(x, b)), Append(a, Append(y, b)), name, ino)
  {
    forall n: Name
      ensures Count(Append(a, Append(x, b)), n) == Count(a, n) + Count(x, n) + Count(b, n)
      ensures Count(Append(a, Append(y, b)), n) == Count(a, n) + Count(y, n) + Count(b, n)
      ensures n != name ==> Find(Append(a, Append(y, b)), n) == Find(Append(a, Append(x, b)), n)
    {
      Three(a, x, b, n);
      Three(a, y, b, n);
    }
    Three(a, y, b, name);
    FoundIffCounted(a, name);
    SpaceInside(a, x, b);
    SpaceInside(a, y, b);
  }

  lemma {:induction false} SpaceInside(a: Recs, x: Recs, b: Recs)
    ensures Space(Append(a, Append(x, b))) == Space(a) + Space(x) + Space(b)
  {
    SpaceAppend(x, b);
    SpaceAppend(a, Append(x, b));
  }

  lemma {:induction false} Three(a: Recs, x: Recs, b: Recs, n: Name)
    ensures Count(Append(a, Append(x, b)), n) == Count(a, n) + Count(x, n) + Count(b, n)
    ensures Find(Append(a, Append(x, b)), n) ==
              if Find(a, n).Some? then Find(a, n) else if Find(x, n).Some? then Find(x, n) else Find(b, n)
  {
    FindAppend(x, b, n);
    FindAppend(a, Append(x, b), n);
  }

  // ---------------------------------------------------------------- walking a block

  lemma ReachBound(b: Block, s: nat, o: nat)
    requires Reach(b, s, o)
    ensures s <= o
  {
  }

  lemma SameRec(b: Block, b': Block, o: nat)
    requires Fits(b, o) && forall x | o <= x < o + Len(b, o) :: b'[x] == b[x]
    ensures Fits(b', o) && RecAt(b', o) == RecAt(b, o) && Len(b', o) == Len(b, o)
  {
    TextKept(b, b', o + 8, b[o + 6]);
    LoadFrame(b, b', o, o + 4);
    LoadFrame(b, b', o + 4, o + 6);
  }

  lemma {:induction false} PrefixKept(b: Block, b': Block, s: nat, o: nat)
    requires Reach(b, s, o) && o <= BS && forall x | s <= x < o :: b'[x] == b[x]
    ensures Reach(b', s, o) && Between(b', s, o) == Between(b, s, o)
    decreases o - s
  {
    if s < o {
      ReachBound(b, s + Len(b, s), o);
      SameRec(b, b', s);
      PrefixKept(b, b', s + Len(b, s), o);
    }
  }

  lemma {:induction false} SuffixKept(b: Block, b': Block, o: nat)
    requires Partition(b, o) && forall x | o <= x < BS :: b'[x] == b[x]
    ensures Partition(b', o) && Parse(b', o) == Parse(b, o)
    decreases BS - o
  {
    if o < BS {
      SameRec(b, b', o);
      SuffixKept(b, b', o + Len(b, o));
    }
  }

  lemma {:induction false} Joined(b: Block, s: nat, o: nat)
    requires Reach(b, s, o) && Partition(b, o)
    ensures Partition(b, s) && Parse(b, s) == Append(Between(b, s, o), Parse(b, o))
    decreases o - s
  {
    if s < o {
      Joined(b, s + Len(b, s), o);
    }
  }

  lemma {:induction false} AtRec(b: Block, s: nat, o: nat)
    requires Partition(b, s) && Reach(b, s, o)
    ensures o <= BS && Partition(b, o)
    decreases o - s
  {
    if s < o {
      AtRec(b, s + Len(b, s), o);
    }
  }

  lemma {:induction false} ReachOn(b: Block, s: nat, o: nat)
    requires Reach(b, s, o) && Fits(b, o)
    ensures Reach(b, s, o + Len(b, o))
    ensures Between(b, s, o + Len(b, o)) == Append(Between(b, s, o), Cons(RecAt(b, o), Nil))
    decreases o - s
  {
    if s < o {
      ReachBound(b, s + Len(b, s), o);
      ReachOn(b, s + Len(b, s), o);
    } else {
      assert Reach(b, o + Len(b, o), o + Len(b, o));
    }
  }

  /** The records before `o`, the one at `o`, and those after it. */
  lemma {:induction false} Divided(b: Block, o: nat) returns (p: Recs, s: Recs)
    requires Partition(b, 0) && Reach(b, 0, o) && o < BS
    ensures Fits(b, o) && Partition(b, o + Len(b, o))
    ensures p == Between(b, 0, o) && s == Parse(b, o + Len(b, o)) && Parse(b, 0) == Append(p, Cons(RecAt(b, o), s))
  {
    AtRec(b, 0, o);
    Joined(b, 0, o);
    p, s := Between(b, 0, o), Parse(b, o + Len(b, o));
  }

  lemma OneRec(b: Block, o: nat, e: nat)
    requires Fits(b, o) && o + Len(b, o) == e
    ensures Reach(b, o, e) && Between(b, o, e) == Cons(RecAt(b, o), Nil)
  {
    assert Reach(b, e, e);
  }

  lemma TwoRecs(b: Block, o: nat, m: nat, e: nat)
    requires Fits(b, o) && o + Len(b, o) == m && Fits(b, m) && m + Len(b, m) == e
    ensures Reach(b, o, e) && Between(b, o, e) == Cons(RecAt(b, o), Cons(RecAt(b, m), Nil))
  {
    OneRec(b, m, e);
  }

  /** New records in the place of the one at `o`. */
  lemma {:induction false} Spliced(b: Block, b': Block, o: nat, e: nat)
    requires Reach(b, 0, o) && o <= e <= BS && Partition(b, e)
    requires forall x | 0 <= x < o || e <= x < BS :: b'[x] == b[x]
    requires Reach(b', o, e)
    ensures Partition(b', 0)
    ensures Parse(b', 0) == Append(Between(b, 0, o), Append(Between(b', o, e), Parse(b, e)))
  {
    PrefixKept(b, b', 0, o);
    SuffixKept(b, b', e);
    Joined(b', o, e);
    Joined(b', 0, o);
  }

  // ---------------------------------------------------------------- writing one record

  /** Inode, record length, name length, file type and name at `o`. */
  function Written(b: Block, o: nat, r: Rec): Block
    requires |r.name| <= 255 && o + 8 + |r.name| <= BS
  {
    var b := Put32(b, o, r.inode);
    var b := Put16(b, o + 4, r.len);
    Put(b[o + 6 := |r.name|][o + 7 := r.ftype], o + 8, r.name)
  }

  lemma WrittenAt(b: Block, o: nat, r: Rec)
    requires |r.name| <= 255 && o + 8 + |r.name| <= BS
    requires r.inode < 0x1_0000_0000 && r.len < 0x1_0000
    ensures RecAt(Written(b, o, r), o) == r
    ensures Len(Written(b, o, r), o) == r.len && Written(b, o, r)[o + 6] == |r.name|
    ensures forall x | 0 <= x < o || o + 8 + |r.name| <= x < BS :: Written(b, o, r)[x] == b[x]
  {
    var b1 := Put32(b, o, r.inode);
    var b2 := Put16(b1, o + 4, r.len);
    var b' := Written(b, o, r);
    Put32Get(b, o, r.inode);
    LoadFrame(b1, b', o, o + 4);
    Put16Get(b1, o + 4, r.len);
    LoadFrame(b2, b', o + 4, o + 6);
    TextAt(b', o + 8, |r.name|, r.name);
  }

  /** Changing only the length field of a record. */
  lemma Relengthened(b: Block, o: nat, len: nat)
    requires o + 8 <= BS && len < 0x1_0000
    ensures RecAt(Put16(b, o + 4, len), o) == RecAt(b, o).(len := len)
    ensures Len(Put16(b, o + 4, len), o) == len && Put16(b, o + 4, len)[o + 6] == b[o + 6]
  {
    var b' := Put16(b, o + 4, len);
    Put16Get(b, o + 4, len);
    LoadFrame(b, b', o, o + 4);
    if o + 8 + b[o + 6] <= BS {
      TextKept(b, b', o + 8, b[o + 6]);
    }
  }

  /** Changing only the inode field of a record. */
  lemma Renumbered(b: Block, o: nat, inode: nat)
    requires o + 8 <= BS && inode < 0x1_0000_0000
    ensures RecAt(Put32(b, o, inode), o) == RecAt(b, o).(inode := inode)
    ensures Len(Put32(b, o, inode), o) == Len(b, o) && Put32(b, o, inode)[o + 6] == b[o + 6]
  {
    var b' := Put32(b, o, inode);
    Put32Get(b, o, inode);
    LoadFrame(b, b', o + 4, o + 6);
    if o + 8 + b[o + 6] <= BS {
      TextKept(b, b', o + 8, b[o + 6]);
    }
  }

  // ---------------------------------------------------------------- the three edits

  function One(r: Rec): Recs { Cons(r, Nil) }

  function Two(r1: Rec, r2: Rec): Recs { Cons(r1, Cons(r2, Nil)) }

  lemma TwoSay(r1: Rec, r2: Rec, n: Name)
    ensures Find(Two(r1, r2), n) == if Matches(r1, n) then Some(r1.inode) else if Matches(r2, n) then Some(r2.inode) else None
    ensures Count(Two(r1, r2), n) == (if Matches(r1, n) then 1 else 0) + (if Matches(r2, n) then 1 else 0)
  {
    assert Count(One(r2), n) == if Matches(r2, n) then 1 else 0;
    assert Find(One(r2), n) == if Matches(r2, n) then Some(r2.inode) else None;
  }

  /** A free record replaced by a live one, alone or with a free rest behind it. */
  lemma FreeTaken(r: Rec, r1: Rec, r2: Rec, name: Name, ino: nat)
    requires r.inode == 0 && Matches(r1, name) && r1.inode == ino && r2.inode == 0
    ensures OneMore(One(r), One(r1), name, ino) && OneMore(One(r), Two(r1, r2), name, ino)
  {
    forall n: Name
      ensures Find(Two(r1, r2), n) == Find(One(r1), n) && Count(Two(r1, r2), n) == Count(One(r1), n)
    {
      TwoSay(r1, r2, n);
    }
  }

  /** A live record with a new live one behind it. */
  lemma LiveFollowed(r: Rec, r1: Rec, r2: Rec, name: Name, ino: nat)
    requires r1.inode == r.inode && r1.name == r.name && Matches(r2, name) && r2.inode == ino
    ensures OneMore(One(r), Two(r1, r2), name, ino)
  {
    forall n: Name
      ensures n != name ==> Find(Two(r1, r2), n) == Find(One(r), n)
      ensures Count(Two(r1, r2), n) == Count(One(r), n) + if n == name then 1 else 0
    {
      TwoSay(r1, r2, n);
    }
    TwoSay(r1, r2, name);
  }

  /** The free record at `o` takes the entry and, if long enough, leaves a free rest. */
  function Reused(b: Block, o: nat, name: Name, ino: nat, ft: byte): Block
    requires Fits(b, o) && NameOk(name) && MinLen(|name|) <= Len(b, o)
  {
    var need, rem := MinLen(|name|), Len(b, o) - MinLen(|name|);
    if rem >= 8 then
      Written(Written(b, o, Rec(ino, need, ft, name)), o + need, Rec(0, rem, 0, []))
    else
      Written(b, o, Rec(ino, Len(b, o), ft, name))
  }

  /** The live record at `o` shrinks to its name and the entry takes the rest. */
  function Shared(b: Block, o: nat, name: Name, ino: nat, ft: byte): Block
    requires Fits(b, o) && NameOk(name) && MinLen(b[o + 6]) + MinLen(|name|) <= Len(b, o)
  {
    var used := MinLen(b[o + 6]);
    Written(Put16(b, o + 4, used), o + used, Rec(ino, Len(b, o) - used, ft, name))
  }

  /** The record at `o` is marked free. */
  function Removed(b: Block, o: nat): Block
    requires o + 8 <= BS
  {
    Put32(b, o, 0)
  }

  /** What an edit of the record at `o` leaves in its place. */
  ghost predicate Edited(b: Block, b': Block, o: nat, recs: Recs)
    requires Fits(b, o)
  {
    && (forall x | 0 <= x < o || o + Len(b, o) <= x < BS :: b'[x] == b[x])
    && Reach(b', o, o + Len(b, o))
    && Between(b', o, o + Len(b, o)) == recs
  }

  lemma ReusedWhole(b: Block, o: nat, name: Name, ino: nat, ft: byte)
    requires Fits(b, o) && NameOk(name) && MinLen(|name|) <= Len(b, o) < MinLen(|name|) + 8 && 0 < ino <= MAX_INODE
    ensures Edited(b, Reused(b, o, name, ino, ft), o, One(Rec(ino, Len(b, o), ft, name)))
  {
    LenBound(b, o);
    WrittenAt(b, o, Rec(ino, Len(b, o), ft, name));
    OneRec(Reused(b, o, name, ino, ft), o, o + Len(b, o));
  }

  lemma {:induction false} ReusedPart(b: Block, o: nat, name: Name, ino: nat, ft: byte)
    requires Fits(b, o) && NameOk(name) && MinLen(|name|) + 8 <= Len(b, o) && 0 < ino <= MAX_INODE
    ensures Edited(b, Reused(b, o, name, ino, ft), o,
                   Two(Rec(ino, MinLen(|name|), ft, name), Rec(0, Len(b, o) - MinLen(|name|), 0, [])))
  {
    LenBound(b, o);
    var m := o + MinLen(|name|);
    var r1, r2 := Rec(ino, m - o, ft, name), Rec(0, o + Len(b, o) - m, 0, []);
    WrittenAt(b, o, r1);
    WrittenBehind(b, Written(b, o, r1), o, m, r2);
  }

  /** A second record behind one that was written or shortened at `o`. */
  lemma {:induction false} WrittenBehind(b: Block, b1: Block, o: nat, m: nat, r2: Rec)
    requires Fits(b, o) && Fits(b1, o) && o + Len(b1, o) == m && m + r2.len == o + Len(b, o)
    requires forall x | 0 <= x < o || o + Len(b, o) <= x < BS :: b1[x] == b[x]
    requires |r2.name| <= 255 && 8 + |r2.name| <= r2.len < 0x1_0000 && r2.inode < 0x1_0000_0000
    ensures Edited(b, Written(b1, m, r2), o, Two(RecAt(b1, o), r2))
  {
    var b' := Written(b1, m, r2);
    WrittenAt(b1, m, r2);
    SameRec(b1, b', o);
    TwoRecs(b', o, m, o + Len(b, o));
  }

  lemma {:induction false} SharedTail(b: Block, o: nat, name: Name, ino: nat, ft: byte)
    requires Fits(b, o) && NameOk(name) && MinLen(b[o + 6]) + MinLen(|name|) <= Len(b, o) && 0 < ino <= MAX_INODE
    ensures Edited(b, Shared(b, o, name, ino, ft), o,
                   Two(RecAt(b, o).(len := MinLen(b[o + 6])), Rec(ino, Len(b, o) - MinLen(b[o + 6]), ft, name)))
  {
    var used := MinLen(b[o + 6]);
    LenBound(b, o);
    Shortened(b, o, used);
    WrittenBehind(b, Put16(b, o + 4, used), o, o + used, Rec(ino, Len(b, o) - used, ft, name));
  }

  lemma {:induction false} Shortened(b: Block, o: nat, len: nat)
    requires Fits(b, o) && 8 + b[o + 6] <= len <= Len(b, o) < 0x1_0000
    ensures var b1 := Put16(b, o + 4, len);
            && Fits(b1, o) && Len(b1, o) == len && RecAt(b1, o) == RecAt(b, o).(len := len)
            && forall x | 0 <= x < o || o + Len(b, o) <= x < BS :: b1[x] == b[x]
  {
    Relengthened(b, o, len);
  }

  lemma RemovedHere(b: Block, o: nat)
    requires Fits(b, o)
    ensures Edited(b, Removed(b, o), o, One(RecAt(b, o).(inode := 0)))
  {
    Renumbered(b, o, 0);
    OneRec(Removed(b, o), o, o + Len(b, o));
  }

  /** The whole block after an edit of the record at `o`. */
  lemma {:induction false} EditedParse(b: Block, b': Block, o: nat, recs: Recs)
    requires Partition(b, 0) && Reach(b, 0, o) && o < BS && Fits(b, o) && Edited(b, b', o, recs)
    requires Partition(b, o + Len(b, o))
    ensures Partition(b', 0) && Parse(b', 0) == Append(Between(b, 0, o), Append(recs, Parse(b, o + Len(b, o))))
  {
    Spliced(b, b', o, o + Len(b, o));
  }

  lemma ValidInside(p: Recs, r: Rec, recs: Recs, s: Recs)
    requires AllValid(Append(p, Cons(r, s))) && AllValid(recs)
    ensures AllValid(Append(p, Append(recs, s)))
  {
    ValidAppend(p, Cons(r, s), 0);
    ValidAppend(recs, s, 0);
    ValidAppend(p, Append(recs, s), 0);
  }

  lemma OneFirst(r: Rec, s: Recs)
    ensures Append(One(r), s) == Cons(r, s)
  {
  }

  /** An edit that gains or loses one entry, seen from the whole block. */
  lemma {:induction false} EditEffect(b: Block, b': Block, o: nat, recs: Recs, name: Name, ino: nat)
    requires Partition(b, 0) && Reach(b, 0, o) && o < BS && Fits(b, o) && Edited(b, b', o, recs)
    ensures Partition(b', 0)
    ensures OneMore(One(RecAt(b, o)), recs, name, ino) ==> OneMore(Parse(b, 0), Parse(b', 0), name, ino)
    ensures OneMore(recs, One(RecAt(b, o)), name, ino) ==> OneMore(Parse(b', 0), Parse(b, 0), name, ino)
    ensures AllValid(Parse(b, 0)) && AllValid(recs) ==> AllValid(Parse(b', 0))
  {
    var p, s := EditedLists(b, b', o, recs);
    ListEffect(Parse(b, 0), Parse(b', 0), p, RecAt(b, o), recs, s, name, ino);
  }

  /** The records `p` before and `s` behind the edited one stay. */
  lemma {:induction false} EditedLists(b: Block, b': Block, o: nat, recs: Recs) returns (p: Recs, s: Recs)
    requires Partition(b, 0) && Reach(b, 0, o) && o < BS && Fits(b, o) && Edited(b, b', o, recs)
    ensures Parse(b, 0) == Append(p, Cons(RecAt(b, o), s))
    ensures Partition(b', 0) && Parse(b', 0) == Append(p, Append(recs, s))
  {
    p, s := Divided(b, o);
    EditedParse(b, b', o, recs);
  }

  lemma {:induction false} ListEffect(x: Recs, y: Recs, p: Recs, r: Rec, recs: Recs, s: Recs, name: Name, ino: nat)
    requires x == Append(p, Cons(r, s)) && y == Append(p, Append(recs, s))
    ensures OneMore(One(r), recs, name, ino) ==> OneMore(x, y, name, ino)
    ensures OneMore(recs, One(r), name, ino) ==> OneMore(y, x, name, ino)
    ensures AllValid(x) && AllValid(recs) ==> AllValid(y)
  {
    OneFirst(r, s);
    if OneMore(One(r), recs, name, ino) {
      OneMoreInside(p, One(r), recs, s, name, ino);
    }
    if OneMore(recs, One(r), name, ino) {
      OneMoreInside(p, recs, One(r), s, name, ino);
    }
    if AllValid(x) && AllValid(recs) {
      ValidInside(p, r, recs, s);
    }
  }

  /** `b'` is a directory block with one entry more than `b`, of type `ft`. */
  ghost predicate Gains(b: Block, b': Block, name: Name, ino: nat, ft: byte) {
    && Partition(b, 0) && Partition(b', 0)
    && OneMore(Parse(b, 0), Parse(b', 0), name, ino) && Typed(Parse(b', 0), name, ino, ft)
    && (AllValid(Parse(b, 0)) ==> AllValid(Parse(b', 0)))
  }

  lemma {:induction false} Gained(b: Block, b': Block, o: nat, recs: Recs, name: Name, ino: nat, ft: byte)
    requires Partition(b, 0) && Reach(b, 0, o) && o < BS && Fits(b, o) && Edited(b, b', o, recs)
    requires OneMore(One(RecAt(b, o)), recs, name, ino) && AllValid(recs) && Typed(recs, name, ino, ft)
    ensures Gains(b, b', name, ino, ft)
  {
    EditEffect(b, b', o, recs, name, ino);
    EditTyped(b, b', o, recs, name, ino, ft);
  }

  lemma {:induction false} EditTyped(b: Block, b': Block, o: nat, recs: Recs, name: Name, ino: nat, ft: byte)
    requires Partition(b, 0) && Reach(b, 0, o) && o < BS && Fits(b, o) && Edited(b, b', o, recs) && Typed(recs, name, ino, ft)
    ensures Partition(b', 0) && Typed(Parse(b', 0), name, ino, ft)
  {
    var p, s := EditedLists(b, b', o, recs);
    TypedAppend(recs, s, name, ino, ft);
    TypedAppend(p, Append(recs, s), name, ino, ft);
  }

  lemma TypedTwo(r1: Rec, r2: Rec, name: Name, ino: nat, ft: byte)
    requires r1 == Rec(ino, r1.len, ft, name) || r2 == Rec(ino, r2.len, ft, name)
    ensures Typed(Two(r1, r2), name, ino, ft)
  {
    assert Typed(One(r2), name, ino, ft) || r1 == Rec(ino, r1.len, ft, name);
  }

  lemma TwoValid(r1: Rec, r2: Rec)
    requires RecValid(r1) && RecValid(r2)
    ensures AllValid(One(r1)) && AllValid(Two(r1, r2))
  {
    assert AllValid(One(r2));
  }

  lemma {:induction false} ReuseGains(b: Block, o: nat, name: Name, ino: nat, ft: byte)
    requires Partition(b, 0) && Reach(b, 0, o) && o < BS && Fits(b, o)
    requires NameOk(name) && 0 < ino <= MAX_INODE
    requires RecAt(b, o).inode == 0 && MinLen(|name|) <= Len(b, o)
    ensures Gains(b, Reused(b, o, name, ino, ft), name, ino, ft)
  {
    if Len(b, o) - MinLen(|name|) >= 8 {
      PartGains(b, o, name, ino, ft);
    } else {
      WholeGains(b, o, name, ino, ft);
    }
  }

  lemma {:induction false} PartGains(b: Block, o: nat, name: Name, ino: nat, ft: byte)
    requires Partition(b, 0) && Reach(b, 0, o) && o < BS && Fits(b, o)
    requires NameOk(name) && 0 < ino <= MAX_INODE && RecAt(b, o).inode == 0 && MinLen(|name|) + 8 <= Len(b, o)
    ensures Gains(b, Reused(b, o, name, ino, ft), name, ino, ft)
  {
    var r1, r2 := Rec(ino, MinLen(|name|), ft, name), Rec(0, Len(b, o) - MinLen(|name|), 0, []);
    FreeTaken(RecAt(b, o), r1, r2, name, ino);
    TwoValid(r1, r2);
    ReusedPart(b, o, name, ino, ft);
    TypedTwo(r1, r2, name, ino, ft);
    Gained(b, Reused(b, o, name, ino, ft), o, Two(r1, r2), name, ino, ft);
  }

  lemma {:induction false} WholeGains(b: Block, o: nat, name: Name, ino: nat, ft: byte)
    requires Partition(b, 0) && Reach(b, 0, o) && o < BS && Fits(b, o)
    requires NameOk(name) && 0 < ino <= MAX_INODE && RecAt(b, o).inode == 0 && MinLen(|name|) <= Len(b, o) < MinLen(|name|) + 8
    ensures Gains(b, Reused(b, o, name, ino, ft), name, ino, ft)
  {
    var r := Rec(ino, Len(b, o), ft, name);
    FreeTaken(RecAt(b, o), r, Rec(0, 0, 0, []), name, ino);
    TwoValid(r, r);
    ReusedWhole(b, o, name, ino, ft);
    assert Typed(One(r), name, ino, ft);
    Gained(b, Reused(b, o, name, ino, ft), o, One(r), name, ino, ft);
  }

  lemma {:induction false} ShareGains(b: Block, o: nat, name: Name, ino: nat, ft: byte)
    requires Partition(b, 0) && Reach(b, 0, o) && o < BS && Fits(b, o)
    requires NameOk(name) && 0 < ino <= MAX_INODE
    requires RecValid(RecAt(b, o)) && MinLen(b[o + 6]) + MinLen(|name|) <= Len(b, o)
    ensures Gains(b, Shared(b, o, name, ino, ft), name, ino, ft)
  {
    var r1 := RecAt(b, o).(len := MinLen(b[o + 6]));
    var r2 := Rec(ino, Len(b, o) - MinLen(b[o + 6]), ft, name);
    TwoValid(r1, r2);
    SharedTail(b, o, name, ino, ft);
    LiveFollowed(RecAt(b, o), r1, r2, name, ino);
    TypedTwo(r1, r2, name, ino, ft);
    Gained(b, Shared(b, o, name, ino, ft), o, Two(r1, r2), name, ino, ft);
  }

  lemma {:induction false} RemoveLoses(b: Block, o: nat)
    requires Partition(b, 0) && Reach(b, 0, o) && o < BS && Fits(b, o) && RecAt(b, o).inode != 0
    ensures Partition(Removed(b, o), 0)
    ensures OneMore(Parse(Removed(b, o), 0), Parse(b, 0), RecAt(b, o).name, RecAt(b, o).inode)
    ensures AllValid(Parse(b, 0)) ==> AllValid(Parse(Removed(b, o), 0))
  {
    var r := RecAt(b, o);
    RemovedHere(b, o);
    FreeTaken(r.(inode := 0), r, r.(inode := 0), r.name, r.inode);
    assert AllValid(One(r.(inode := 0)));
    EditEffect(b, Removed(b, o), o, One(r.(inode := 0)), r.name, r.inode);
  }

  // ---------------------------------------------------------------- blocks written from scratch

  /** One more record behind those written so far. */
  lemma {:induction false} Chained(b: Block, m: nat, r: Rec)
    requires Reach(b, 0, m) && 8 + |r.name| <= r.len && m + r.len <= BS
    requires |r.name| <= 255 && r.inode < 0x1_0000_0000
    ensures Reach(Written(b, m, r), 0, m + r.len)
    ensures Between(Written(b, m, r), 0, m + r.len) == Append(Between(b, 0, m), One(r))
  {
    WrittenAt(b, m, r);
    Behind(b, Written(b, m, r), m, r);
  }

  lemma {:induction false} Behind(b: Block, b': Block, m: nat, r: Rec)
    requires Reach(b, 0, m) && m <= BS && forall x | 0 <= x < m :: b'[x] == b[x]
    requires Fits(b', m) && RecAt(b', m) == r
    ensures Reach(b', 0, m + r.len) && Between(b', 0, m + r.len) == Append(Between(b, 0, m), One(r))
  {
    PrefixKept(b, b', 0, m);
    ReachOn(b', 0, m);
  }

  lemma {:induction false} WholeBlock(b: Block)
    requires Reach(b, 0, BS)
    ensures Partition(b, 0) && Parse(b, 0) == Between(b, 0, BS)
  {
    Joined(b, 0, BS);
    AppendNil(Between(b, 0, BS));
  }

  /** A block that is a single record. */
  lemma {:induction false} SingleRecord(b: Block, r: Rec)
    requires r.len == BS && 0 < r.inode <= MAX_INODE && NameOk(r.name)
    ensures DirBlock(Written(b, 0, r)) && Parse(Written(b, 0, r), 0) == One(r)
  {
    Chained(b, 0, r);
    WholeBlock(Written(b, 0, r));
    assert AllValid(One(r));
  }

  /** Writes a record behind those that are there. */
  method NextRecord(b: Block, m: nat, r: Rec) returns (b': Block)
    requires Reach(b, 0, m) && 8 + |r.name| <= r.len && m + r.len <= BS
    requires |r.name| <= 255 && r.inode < 0x1_0000_0000
    ensures Reach(b', 0, m + r.len) && Between(b', 0, m + r.len) == Append(Between(b, 0, m), One(r))
  {
    Chained(b, m, r);
    b' := Written(b, m, r);
  }

  lemma DotsValid(self: nat, up: nat, l1: nat, l2: nat)
    requires 0 < self <= MAX_INODE && 0 < up <= MAX_INODE && 12 <= l1 && 12 <= l2
    ensures AllValid(Two(Rec(self, l1, 2, [46]), Rec(up, l2, 2, [46, 46])))
  {
    TwoValid(Rec(self, l1, 2, [46]), Rec(up, l2, 2, [46, 46]));
  }

  /** The block of a new directory: `.` and `..`. */
  method DotsBlock(self: nat, up: nat) returns (b: Block)
    requires 0 < self <= MAX_INODE && 0 < up <= MAX_INODE
    ensures DirBlock(b) && Parse(b, 0) == Two(Rec(self, 12, 2, [46]), Rec(up, 4084, 2, [46, 46]))
  {
    b := NextRecord(ZeroBlock, 0, Rec(self, 12, 2, [46]));
    b := NextRecord(b, 12, Rec(up, 4084, 2, [46, 46]));
    WholeBlock(b);
    DotsValid(self, up, 12, 4084);
  }

  const LOST_FOUND: Name := [108, 111, 115, 116, 43, 102, 111, 117, 110, 100]

  /** The root directory of a new volume: `.`, `..` and `lost+found`. */
  /** What `lost+found` holds on a new volume. */
  function NewLost(): Recs { Two(Rec(11, 12, 2, [46]), Rec(2, 4084, 2, [46, 46])) }

  function NewRoot(): Recs { Append(Two(Rec(2, 12, 2, [46]), Rec(2, 12, 2, [46, 46])), One(Rec(11, 4072, 2, LOST_FOUND))) }

  method RootBlock() returns (b: Block)
    ensures DirBlock(b) && Parse(b, 0) == NewRoot()
  {
    b := NextRecord(ZeroBlock, 0, Rec(2, 12, 2, [46]));
    b := NextRecord(b, 12, Rec(2, 12, 2, [46, 46]));
    b := NextRecord(b, 24, Rec(11, 4072, 2, LOST_FOUND));
    WholeBlock(b);
    DotsValid(2, 2, 12, 12);
    ValidAppend(Two(Rec(2, 12, 2, [46]), Rec(2, 12, 2, [46, 46])), One(Rec(11, 4072, 2, LOST_FOUND)), 0);
  }

  // ---------------------------------------------------------------- scanning a block

  /** At a record start of a directory block there is a valid record, and the scan moves on by its length. */
  lemma {:induction false} FindStep(b: Block, o: nat, name: Name)
    requires DirBlock(b) && Reach(b, 0, o) && o < BS && Find(Between(b, 0, o), name).None?
    ensures Fits(b, o) && Reach(b, 0, o + Len(b, o))
    ensures if Matches(RecAt(b, o), name) then Find(Parse(b, 0), name) == Some(RecAt(b, o).inode)
            else Find(Between(b, 0, o + Len(b, o)), name).None?
  {
    var p, s := Divided(b, o);
    ReachOn(b, 0, o);
    FindAppend(p, One(RecAt(b, o)), name);
    FindAppend(p, Cons(RecAt(b, o), s), name);
  }

  lemma {:induction false} RoomStep(b: Block, o: nat, need: nat)
    requires DirBlock(b) && Reach(b, 0, o) && o < BS && !AnyRoom(Between(b, 0, o), need)
    ensures Fits(b, o) && RecValid(RecAt(b, o)) && Reach(b, 0, o + Len(b, o))
    ensures if HasRoom(RecAt(b, o), need) then AnyRoom(Parse(b, 0), need)
            else !AnyRoom(Between(b, 0, o + Len(b, o)), need)
  {
    var p, s := Divided(b, o);
    ReachOn(b, 0, o);
    ValidAppend(p, One(RecAt(b, o)), need);
    ValidAppend(p, Cons(RecAt(b, o), s), need);
  }

  /** A scan that has reached the end of the block has seen every record. */
  lemma {:induction false} ScanEnd(b: Block, o: nat)
    requires DirBlock(b) && Reach(b, 0, o) && o + 8 > BS
    ensures o == BS && Parse(b, 0) == Between(b, 0, o)
  {
    AtRec(b, 0, o);
    Joined(b, 0, o);
    AppendNil(Between(b, 0, o));
  }

  lemma AppendNil(a: Recs)
    ensures Append(a, Nil) == a
  {
  }

  // ---------------------------------------------------------------- looking a name up in any block

  /** What looking a name up comes to: nothing, an inode number, or a comparison with bytes behind the block. */
  datatype Look = Missing | Hit(inode: nat) | Outside

  function AsLook(r: Option<nat>): Look { if r.None? then Missing else Hit(r.value) }

  /** The bytes before the first NUL. */
  function UpToNul(s: seq<byte>): seq<byte> {
    if s == [] || s[0] == 0 then [] else [s[0]] + UpToNul(s[1..])
  }

  lemma {:induction false} NoNul(s: seq<byte>)
    requires forall i | 0 <= i < |s| :: s[i] != 0
    ensures UpToNul(s) == s
  {
    if s != [] {
      NoNul(s[1..]);
    }
  }

  /** The name of the record at `o`, compared as a NUL-terminated string; it may run past the end of the block. */
  function Compared(b: Block, o: nat, name: Name): Look
    requires o + 8 <= BS
  {
    var n := b[o + 6];
    var seen := Text(b, o + 8, Min(n, BS - o - 8));
    if Get32(b, o) == 0 || n == 0 then Missing
    else if |seen| < n && UpToNul(seen) == seen then (if seen <= name then Outside else Missing)
    else if UpToNul(seen) == name then Hit(Get32(b, o))
    else Missing
  }

  /** The lookup loop over the bytes of a block, whatever they are: a record length of 0 ends it. */
  function Scan(b: Block, o: nat, name: Name): Look
    decreases BS - o
  {
    if o + 8 > BS || Len(b, o) == 0 then Missing
    else if Compared(b, o, name) != Missing then Compared(b, o, name)
    else Scan(b, o + Len(b, o), name)
  }

  method LookupInBlock(b: Block, name: Name) returns (r: Look)
    ensures r == Scan(b, 0, name)
  {
    var off := 0;
    while off + 8 <= BS
      invariant Scan(b, off, name) == Scan(b, 0, name)
      decreases BS - off
    {
      if Len(b, off) == 0 { return Missing; }
      r := Compared(b, off, name);
      if r != Missing { return; }
      off := off + Len(b, off);
    }
    r := Missing;
  }

  lemma ComparedIs(b: Block, o: nat, name: Name)
    requires Fits(b, o) && RecValid(RecAt(b, o))
    ensures Compared(b, o, name) == if Matches(RecAt(b, o), name) then Hit(RecAt(b, o).inode) else Missing
  {
    if RecAt(b, o).inode != 0 {
      NoNul(RecAt(b, o).name);
    }
  }

  /** In a directory block the loop finds the first live record with the name. */
  lemma {:induction false} ScanIsFind(b: Block, o: nat, name: Name)
    requires Partition(b, o) && AllValid(Parse(b, o))
    ensures Scan(b, o, name) == AsLook(Find(Parse(b, o), name))
    decreases BS - o
  {
    if o < BS {
      ScanIsFind(b, o + Len(b, o), name);
      ScanStep(b, o, name);
    }
  }

  lemma ScanStep(b: Block, o: nat, name: Name)
    requires o < BS && Partition(b, o) && AllValid(Parse(b, o))
    requires Scan(b, o + Len(b, o), name) == AsLook(Find(Parse(b, o + Len(b, o)), name))
    ensures Scan(b, o, name) == AsLook(Find(Parse(b, o), name))
  {
    var r := RecAt(b, o);
    assert Parse(b, o) == Cons(r, Parse(b, o + Len(b, o)));
    ComparedIs(b, o, name);
  }

  /** Whether a free record is long enough, or a live one has enough behind its name. */
  method RoomIn(de: Rec, need: nat) returns (ok: bool)
    requires need > 0
    ensures ok <==> HasRoom(de, need)
  {
    if de.inode == 0 {
      ok := de.len >= need;
    } else {
      var used := MinLen(|de.name|);
      ok := de.len > used && de.len - used >= need;
    }
  }

  /** The first record with room for `need` more bytes. */
  method FindRoom(b: Block, need: nat) returns (found: bool, off: nat)
    requires DirBlock(b) && need > 0
    ensures found <==> AnyRoom(Parse(b, 0), need)
    ensures found ==> off < BS && Reach(b, 0, off) && Fits(b, off) && RecValid(RecAt(b, off)) && HasRoom(RecAt(b, off), need)
    ensures found ==> !AnyRoom(Between(b, 0, off), need)
  {
    off := 0;
    while off + 8 <= BS
      invariant Reach(b, 0, off) && !AnyRoom(Between(b, 0, off), need)
      decreases BS - off
    {
      RoomStep(b, off, need);
      var de := RecAt(b, off);
      found := RoomIn(de, need);
      if found { return; }
      off := off + de.len;
    }
    ScanEnd(b, off);
    found := false;
  }

  /** Puts the entry into the first record of the block that has room for it. */
  method AddToBlock(b: Block, name: Name, ino: nat, ft: byte) returns (done: bool, b': Block)
    requires DirBlock(b) && NameOk(name) && 0 < ino <= MAX_INODE
    ensures DirBlock(b')
    ensures done <==> AnyRoom(Parse(b, 0), MinLen(|name|))
    ensures done ==> OneMore(Parse(b, 0), Parse(b', 0), name, ino) && Typed(Parse(b', 0), name, ino, ft)
    ensures !done ==> b' == b
  {
    var off;
    done, off := FindRoom(b, MinLen(|name|));
    b' := b;
    if done {
      if RecAt(b, off).inode == 0 {
        ReuseGains(b, off, name, ino, ft);
        b' := Reused(b, off, name, ino, ft);
      } else {
        ShareGains(b, off, name, ino, ft);
        b' := Shared(b, off, name, ino, ft);
      }
    }
  }

  /** The record at `off` becomes a free one. */
  method MarkFree(b: Block, off: nat) returns (b': Block)
    requires DirBlock(b) && Reach(b, 0, off) && off < BS && Fits(b, off) && RecAt(b, off).inode != 0
    ensures DirBlock(b') && OneMore(Parse(b', 0), Parse(b, 0), RecAt(b, off).name, RecAt(b, off).inode)
  {
    RemoveLoses(b, off);
    b' := Removed(b, off);
  }

  /** Marks the record of this name free. */
  method RemoveFromBlock(b: Block, name: Name) returns (found: bool, b': Block)
    requires DirBlock(b)
    ensures DirBlock(b')
    ensures found <==> Find(Parse(b, 0), name).Some?
    ensures found ==> OneMore(Parse(b', 0), Parse(b, 0), name, Find(Parse(b, 0), name).value)
    ensures !found ==> b' == b
  {
    var off := 0;
    while off + 8 <= BS
      invariant Reach(b, 0, off) && Find(Between(b, 0, off), name) == None
      decreases BS - off
    {
      FindStep(b, off, name);
      var de := RecAt(b, off);
      if Matches(de, name) {
        b' := MarkFree(b, off);
        return true, b';
      }
      off := off + de.len;
    }
    ScanEnd(b, off);
    return false, b;
  }

  lemma DotsStep(p: Recs, r: Rec, s: Recs)
    ensures OnlyDots(Append(p, Cons(r, Nil))) <==> OnlyDots(p) && !Occupies(r)
    ensures OnlyDots(Append(p, Cons(r, s))) ==> !Occupies(r)
  {
    OnlyDotsAppend(p, Cons(r, Nil));
    OnlyDotsAppend(p, Cons(r, s));
  }

  /** Whether the block has live records other than `.` and `..`. */
  method EmptyInBlock(b: Block) returns (empty: bool)
    requires DirBlock(b)
    ensures empty <==> OnlyDots(Parse(b, 0))
  {
    var off := 0;
    while off + 8 <= BS
      invariant Reach(b, 0, off)
      invariant OnlyDots(Between(b, 0, off))
      decreases BS - off
    {
      ghost var p, s := Divided(b, off);
      ReachOn(b, 0, off);
      var de := RecAt(b, off);
      DotsStep(p, de, s);
      if Occupies(de) { return false; }
      off := off + de.len;
    }
    ScanEnd(b, off);
    empty := true;
  }
}
