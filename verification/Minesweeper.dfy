/** The Minesweeper game: placing mines, counting, revealing, chording. */
module Minesweeper {
  import opened Minefield

  datatype State = Hidden | Revealed | Flagged

  datatype Cell = Cell(mine: bool, adjacent: nat, state: State)

  class Game {
    const w: nat
    const h: nat
    const board: array2<Cell>    // row, column
    var over: bool
    var win: bool

    ghost var mines: set<Pos>
    ghost var adj: map<Pos, nat>
    ghost var hidden: set<Pos>
    ghost var flagged: set<Pos>

    predicate OnBoard(p: Pos) { 0 <= p.0 < w && 0 <= p.1 < h }

    ghost predicate CellIs(p: Pos)
      requires OnBoard(p) && board.Length0 == h && board.Length1 == w
      reads this`mines, this`adj, this`hidden, this`flagged, board
    {
      var c := board[p.1, p.0];
      && (c.mine <==> p in mines) && p in adj && c.adjacent == adj[p]
      && (c.state == Hidden <==> p in hidden) && (c.state == Flagged <==> p in flagged)
    }

    /** The sets are what the board says. */
    ghost predicate Valid()
      reads this`mines, this`adj, this`hidden, this`flagged, board
    {
      && board.Length0 == h && board.Length1 == w
      && (forall p {:trigger CellIs(p)} | OnBoard(p) :: CellIs(p))
      && (forall p | p in mines || p in hidden || p in flagged || p in adj :: OnBoard(p))
    }

    /** Safe cells with no mine around, by the numbers on the board. */
    ghost function Open(): set<Pos>
      reads this`mines, this`adj
    {
      set p | p in adj && adj[p] == 0 && p !in mines
    }

    /** The numbers on the board are the numbers of mines around. */
    ghost predicate Counted()
      reads this`mines, this`adj
    {
      forall p {:trigger NumberIs(mines, adj, p)} | p in adj :: NumberIs(mines, adj, p)
    }

    /** An empty board of the given size. */
    constructor (width: nat, height: nat)
      ensures Valid() && w == width && h == height && fresh(board) && !over && !win
      ensures mines == {} && flagged == {} && forall p :: p in hidden <==> OnBoard(p)
    {
      w, h, over, win := width, height, false, false;
      board := new Cell[height, width]((_, _) => Cell(false, 0, Hidden));
      ghost var cells: set<Pos> := set x: int, y: int | 0 <= x < width && 0 <= y < height :: (x, y);
      hidden, mines, flagged := cells, {}, {};
      adj := map p | p in cells :: 0;
      new;
      forall p | OnBoard(p)
        ensures CellIs(p) && p in hidden
      {
        assert (p.0, p.1) in hidden;
      }
    }

    // ------------------------------------------------------------ revealing

    method SetRevealed(p: Pos)
      requires Valid() && OnBoard(p) && p in hidden
      modifies this`hidden, board
      ensures Valid() && hidden == old(hidden) - {p}
    {
      board[p.1, p.0] := board[p.1, p.0].(state := Revealed);
      hidden := hidden - {p};
      forall q | OnBoard(q)
        ensures CellIs(q)
      {
        assert old(CellIs(q));
      }
    }

    /** Reveals a cell and, from a cell with no mines around, its neighbours in turn. */
    method Reveal(x: int, y: int)
      requires Valid()
      modifies this`hidden, this`over, this`win, board
      decreases hidden, 1
      ensures Valid() && hidden <= old(hidden)
      ensures forall p | p in old(hidden) :: p !in hidden <==> Region(old(hidden), Open(), (x, y), p)
      ensures over <==> old(over) || exists p :: p in old(hidden) && p !in hidden && p in mines
      ensures win <==> old(win) && !exists p :: p in old(hidden) && p !in hidden && p in mines
    {
      ghost var before, open := hidden, Open();
      if x < 0 || y < 0 || x >= w || y >= h { NoRegion(before, open, (x, y)); return; }
      assert CellIs((x, y));
      var c := board[y, x];
      if c.state == Revealed || c.state == Flagged { NoRegion(before, open, (x, y)); return; }
      SetRevealed((x, y));
      if c.mine {
        over, win := true, false;
        JustStart(before, hidden, open, (x, y));
        return;
      }
      if c.adjacent == 0 {
        Spread(x, y, before);
      } else {
        JustStart(before, hidden, open, (x, y));
      }
    }

    /** Reveals the neighbours of a revealed cell with no mines around; `before` is what was hidden before that cell. */
    method Spread(x: int, y: int, ghost before: set<Pos>)
      requires Valid() && (x, y) in before && (x, y) in Open() && hidden == before - {(x, y)}
      modifies this`hidden, this`over, this`win, board
      decreases hidden, 2
      ensures Valid() && hidden <= old(hidden)
      ensures forall p | p in before :: p !in hidden <==> Region(before, Open(), (x, y), p)
      ensures over <==> old(over) || exists p :: p in old(hidden) && p !in hidden && p in mines
      ensures win <==> old(win) && !exists p :: p in old(hidden) && p !in hidden && p in mines
    {
      var k := 0;
      ghost var open := Open();
      while k < 9
        invariant 0 <= k <= 9 && Valid() && hidden <= old(hidden)
        invariant Closed(old(hidden), hidden, open)
        invariant forall p | p in old(hidden) && p !in hidden :: Region(before, open, (x, y), p)
        invariant forall j: nat | j < k && j != 4 :: Around((x, y), j) !in hidden
        invariant over <==> old(over) || exists p :: p in old(hidden) && p !in hidden && p in mines
        invariant win <==> old(win) && !exists p :: p in old(hidden) && p !in hidden && p in mines
      {
        if k != 4 {
          ghost var was := hidden;
          var n := Around((x, y), k);
          Reveal(n.0, n.1);
          Opened(before, old(hidden), was, hidden, open, (x, y), n);
        }
        k := k + 1;
      }
      Completed(before, old(hidden), hidden, open, (x, y));
    }

    // ------------------------------------------------------------ numbers and mines

    method MinesAround(x: int, y: int) returns (c: nat)
      requires Valid()
      ensures c == CountAround(mines, (x, y), 9)
    {
      c := 0;
      var k := 0;
      while k < 9
        invariant 0 <= k <= 9 && c == CountAround(mines, (x, y), k)
      {
        var n := Around((x, y), k);
        if k != 4 && OnBoard(n) {
          assert CellIs(n);
          if board[n.1, n.0].mine { c := c + 1; }
        }
        k := k + 1;
      }
    }

    method SetAdjacent(p: Pos, c: nat)
      requires Valid() && OnBoard(p)
      modifies this`adj, board
      ensures Valid() && adj == old(adj)[p := c]
    {
      board[p.1, p.0] := board[p.1, p.0].(adjacent := c);
      adj := adj[p := c];
      forall q | OnBoard(q)
        ensures CellIs(q)
      {
        assert old(CellIs(q));
      }
    }

    /** Cells before (x, y), row by row. */
    ghost predicate Passed(p: Pos, x: int, y: int) { p.1 < y || (p.1 == y && p.0 < x) }

    /** Writes the number of mines around on every safe cell. */
    method ComputeAdj()
      requires Valid()
      modifies this`adj, board
      ensures Valid() && Counted()
    {
      var y := 0;
      while y < h
        invariant 0 <= y <= h && Valid()
        invariant forall p {:trigger NumberIs(mines, adj, p)} | OnBoard(p) && Passed(p, 0, y) :: NumberIs(mines, adj, p)
      {
        var x := 0;
        while x < w
          invariant 0 <= x <= w && Valid()
          invariant forall p {:trigger NumberIs(mines, adj, p)} | OnBoard(p) && Passed(p, x, y) :: NumberIs(mines, adj, p)
        {
          ghost var was := adj;
          assert CellIs((x, y));
          var c := 0;
          if !board[y, x].mine {
            c := MinesAround(x, y);
          }
          SetAdjacent((x, y), c);
          forall p | OnBoard(p) && Passed(p, x + 1, y)
            ensures NumberIs(mines, adj, p)
          {
            assert p == (x, y) || NumberIs(mines, was, p);
          }
          x := x + 1;
        }
        y := y + 1;
      }
    }

    method SetMine(p: Pos)
      requires Valid() && OnBoard(p)
      modifies this`mines, board
      ensures Valid() && mines == old(mines) + {p}
    {
      board[p.1, p.0] := board[p.1, p.0].(mine := true);
      mines := mines + {p};
      forall q | OnBoard(q)
        ensures CellIs(q)
      {
        assert old(CellIs(q));
      }
    }

    /** Lays `count` mines where the draws say, not on the safe cell and not twice on one; then counts. */
    method PlaceMines(safe: Pos, count: nat, draws: seq<Pos>) returns (finished: bool, k: nat)
      requires Valid() && forall k | 0 <= k < |draws| :: OnBoard(draws[k])
      modifies this`mines, this`adj, board
      ensures Valid() && old(mines) <= mines && (safe in mines ==> safe in old(mines))
      ensures k <= |draws| && mines == Laid(old(mines), safe, draws, k)
      ensures finished ==> |mines| == |old(mines)| + count && Counted()
      ensures !finished ==> k == |draws| && |mines| < |old(mines)| + count
    {
      var placed := 0;
      k := 0;
      while placed < count
        invariant Valid() && old(mines) <= mines && (safe in mines ==> safe in old(mines))
        invariant 0 <= placed <= count && |mines| == |old(mines)| + placed && 0 <= k <= |draws|
        invariant mines == Laid(old(mines), safe, draws, k)
        decreases |draws| - k
      {
        if k == |draws| { finished := false; return; }
        var p := draws[k];
        k := k + 1;
        assert CellIs(p);
        if p != safe && !board[p.1, p.0].mine {
          SetMine(p);
          placed := placed + 1;
        }
      }
      ComputeAdj();
      finished := true;
    }

    // ------------------------------------------------------------ winning and chording

    /** Won when every safe cell is revealed. */
    method CheckWin() returns (won: bool)
      requires Valid()
      ensures won <==> forall p | OnBoard(p) && p !in mines :: p !in hidden && p !in flagged
    {
      var y := 0;
      while y < h
        invariant 0 <= y <= h
        invariant forall p | OnBoard(p) && Passed(p, 0, y) && p !in mines :: p !in hidden && p !in flagged
      {
        var x := 0;
        while x < w
          invariant 0 <= x <= w
          invariant forall p | OnBoard(p) && Passed(p, x, y) && p !in mines :: p !in hidden && p !in flagged
        {
          assert CellIs((x, y));
          var c := board[y, x];
          if !c.mine && c.state != Revealed { return false; }
          x := x + 1;
        }
        y := y + 1;
      }
      won := true;
    }

    method FlagsAround(x: int, y: int) returns (c: nat)
      requires Valid()
      ensures c == CountAround(flagged, (x, y), 9)
    {
      c := 0;
      var k := 0;
      while k < 9
        invariant 0 <= k <= 9 && c == CountAround(flagged, (x, y), k)
      {
        var n := Around((x, y), k);
        if k != 4 && OnBoard(n) {
          assert CellIs(n);
          if board[n.1, n.0].state == Flagged { c := c + 1; }
        }
        k := k + 1;
      }
    }

    /** A revealed number with as many flags around. */
    ghost predicate Satisfied(p: Pos)
      reads this`adj, this`hidden, this`flagged
    {
      p !in hidden && p !in flagged && p in adj && adj[p] != 0 && CountAround(flagged, p, 9) == adj[p]
    }

    /** Reveals what is not flagged around a satisfied number. */
    method ChordReveal(x: int, y: int)
      requires Valid() && OnBoard((x, y))
      modifies this`hidden, this`over, this`win, board
      ensures Valid() && hidden <= old(hidden)
      ensures !old(Satisfied((x, y))) ==> hidden == old(hidden) && over == old(over)
      ensures old(Satisfied((x, y))) ==>
                forall p | p in old(hidden) :: p !in hidden <==> RegionAround(old(hidden), Open(), (x, y), p)
      ensures over <==> old(over) || exists p :: p in old(hidden) && p !in hidden && p in mines
      ensures win <==> old(win) && !exists p :: p in old(hidden) && p !in hidden && p in mines
    {
      assert CellIs((x, y));
      var c := board[y, x];
      if c.state != Revealed { return; }
      if c.adjacent == 0 { return; }
      var flags := FlagsAround(x, y);
      if flags != c.adjacent { return; }
      ghost var open := Open();
      var k := 0;
      while k < 9
        invariant 0 <= k <= 9 && Valid() && hidden <= old(hidden)
        invariant Closed(old(hidden), hidden, open)
        invariant forall p | p in old(hidden) && p !in hidden :: RegionAround(old(hidden), open, (x, y), p)
        invariant forall j: nat | j < k && j != 4 :: Around((x, y), j) !in hidden
        invariant over <==> old(over) || exists p :: p in old(hidden) && p !in hidden && p in mines
        invariant win <==> old(win) && !exists p :: p in old(hidden) && p !in hidden && p in mines
      {
        var n := Around((x, y), k);
        if k != 4 && OnBoard(n) {
          assert CellIs(n);
          if board[n.1, n.0].state != Flagged {
            ghost var was := hidden;
            Reveal(n.0, n.1);
            ChordStep(old(hidden), was, hidden, open, (x, y), n);
          }
        }
        k := k + 1;
      }
      ChordDone(old(hidden), hidden, open, (x, y));
    }

    // ------------------------------------------------------------ safety

    /** Revealing a safe cell of a counted board reveals no mine. */
    method RevealSafely(x: int, y: int)
      requires Valid() && Counted() && (x, y) !in mines
      modifies this`hidden, this`over, this`win, board
      ensures Valid() && over == old(over) && forall p | p in old(hidden) && p !in hidden :: p !in mines
    {
      ghost var before := hidden;
      OpenIsClear();
      Reveal(x, y);
      forall p | p in before && p !in hidden
        ensures p !in mines
      {
        var k: nat :| Reach(before, Open(), (x, y), p, k);
        ReachSafe(before, Open(), mines, (x, y), p, k);
      }
    }

    lemma OpenIsClear()
      requires Counted()
      ensures forall q | q in Open() :: CountAround(mines, q, 9) == 0
    {
      forall q | q in Open()
        ensures CountAround(mines, q, 9) == 0
      {
        assert NumberIs(mines, adj, q);
      }
    }

    /** Chording a safe number of a counted board reveals no mine, if the flags around it are on mines. */
    method ChordSafely(x: int, y: int)
      requires Valid() && Counted() && OnBoard((x, y)) && (x, y) !in mines
      requires forall n | Near((x, y), n) && n in flagged :: n in mines
      modifies this`hidden, this`over, this`win, board
      ensures Valid() && over == old(over) && forall p | p in old(hidden) && p !in hidden :: p !in mines
    {
      ghost var before, sat := hidden, Satisfied((x, y));
      assert CellIs((x, y)) && NumberIs(mines, adj, (x, y));
      ghost var fl := flagged;
      OpenIsClear();
      forall p | OnBoard(p) && p in hidden
        ensures p !in flagged
      {
        assert CellIs(p);
      }
      ChordReveal(x, y);
      if sat {
        forall p | p in before && p !in hidden
          ensures p !in mines
        {
          ChordSafe(before, Open(), mines, fl, (x, y), p);
        }
      }
    }
  }

  /** The mines after `k` draws. */
  function Laid(mines: set<Pos>, safe: Pos, draws: seq<Pos>, k: nat): set<Pos>
    requires k <= |draws|
  {
    if k == 0 then mines else
    var before := Laid(mines, safe, draws, k - 1);
    if draws[k - 1] == safe then before else before + {draws[k - 1]}
  }

  /** The number on a cell: mines around it, 0 on a mine. */
  ghost predicate NumberIs(mines: set<Pos>, adj: map<Pos, nat>, p: Pos) {
    p in adj && adj[p] == if p in mines then 0 else CountAround(mines, p, 9)
  }

  /** Nothing is reached from a cell that is not hidden. */
  lemma NoRegion(s: set<Pos>, open: set<Pos>, start: Pos)
    requires start !in s
    ensures forall p :: !Region(s, open, start, p)
  {
    forall p, k: nat | Reach(s, open, start, p, k)
      ensures false
    {
      ReachInside(s, open, start, p, k);
    }
  }

  /** From a cell that is not open, only that cell is reached. */
  lemma JustStart(s: set<Pos>, left: set<Pos>, open: set<Pos>, start: Pos)
    requires start in s && start !in open && left == s - {start}
    ensures forall p | p in s :: p !in left <==> Region(s, open, start, p)
  {
    assert Reach(s, open, start, start, 0);
    forall p, k: nat | Reach(s, open, start, p, k)
      ensures p == start
    {
      OnlyStart(s, open, start, p, k);
    }
  }

  lemma {:induction false} OnlyStart(s: set<Pos>, open: set<Pos>, start: Pos, p: Pos, k: nat)
    requires start !in open && Reach(s, open, start, p, k)
    ensures p == start
    decreases k
  {
    if k > 0 {
      if Reach(s, open, start, p, k - 1) {
        OnlyStart(s, open, start, p, k - 1);
      } else {
        var q :| Near(q, p) && q in open && Reach(s, open, start, q, k - 1);
        OnlyStart(s, open, start, q, k - 1);
      }
    }
  }

  /** After one more neighbour: still closed, and nothing out of reach. */
  lemma Opened(before: set<Pos>, s: set<Pos>, was: set<Pos>, left: set<Pos>, open: set<Pos>, start: Pos, n: Pos)
    requires start in before && start in open && s == before - {start} && left <= was <= s && Near(start, n)
    requires Closed(s, was, open) && forall p | p in s && p !in was :: Region(before, open, start, p)
    requires forall p | p in was :: p !in left <==> Region(was, open, n, p)
    ensures Closed(s, left, open) && n !in left
    ensures forall p | p in s && p !in left :: Region(before, open, start, p)
  {
    forall p | p in s && p !in left
      ensures Region(before, open, start, p)
    {
      if p in was {
        var k: nat :| Reach(was, open, n, p, k);
        ReachFurther(was, before, open, start, n, p, k);
      }
    }
    if n in was { assert Reach(was, open, n, n, 0); }
    forall q, p | q in s && q !in left && q in open && Near(q, p)
      ensures p !in left
    {
      if q in was && p in was {
        var k: nat :| Reach(was, open, n, q, k);
        assert Reach(was, open, n, p, k + 1);
      }
    }
  }

  /** After the last neighbour: everything in reach is revealed. */
  lemma Completed(before: set<Pos>, s: set<Pos>, left: set<Pos>, open: set<Pos>, start: Pos)
    requires start in before && start in open && s == before - {start} && left <= s && Closed(s, left, open)
    requires forall p | p in s && p !in left :: Region(before, open, start, p)
    requires forall j: nat | j < 9 && j != 4 :: Around(start, j) !in left
    ensures forall p | p in before :: p !in left <==> Region(before, open, start, p)
  {
    forall q, p | q in before && q !in left && q in open && Near(q, p)
      ensures p !in left
    {
      if q == start { assert Around(start, StepTo(start, p)) == p; }
    }
    assert Reach(before, open, start, start, 0);
    forall p, k: nat | Reach(before, open, start, p, k)
      ensures p !in left
    {
      ReachRevealed(before, left, open, start, p, k);
    }
  }

  /** Opened by revealing the hidden cells around `c`. */
  ghost predicate RegionAround(s: set<Pos>, open: set<Pos>, c: Pos, p: Pos) {
    exists n {:trigger Near(c, n)} :: Near(c, n) && Region(s, open, n, p)
  }

  lemma {:induction false} ReachMore(s': set<Pos>, s: set<Pos>, open: set<Pos>, n: Pos, p: Pos, k: nat)
    requires s' <= s && Reach(s', open, n, p, k)
    ensures Reach(s, open, n, p, k)
    decreases k
  {
    if k > 0 {
      if Reach(s', open, n, p, k - 1) {
        ReachMore(s', s, open, n, p, k - 1);
      } else {
        var q :| Near(q, p) && q in open && Reach(s', open, n, q, k - 1);
        ReachMore(s', s, open, n, q, k - 1);
      }
    }
  }

  lemma ChordStep(s: set<Pos>, was: set<Pos>, left: set<Pos>, open: set<Pos>, c: Pos, n: Pos)
    requires left <= was <= s && Near(c, n) && Closed(s, was, open)
    requires forall p | p in s && p !in was :: RegionAround(s, open, c, p)
    requires forall p | p in was :: p !in left <==> Region(was, open, n, p)
    ensures Closed(s, left, open) && n !in left
    ensures forall p | p in s && p !in left :: RegionAround(s, open, c, p)
  {
    forall p | p in s && p !in left
      ensures RegionAround(s, open, c, p)
    {
      if p in was {
        var k: nat :| Reach(was, open, n, p, k);
        ReachMore(was, s, open, n, p, k);
      }
    }
    if n in was { assert Reach(was, open, n, n, 0); }
    forall q, p | q in s && q !in left && q in open && Near(q, p)
      ensures p !in left
    {
      if q in was && p in was {
        var k: nat :| Reach(was, open, n, q, k);
        assert Reach(was, open, n, p, k + 1);
      }
    }
  }

  lemma ChordDone(s: set<Pos>, left: set<Pos>, open: set<Pos>, c: Pos)
    requires left <= s && Closed(s, left, open)
    requires forall p | p in s && p !in left :: RegionAround(s, open, c, p)
    requires forall j: nat | j < 9 && j != 4 :: Around(c, j) !in left
    ensures forall p | p in s :: p !in left <==> RegionAround(s, open, c, p)
  {
    forall p | RegionAround(s, open, c, p)
      ensures p !in left
    {
      var n :| Near(c, n) && Region(s, open, n, p);
      var k: nat :| Reach(s, open, n, p, k);
      assert Around(c, StepTo(c, n)) == n;
      ReachRevealed(s, left, open, n, p, k);
    }
  }

  lemma ChordSafe(s: set<Pos>, open: set<Pos>, mines: set<Pos>, flagged: set<Pos>, c: Pos, p: Pos)
    requires RegionAround(s, open, c, p) && s !! flagged
    requires forall q | q in open :: CountAround(mines, q, 9) == 0
    requires CountAround(flagged, c, 9) == CountAround(mines, c, 9) && forall n | Near(c, n) && n in flagged :: n in mines
    ensures p !in mines
  {
    var n :| Near(c, n) && Region(s, open, n, p);
    var k: nat :| Reach(s, open, n, p, k);
    ReachInside(s, open, n, p, k);
    forall j: nat | j < 9 && j != 4 && Around(c, j) in flagged
      ensures Around(c, j) in mines
    {
      AroundIsNear(c, j);
    }
    SameAround(flagged, mines, c, 9);
    assert Around(c, StepTo(c, n)) == n;
    ReachSafe(s, open, mines, n, p, k);
  }
}
