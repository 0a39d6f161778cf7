/** Sets of cells on a Minesweeper board: neighbours, counts, and the region a reveal opens. */
module Minefield {

  /** Column and row. */
  type Pos = (int, int)

  predicate Near(p: Pos, q: Pos) {
    p != q && -1 <= p.0 - q.0 <= 1 && -1 <= p.1 - q.1 <= 1
  }

  /** The cell at step `k` of the walk around `p`, row by row; step 4 is `p` itself. */
  function Around(p: Pos, k: nat): Pos
    requires k < 9
  {
    (p.0 + k % 3 - 1, p.1 + k / 3 - 1)
  }

  lemma AroundIsNear(p: Pos, k: nat)
    requires k < 9
    ensures k != 4 <==> Near(p, Around(p, k))
  {
  }

  /** Which step of the walk reaches a neighbour. */
  function StepTo(p: Pos, q: Pos): (k: nat)
    requires Near(p, q)
    ensures k < 9 && k != 4 && Around(p, k) == q
  {
    3 * (q.1 - p.1 + 1) + (q.0 - p.0 + 1)
  }

  /** How many of the first `k` cells around `p` are in `s`. */
  function CountAround(s: set<Pos>, p: Pos, k: nat): nat
    requires k <= 9
  {
    if k == 0 then 0 else CountAround(s, p, k - 1) + (if k - 1 != 4 && Around(p, k - 1) in s then 1 else 0)
  }

  /** The neighbours of `p` in `s` among the first `k` cells around it. */
  ghost function InFirst(s: set<Pos>, p: Pos, k: nat): set<Pos>
    requires k <= 9
  {
    set j: nat | j < k && j != 4 && Around(p, j) in s :: Around(p, j)
  }

  lemma {:induction false} CountIs(s: set<Pos>, p: Pos, k: nat)
    requires k <= 9
    ensures CountAround(s, p, k) == |InFirst(s, p, k)|
  {
    if k > 0 {
      CountIs(s, p, k - 1);
      var q := Around(p, k - 1);
      if k - 1 != 4 && q in s {
        assert InFirst(s, p, k) == InFirst(s, p, k - 1) + {q};
        assert q !in InFirst(s, p, k - 1);
      } else {
        assert InFirst(s, p, k) == InFirst(s, p, k - 1);
      }
    }
  }

  /** The count is the number of neighbours in the set. */
  lemma CountsNeighbours(s: set<Pos>, p: Pos)
    ensures CountAround(s, p, 9) == |set q | q in s && Near(p, q)|
  {
    CountIs(s, p, 9);
    forall q
      ensures q in InFirst(s, p, 9) <==> q in s && Near(p, q)
    {
      if q in s && Near(p, q) {
        var j := StepTo(p, q);
        assert Around(p, j) in s;
      }
    }
    assert InFirst(s, p, 9) == set q | q in s && Near(p, q);
  }

  lemma {:induction false} NoneCounted(s: set<Pos>, p: Pos, k: nat, j: nat)
    requires k <= 9 && CountAround(s, p, k) == 0 && j < k && j != 4
    ensures Around(p, j) !in s
  {
    if j < k - 1 {
      NoneCounted(s, p, k - 1, j);
    }
  }

  /** As many around `p` in `f` as in `m`, and those in `f` are in `m`: the same ones. */
  lemma {:induction false} SameAround(f: set<Pos>, m: set<Pos>, p: Pos, k: nat)
    requires k <= 9 && forall j: nat | j < k && j != 4 && Around(p, j) in f :: Around(p, j) in m
    ensures CountAround(f, p, k) <= CountAround(m, p, k)
    ensures CountAround(f, p, k) == CountAround(m, p, k) ==>
              forall j: nat | j < k && j != 4 && Around(p, j) in m :: Around(p, j) in f
  {
    if k > 0 {
      SameAround(f, m, p, k - 1);
    }
  }

  // ---------------------------------------------------------------- the region a reveal opens

  /** From `start`, over cells of `s`, through cells of `open`, in at most `k` moves. */
  ghost predicate Reach(s: set<Pos>, open: set<Pos>, start: Pos, p: Pos, k: nat)
    decreases k
  {
    if k == 0 then p == start && p in s
    else Reach(s, open, start, p, k - 1) ||
         (p in s && exists q {:trigger Near(q, p)} :: Near(q, p) && q in open && Reach(s, open, start, q, k - 1))
  }

  ghost predicate Region(s: set<Pos>, open: set<Pos>, start: Pos, p: Pos) {
    exists k: nat :: Reach(s, open, start, p, k)
  }

  lemma {:induction false} ReachInside(s: set<Pos>, open: set<Pos>, start: Pos, p: Pos, k: nat)
    requires Reach(s, open, start, p, k)
    ensures p in s && start in s
    decreases k
  {
    if k > 0 {
      if Reach(s, open, start, p, k - 1) {
        ReachInside(s, open, start, p, k - 1);
      } else {
        var q :| Near(q, p) && q in open && Reach(s, open, start, q, k - 1);
        ReachInside(s, open, start, q, k - 1);
      }
    }
  }

  /** A region opened from a neighbour, on fewer cells, is part of the region. */
  lemma {:induction false} ReachFurther(s': set<Pos>, s: set<Pos>, open: set<Pos>, start: Pos, n: Pos, p: Pos, k: nat)
    requires s' <= s && start in s && start in open && Near(start, n) && Reach(s', open, n, p, k)
    ensures Reach(s, open, start, p, k + 1)
    decreases k
  {
    if k == 0 {
      assert Reach(s, open, start, start, 0);
    } else if Reach(s', open, n, p, k - 1) {
      ReachFurther(s', s, open, start, n, p, k - 1);
    } else {
      var q :| Near(q, p) && q in open && Reach(s', open, n, q, k - 1);
      ReachFurther(s', s, open, start, n, q, k - 1);
    }
  }

  /** Nothing hidden is left next to an open cell that was revealed. */
  ghost predicate Closed(s: set<Pos>, left: set<Pos>, open: set<Pos>) {
    forall q, p {:trigger Near(q, p)} | q in s && q !in left && q in open && Near(q, p) :: p !in left
  }

  /** What was reached was revealed, if the start was and no open revealed cell has a hidden neighbour. */
  lemma {:induction false} ReachRevealed(s: set<Pos>, left: set<Pos>, open: set<Pos>, start: Pos, p: Pos, k: nat)
    requires Closed(s, left, open) && start !in left && Reach(s, open, start, p, k)
    ensures p !in left
    decreases k
  {
    if k > 0 {
      if Reach(s, open, start, p, k - 1) {
        ReachRevealed(s, left, open, start, p, k - 1);
      } else {
        var q :| Near(q, p) && q in open && Reach(s, open, start, q, k - 1);
        ReachRevealed(s, left, open, start, q, k - 1);
        ReachInside(s, open, start, q, k - 1);
      }
    }
  }

  /** With counts that are right, a region opened at a safe cell has no mine. */
  lemma {:induction false} ReachSafe(s: set<Pos>, open: set<Pos>, mines: set<Pos>, start: Pos, p: Pos, k: nat)
    requires Reach(s, open, start, p, k) && start !in mines
    requires forall q | q in open :: CountAround(mines, q, 9) == 0
    ensures p !in mines
    decreases k
  {
    if k > 0 {
      if Reach(s, open, start, p, k - 1) {
        ReachSafe(s, open, mines, start, p, k - 1);
      } else {
        var q :| Near(q, p) && q in open && Reach(s, open, start, q, k - 1);
        NoneCounted(mines, q, 9, StepTo(q, p));
      }
    }
  }
}
