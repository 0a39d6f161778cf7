/** The integer line loop of the clock: which pixels it plots between two points. */
module DrawLine {
  import opened Basics

  type Point = (int, int)

  function Abs(v: int): (r: int)
    ensures r >= 0
  {
    if v < 0 then -v else v
  }

  /** How far the point is from the ideal line, along the minor axis and scaled by the length of the major one. */
  function Off(p: Point, p0: Point, p1: Point): int {
    Abs(p.1 - p0.1) * Abs(p1.0 - p0.0) - Abs(p.0 - p0.0) * Abs(p1.1 - p0.1)
  }

  /** The longer side of the box the line runs across. */
  function Long(p0: Point, p1: Point): int { Max(Abs(p1.0 - p0.0), Abs(p1.1 - p0.1)) }

  predicate Between(a: int, v: int, b: int) { a <= v <= b || b <= v <= a }

  /** Half a pixel at most; of two pixels that are both half a pixel off, the farther one along y or the nearer one along x. */
  predicate Near(dx: int, dy: int, off: int) {
    if dx >= dy then 2 * off <= dx && (-dx < 2 * off || dx == 0) else -dy <= 2 * off < dy
  }

  /** Inside the box, and no further than half a pixel from the ideal line. */
  predicate OnLine(p: Point, p0: Point, p1: Point) {
    && Between(p0.0, p.0, p1.0) && Between(p0.1, p.1, p1.1)
    && Near(Abs(p1.0 - p0.0), Abs(p1.1 - p0.1), Off(p, p0, p1))
  }

  /** How far along the longer side a point is. */
  function Along(p: Point, p0: Point, p1: Point): int {
    if Abs(p1.0 - p0.0) >= Abs(p1.1 - p0.1) then Abs(p.0 - p0.0) else Abs(p.1 - p0.1)
  }

  /** There is one such pixel at each step along the longer side. */
  lemma {:induction false} OnlyOne(p: Point, q: Point, p0: Point, p1: Point)
    requires OnLine(p, p0, p1) && OnLine(q, p0, p1) && Along(p, p0, p1) == Along(q, p0, p1)
    ensures p == q
  {
    SameSteps(Abs(p1.0 - p0.0), Abs(p1.1 - p0.1), Abs(p.0 - p0.0), Abs(p.1 - p0.1), Abs(q.0 - p0.0), Abs(q.1 - p0.1));
    SameSide(p0.0, p.0, q.0, p1.0);
    SameSide(p0.1, p.1, q.1, p1.1);
  }

  lemma SameSteps(dx: int, dy: int, i: int, j: int, i': int, j': int)
    requires 0 <= i <= dx && 0 <= j <= dy && 0 <= i' <= dx && 0 <= j' <= dy
    requires Near(dx, dy, j * dx - i * dy) && Near(dx, dy, j' * dx - i' * dy)
    requires if dx >= dy then i == i' else j == j'
    ensures i == i' && j == j'
  {
    if dx >= dy && dx > 0 {
      SameRow(j, j', dx);
    } else if dy > dx {
      SameRow(i', i, dy);
    }
  }

  lemma SameSide(a: int, v: int, w: int, b: int)
    requires Between(a, v, b) && Between(a, w, b)
    ensures v == w <==> Abs(v - a) == Abs(w - a)
    ensures a == b ==> v == w
  {
  }

  lemma SameRow(j: int, k: int, a: int)
    requires a > 0 && -a < j * a - k * a < a
    ensures j == k
  {
    NoneBetween(a, j - k);
  }

  lemma NoneBetween(a: int, k: int)
    requires a > 0 && -a < k * a < a
    ensures k == 0
  {
  }

  /** Eight-connected: one pixel on, straight or diagonally. */
  predicate NextTo(p: Point, q: Point) {
    p != q && Abs(q.0 - p.0) <= 1 && Abs(q.1 - p.1) <= 1
  }

  /** The error term after `i` steps along x and `j` along y. */
  function Err(dx: int, dy: int, i: int, j: int): int { (j + 1) * dx - (i + 1) * dy }

  /** After `n` pixels: `n` steps along the longer side, and never more than half a step off on the other. */
  ghost predicate InStep(dx: int, dy: int, i: int, j: int, n: int) {
    && 0 <= i <= dx && 0 <= j <= dy
    && (if dx >= dy then i == n else j == n)
    && Near(dx, dy, j * dx - i * dy)
  }

  lemma ErrStep(dx: int, dy: int, i: int, j: int)
    ensures Err(dx, dy, i, j) == j * dx - i * dy + dx - dy
    ensures Err(dx, dy, i + 1, j) == Err(dx, dy, i, j) - dy && Err(dx, dy, i, j + 1) == Err(dx, dy, i, j) + dx
    ensures Err(dx, dy, i + 1, j + 1) == Err(dx, dy, i, j) - dy + dx
  {
  }

  /** Off by at most half a step, the shorter side cannot overshoot. */
  lemma NoOvershoot(a: int, b: int, i: int, j: int)
    requires a > 0 && 0 <= i <= a && 0 <= b && 2 * (j * a - i * b) <= a
    ensures j <= b
  {
    Scale(b, i, a);
    assert a * (2 * j) == 2 * (j * a) && a * (1 + 2 * b) == a + 2 * (a * b);
    Unscale(a, 2 * j, 1 + 2 * b);
  }

  lemma Scale(c: int, x: int, y: int)
    requires c >= 0 && x <= y
    ensures c * x <= c * y
  {
  }

  lemma Unscale(c: int, x: int, y: int)
    requires c > 0 && c * x <= c * y
    ensures x <= y
  {
  }

  lemma HalfIsNone(a: int, k: int)
    requires a > 0 && -a <= 2 * (k * a) <= a
    ensures k == 0
  {
  }

  lemma Advance(dx: int, dy: int, i: int, j: int, n: int)
    requires InStep(dx, dy, i, j, n) && n < Max(dx, dy)
    ensures var e2 := 2 * Err(dx, dy, i, j);
            InStep(dx, dy, if e2 >= -dy then i + 1 else i, if e2 <= dx then j + 1 else j, n + 1)
  {
    ErrStep(dx, dy, i, j);
    var e2 := 2 * Err(dx, dy, i, j);
    var i', j' := if e2 >= -dy then i + 1 else i, if e2 <= dx then j + 1 else j;
    assert (j + 1) * dx == j * dx + dx && (i + 1) * dy == i * dy + dy;
    if dx >= dy {
      NoOvershoot(dx, dy, i', j');
    } else {
      assert i' * dy - j' * dx == -(j' * dx - i' * dy);
      NoOvershoot(dy, dx, j', i');
    }
  }

  /** At the end of the longer side the other side is at its end too. */
  lemma Arrived(dx: int, dy: int, i: int, j: int, n: int)
    requires InStep(dx, dy, i, j, n) && n == Max(dx, dy)
    ensures i == dx && j == dy
  {
    if dx >= dy && dx > 0 {
      Factored(j, dy, dx);
      HalfIsNone(dx, j - dy);
    } else if dy > dx {
      Factored(dx, i, dy);
      HalfIsNone(dy, dx - i);
    }
  }

  lemma Factored(a: int, b: int, c: int)
    ensures a * c - c * b == (a - b) * c && c * a - b * c == (a - b) * c
  {
  }

  /** The point `i` steps along x and `j` along y from `p0` towards `p1`. */
  ghost function Stepped(p0: Point, p1: Point, i: int, j: int): Point {
    (if p0.0 < p1.0 then p0.0 + i else p0.0 - i, if p0.1 < p1.1 then p0.1 + j else p0.1 - j)
  }

  lemma Plotted(p0: Point, p1: Point, i: int, j: int, n: int)
    requires InStep(Abs(p1.0 - p0.0), Abs(p1.1 - p0.1), i, j, n)
    ensures OnLine(Stepped(p0, p1, i, j), p0, p1) && 0 <= n <= Long(p0, p1)
    ensures n == Long(p0, p1) <==> Stepped(p0, p1, i, j) == p1
    ensures Along(Stepped(p0, p1, i, j), p0, p1) == n
  {
    var dx, dy := Abs(p1.0 - p0.0), Abs(p1.1 - p0.1);
    var p := Stepped(p0, p1, i, j);
    assert Abs(p.0 - p0.0) == i && Abs(p.1 - p0.1) == j;
    if n == Long(p0, p1) { Arrived(dx, dy, i, j, n); }
  }

  lemma NotThere(p0: Point, p1: Point, i: int, j: int, n: int)
    requires InStep(Abs(p1.0 - p0.0), Abs(p1.1 - p0.1), i, j, n) && Stepped(p0, p1, i, j) != p1
    ensures n < Max(Abs(p1.0 - p0.0), Abs(p1.1 - p0.1))
  {
    Plotted(p0, p1, i, j, n);
  }

  /** The state of the loop at pixel `n`. */
  ghost predicate Drawing(p0: Point, p1: Point, x: int, y: int, err: int, i: int, j: int, n: int) {
    && InStep(Abs(p1.0 - p0.0), Abs(p1.1 - p0.1), i, j, n)
    && (x, y) == Stepped(p0, p1, i, j) && err == Err(Abs(p1.0 - p0.0), Abs(p1.1 - p0.1), i, j)
  }

  /** The loop's choice, in steps along the sides. */
  lemma Chosen(dx: int, dy: int, i: int, j: int, n: int, err: int, i': int, j': int)
    requires InStep(dx, dy, i, j, n) && n < Max(dx, dy) && err == Err(dx, dy, i, j)
    requires i' == (if 2 * err >= -dy then i + 1 else i) && j' == (if 2 * err <= dx then j + 1 else j)
    ensures InStep(dx, dy, i', j', n + 1) && (i', j') != (i, j)
    ensures Err(dx, dy, i', j') == err - (if 2 * err >= -dy then dy else 0) + (if 2 * err <= dx then dx else 0)
  {
    Advance(dx, dy, i, j, n);
    ErrStep(dx, dy, i, j);
  }

  /** The same, in coordinates. */
  lemma Moved(p0: Point, p1: Point, i: int, j: int, i': int, j': int)
    requires i <= i' <= i + 1 && j <= j' <= j + 1 && (i', j') != (i, j)
    ensures NextTo(Stepped(p0, p1, i, j), Stepped(p0, p1, i', j'))
  {
  }

  /** Pixels on the line, one next to the other, from `p0` to just before `q`. */
  ghost predicate Path(pixels: seq<Point>, p0: Point, p1: Point, q: Point) {
    && (if |pixels| == 0 then q == p0 else pixels[0] == p0 && NextTo(pixels[|pixels| - 1], q))
    && (forall k | 0 <= k < |pixels| :: OnLine(pixels[k], p0, p1) && Along(pixels[k], p0, p1) == k)
    && (forall k | 0 < k < |pixels| :: NextTo(pixels[k - 1], pixels[k]))
  }

  lemma PathOn(pixels: seq<Point>, p0: Point, p1: Point, q: Point, r: Point)
    requires Path(pixels, p0, p1, q) && OnLine(q, p0, p1) && Along(q, p0, p1) == |pixels| && NextTo(q, r)
    ensures Path(pixels + [q], p0, p1, r)
  {
  }

  /** One turn of the loop. */
  method StepOn(p0: Point, p1: Point, x: int, y: int, err: int, ghost i: int, ghost j: int, ghost n: int)
    returns (x': int, y': int, err': int, ghost i': int, ghost j': int)
    requires Drawing(p0, p1, x, y, err, i, j, n) && (x, y) != p1
    ensures Drawing(p0, p1, x', y', err', i', j', n + 1) && NextTo((x, y), (x', y'))
  {
    var dx := Abs(p1.0 - p0.0);
    var sx := if p0.0 < p1.0 then 1 else -1;
    var dy := -Abs(p1.1 - p0.1);
    var sy := if p0.1 < p1.1 then 1 else -1;
    x', y', err' := x, y, err;
    var e2 := 2 * err;
    if e2 >= dy { err' := err' + dy; x' := x' + sx; }
    if e2 <= dx { err' := err' + dx; y' := y' + sy; }
    i', j' := if e2 >= dy then i + 1 else i, if e2 <= dx then j + 1 else j;
    NotThere(p0, p1, i, j, n);
    Chosen(dx, -dy, i, j, n, err, i', j');
    Moved(p0, p1, i, j, i', j');
  }

  /** The pixels plotted, in order. */
  method Line(p0: Point, p1: Point) returns (pixels: seq<Point>)
    ensures |pixels| == Long(p0, p1) + 1
    ensures pixels[0] == p0 && pixels[|pixels| - 1] == p1
    ensures forall k | 0 <= k < |pixels| :: OnLine(pixels[k], p0, p1) && Along(pixels[k], p0, p1) == k
    ensures forall k | 0 < k < |pixels| :: NextTo(pixels[k - 1], pixels[k])
  {
    var x, y := p0.0, p0.1;
    var err := Abs(p1.0 - p0.0) - Abs(p1.1 - p0.1);
    pixels := [];
    ghost var i, j := 0, 0;
    while true
      invariant Drawing(p0, p1, x, y, err, i, j, |pixels|) && Path(pixels, p0, p1, (x, y))
      decreases Long(p0, p1) - |pixels|
    {
      Plotted(p0, p1, i, j, |pixels|);
      var plotted := pixels + [(x, y)];
      if x == p1.0 && y == p1.1 { pixels := plotted; break; }
      var x', y', err';
      x', y', err', i, j := StepOn(p0, p1, x, y, err, i, j, |pixels|);
      PathOn(pixels, p0, p1, (x, y), (x', y'));
      pixels, x, y, err := plotted, x', y', err';
    }
  }
}
