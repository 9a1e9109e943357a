/** GrLineDraw: clipping, then Bresenham's algorithm; horizontal and vertical lines go to their own routines. */
module LineDrawing {
  import opened Lines
  import opened Segments

  /** The display: the pixels drawn, in order. DpyPixelDraw appends one; the line routines append a row or a column. */
  class Display {
    var plotted: seq<Point>

    constructor ()
      ensures plotted == []
    {
      plotted := [];
    }

    method PixelDraw(x: int, y: int)
      modifies this
      ensures plotted == old(plotted) + [Point(x, y)]
    {
      plotted := plotted + [Point(x, y)];
    }

    method LineDrawH(x1: int, x2: int, y: int)
      requires x1 <= x2
      modifies this
      ensures plotted == old(plotted) + Row(x1, x2, y)
    {
      plotted := plotted + Row(x1, x2, y);
    }

    method LineDrawV(x: int, y1: int, y2: int)
      requires y1 <= y2
      modifies this
      ensures plotted == old(plotted) + Column(x, y1, y2)
    {
      plotted := plotted + Column(x, y1, y2);
    }
  }

  function Row(x1: int, x2: int, y: int): (s: seq<Point>)
    requires x1 <= x2
    ensures |s| == x2 - x1 + 1 && forall k :: 0 <= k < |s| ==> s[k] == Point(x1 + k, y)
  {
    seq(x2 - x1 + 1, k requires 0 <= k => Point(x1 + k, y))
  }

  function Column(x: int, y1: int, y2: int): (s: seq<Point>)
    requires y1 <= y2
    ensures |s| == y2 - y1 + 1 && forall k :: 0 <= k < |s| ==> s[k] == Point(x, y1 + k)
  {
    seq(y2 - y1 + 1, k requires 0 <= k => Point(x, y1 + k))
  }

  // ----- the exact row and column lines -----

  /** Exactly the pixels of the line y from x1 to x2 that are in the region. */
  ghost predicate ExactRow(r: Rectangle, x1: int, x2: int, y: int, s: seq<Point>) {
    && (forall k :: 0 <= k < |s| ==> r.Holds(s[k].x, s[k].y) && s[k].y == y && Between(x1, s[k].x, x2))
    && (forall x :: Between(x1, x, x2) && r.Holds(x, y) ==> Point(x, y) in s)
    && (forall j, k :: 0 <= j < k < |s| ==> s[j] != s[k])
  }

  ghost predicate ExactColumn(r: Rectangle, x: int, y1: int, y2: int, s: seq<Point>) {
    && (forall k :: 0 <= k < |s| ==> r.Holds(s[k].x, s[k].y) && s[k].x == x && Between(y1, s[k].y, y2))
    && (forall y :: Between(y1, y, y2) && r.Holds(x, y) ==> Point(x, y) in s)
    && (forall j, k :: 0 <= j < k < |s| ==> s[j] != s[k])
  }

  /** GrLineDrawH. */
  method LineDrawH(d: Display, r: Rectangle, a1: int, a2: int, y: int) returns (ghost s: seq<Point>)
    requires r.Valid()
    modifies d
    ensures d.plotted == old(d.plotted) + s && ExactRow(r, a1, a2, y, s)
  {
    s := [];
    if y < r.yMin || y > r.yMax {
      return;
    }
    var x1, x2 := a1, a2;
    if x1 > x2 {
      x1, x2 := x2, x1;
    }
    if x1 > r.xMax || x2 < r.xMin {
      return;
    }
    if x1 < r.xMin {
      x1 := r.xMin;
    }
    if x2 > r.xMax {
      x2 := r.xMax;
    }
    d.LineDrawH(x1, x2, y);
    s := Row(x1, x2, y);
    forall x | x1 <= x <= x2
      ensures Point(x, y) in s
    {
      assert s[x - x1] == Point(x, y);
    }
  }

  /** GrLineDrawV. */
  method LineDrawV(d: Display, r: Rectangle, x: int, b1: int, b2: int) returns (ghost s: seq<Point>)
    requires r.Valid()
    modifies d
    ensures d.plotted == old(d.plotted) + s && ExactColumn(r, x, b1, b2, s)
  {
    s := [];
    if x < r.xMin || x > r.xMax {
      return;
    }
    var y1, y2 := b1, b2;
    if y1 > y2 {
      y1, y2 := y2, y1;
    }
    if y1 > r.yMax || y2 < r.yMin {
      return;
    }
    if y1 < r.yMin {
      y1 := r.yMin;
    }
    if y2 > r.yMax {
      y2 := r.yMax;
    }
    d.LineDrawV(x, y1, y2);
    s := Column(x, y1, y2);
    forall y | y1 <= y <= y2
      ensures Point(x, y) in s
    {
      assert s[y - y1] == Point(x, y);
    }
  }

  // ----- Bresenham -----

  /** The pixel drawn for the position u along the major axis and v along the minor one. */
  function Pixel(steep: bool, u: int, v: int): Point {
    if steep then Point(v, u) else Point(u, v)
  }

  /**
    A scan-converted line from (u1, v1) to (u2, v2) along its major axis: one pixel a step, both ends exact,
    every pixel a nearest one to the exact line, and none outside the box of the ends.
   */
  ghost predicate Scanned(steep: bool, u1: int, v1: int, u2: int, v2: int, s: seq<Point>) {
    && u1 <= u2 && |s| == u2 - u1 + 1 && Abs(v2 - v1) <= u2 - u1
    && s[0] == Pixel(steep, u1, v1) && s[|s| - 1] == Pixel(steep, u2, v2)
    && forall k :: 0 <= k < |s| ==> OnLine(steep, u1, v1, u2, v2, k, s[k])
  }

  /** Minor offset m is a nearest one to the exact k * dv / du. */
  ghost predicate Nearest(du: int, dv: int, k: int, m: int) {
    2 * Abs(k * dv - m * du) <= du
  }

  /** Of two that are equally near, the one whose minor coordinate is nearer to the start of the scan. */
  ghost predicate Chosen(du: int, dv: int, k: int, m: int) {
    du > 0 ==> -du < 2 * (k * Abs(dv) - Abs(m) * du) <= du
  }

  /** The error term says how far the pixel is from the exact line. */
  ghost predicate Tracks(dx: nat, dy: nat, k: nat, m: nat, err: int) {
    && err == k * dy - m * dx - dx / 2
    && err <= 0 && (dx > 0 ==> err > 0 - dx) && (dx == 0 ==> m == 0)
  }

  /** Half of -dx, as C computes it. */
  lemma HalfNegated(dx: nat)
    ensures Quotient(0 - dx, 2) == 0 - dx / 2
  {
  }

  lemma TrackStart(dx: nat, dy: nat)
    requires dy <= dx
    ensures Tracks(dx, dy, 0, 0, 0 - dx / 2)
  {
  }

  lemma Distribute(a: int, b: int, c: int)
    ensures (a + 1) * b == a * b + b && (a + 1) * c == a * c + c
  {
  }

  /** One step along the major axis keeps the error term in its range. */
  lemma TrackStep(dx: nat, dy: nat, k: nat, m: nat, err: int)
    requires dy <= dx && Tracks(dx, dy, k, m, err)
    ensures var e := err + dy;
            if e > 0 then Tracks(dx, dy, k + 1, m + 1, e - dx) else Tracks(dx, dy, k + 1, m, e)
  {
    Distribute(k, dy, dx);
    Distribute(m, dx, dy);
  }

  /** A tracked pixel is a nearest one, whichever way the minor axis goes. */
  lemma TrackNear(dx: nat, dy: nat, k: nat, m: nat, err: int)
    requires dy <= dx && Tracks(dx, dy, k, m, err)
    ensures Nearest(dx, dy, k, m) && Nearest(dx, 0 - dy, k, 0 - m)
  {
    Negated(k, dy);
    Negated(m, dx);
    var p, q := k * dy, m * dx;
    if dx == 0 {
      assert k * 0 == 0;
    }
    Halves(dx, p - q, err);
    assert (0 - p) - (0 - q) == 0 - (p - q);
  }

  lemma Halves(dx: nat, e: int, err: int)
    requires err == e - dx / 2 && err <= 0 && (dx > 0 ==> err > 0 - dx) && (dx == 0 ==> e == 0)
    ensures 2 * Abs(e) <= dx && 2 * Abs(0 - e) <= dx
  {
  }

  lemma Negated(a: int, b: int)
    ensures a * (0 - b) == 0 - a * b && (0 - a) * b == 0 - a * b
  {
  }

  /** Up to the last step the minor offset does not pass that of the end, and there it is reached. */
  lemma TrackBounds(dx: nat, dy: nat, k: nat, m: nat, err: int)
    requires dy <= dx && k <= dx && Tracks(dx, dy, k, m, err)
    ensures m <= dy && (k == dx ==> m == dy)
  {
    if dx > 0 {
      TrackNear(dx, dy, k, m, err);
      if m > dy {
        MulMono(dy + 1, m, dx);
        MulMono(k, dx, dy);
        Distribute(dy, dx, dx);
      } else if k == dx && m < dy {
        MulMono(m + 1, dy, dx);
        Distribute(m, dx, dx);
      }
    }
  }

  lemma {:induction false} MulMono(a: nat, b: nat, c: nat)
    requires a <= b
    ensures a * c <= b * c
    decreases b
  {
    if a < b {
      MulMono(a, b - 1, c);
      Distribute(b - 1, c, c);
    }
  }

  /** The loop of GrLineDraw, from (a1, v1) to (u2, v2) along the major axis. */
  method Scan(d: Display, steep: bool, a1: int, b1: int, u2: int, v2: int) returns (ghost s: seq<Point>)
    requires a1 <= u2 && Abs(v2 - b1) <= u2 - a1
    modifies d
    ensures d.plotted == old(d.plotted) + s && Scanned(steep, a1, b1, u2, v2, s)
  {
    hide Tracks, Nearest, Chosen, Quotient;
    var u1, v1 := a1, b1;
    var deltaX := u2 - u1;
    var deltaY := if v2 > v1 then v2 - v1 else v1 - v2;
    HalfNegated(deltaX);
    var error := Quotient(0 - deltaX, 2);
    var step := if v1 < v2 then 1 else -1;
    TrackStart(deltaX, deltaY);
    s := [];
    ghost var k: nat, m: nat := 0, 0;
    while u1 <= u2
      invariant k <= deltaX + 1 && u1 == a1 + k && |s| == k && v1 == b1 + step * m
      invariant d.plotted == old(d.plotted) + s
      invariant Tracks(deltaX, deltaY, k, m, error)
      invariant forall i :: 0 <= i < k ==> OnLine(steep, a1, b1, u2, v2, i, s[i])
      invariant k > 0 ==> s[0] == Pixel(steep, a1, b1)
      invariant k == deltaX + 1 ==> s[deltaX] == Pixel(steep, u2, v2)
      invariant k == 0 ==> m == 0
      decreases u2 - u1
    {
      TrackNear(deltaX, deltaY, k, m, error);
      TrackChosen(deltaX, deltaY, k, m, error);
      TrackBounds(deltaX, deltaY, k, m, error);
      if steep {
        d.PixelDraw(v1, u1);
      } else {
        d.PixelDraw(u1, v1);
      }
      assert OnLineAt(a1, b1, u2, v2, k, v1);
      s := s + [Pixel(steep, u1, v1)];
      TrackStep(deltaX, deltaY, k, m, error);
      error := error + deltaY;
      if error > 0 {
        v1 := v1 + step;
        error := error - deltaX;
        m := m + 1;
      }
      k := k + 1;
      u1 := u1 + 1;
    }
    LineScanned(steep, a1, b1, u2, v2, s);
  }

  lemma TrackChosen(dx: nat, dy: nat, k: nat, m: nat, err: int)
    requires Tracks(dx, dy, k, m, err)
    ensures Chosen(dx, dy, k, m) && Chosen(dx, 0 - dy, k, 0 - m)
  {
    assert Abs(dy) == Abs(0 - dy) == dy && Abs(m) == Abs(0 - m) == m;
  }

  /** Minor coordinate v at step k: the chosen one of those nearest to the exact line, and between the ends. */
  ghost predicate OnLineAt(u1: int, v1: int, u2: int, v2: int, k: int, v: int) {
    Nearest(u2 - u1, v2 - v1, k, v - v1) && Chosen(u2 - u1, v2 - v1, k, v - v1) && Between(v1, v, v2)
  }

  ghost predicate OnLine(steep: bool, u1: int, v1: int, u2: int, v2: int, k: int, p: Point) {
    exists v :: p == Pixel(steep, u1 + k, v) && OnLineAt(u1, v1, u2, v2, k, v)
  }

  /** There is one such pixel at every step, so the ends of a scan determine what is drawn. */
  lemma ScanUnique(steep: bool, u1: int, v1: int, u2: int, v2: int, s: seq<Point>, t: seq<Point>)
    requires Scanned(steep, u1, v1, u2, v2, s) && Scanned(steep, u1, v1, u2, v2, t)
    ensures s == t
  {
    hide OnLineAt;
    forall k | 0 <= k < |s|
      ensures s[k] == t[k]
    {
      assert OnLine(steep, u1, v1, u2, v2, k, s[k]) && OnLine(steep, u1, v1, u2, v2, k, t[k]);
      var v :| s[k] == Pixel(steep, u1 + k, v) && OnLineAt(u1, v1, u2, v2, k, v);
      var w :| t[k] == Pixel(steep, u1 + k, w) && OnLineAt(u1, v1, u2, v2, k, w);
      OneMinor(u1, v1, u2, v2, k, v, w);
    }
  }

  lemma OneMinor(u1: int, v1: int, u2: int, v2: int, k: nat, v: int, w: int)
    requires u1 <= u2 && Abs(v2 - v1) <= u2 - u1 && OnLineAt(u1, v1, u2, v2, k, v) && OnLineAt(u1, v1, u2, v2, k, w)
    ensures v == w
  {
    hide Nearest;
    if u1 < u2 {
      OneOffset(u2 - u1, k * Abs(v2 - v1), Abs(v - v1), Abs(w - v1));
    }
  }

  lemma OneOffset(d: nat, e: int, m: nat, n: nat)
    requires 0 - d < 2 * (e - m * d) <= d && 0 - d < 2 * (e - n * d) <= d
    ensures m == n
  {
    if m < n {
      MulMono(m + 1, n, d);
      Distribute(m, d, d);
    } else if n < m {
      MulMono(n + 1, m, d);
      Distribute(n, d, d);
    }
  }

  lemma LineScanned(steep: bool, u1: int, v1: int, u2: int, v2: int, s: seq<Point>)
    requires u1 <= u2 && |s| == u2 - u1 + 1 && Abs(v2 - v1) <= u2 - u1
    requires s[0] == Pixel(steep, u1, v1) && s[|s| - 1] == Pixel(steep, u2, v2)
    requires forall k :: 0 <= k < |s| ==> OnLine(steep, u1, v1, u2, v2, k, s[k])
    ensures Scanned(steep, u1, v1, u2, v2, s)
  {
    hide Nearest, Chosen;
  }

  /** The longer axis is the major one, and the scan goes in its increasing direction. */
  ghost predicate Drawn(x1: int, y1: int, x2: int, y2: int, s: seq<Point>) {
    var steep := Abs(y2 - y1) > Abs(x2 - x1);
    var u1, v1, u2, v2 := if steep then y1 else x1, if steep then x1 else y1, if steep then y2 else x2, if steep then x2 else y2;
    if u1 <= u2 then Scanned(steep, u1, v1, u2, v2, s) else Scanned(steep, u2, v2, u1, v1, s)
  }

  /** Every pixel of a scanned line lies in the region if both ends do. */
  lemma ScannedInside(r: Rectangle, steep: bool, u1: int, v1: int, u2: int, v2: int, s: seq<Point>)
    requires Scanned(steep, u1, v1, u2, v2, s)
    requires var p, q := Pixel(steep, u1, v1), Pixel(steep, u2, v2); r.Holds(p.x, p.y) && r.Holds(q.x, q.y)
    ensures forall k :: 0 <= k < |s| ==> r.Holds(s[k].x, s[k].y)
  {
    hide Nearest, Chosen;
    forall k | 0 <= k < |s|
      ensures r.Holds(s[k].x, s[k].y)
    {
      assert OnLine(steep, u1, v1, u2, v2, k, s[k]);
    }
  }

  // ----- how close the drawn pixels are -----

  function SpotOf(p: Point): Spot {
    At(p.x, p.y)
  }

  lemma HalfFactor(w: real, d: real, p: real)
    requires d > 0.0 && p == w * d && -d <= 2.0 * p <= d
    ensures Near(w, 0.0, 0.5)
  {
    if w > 0.5 {
      Positive(w - 0.5, d);
    } else if w < -0.5 {
      Positive(-0.5 - w, d);
    }
  }

  lemma RealNearest(m: real, a: real, c: real, d: real, n: real)
    requires d > 0.0 && c * d == n && -d <= 2.0 * (m * d - a * n) <= d
    ensures Near(m, Part(c, a), 0.5)
  {
    OffBy(m, c, a, d, n);
    HalfFactor(m - c * a, d, m * d - a * n);
  }

  lemma NearestBound(du: nat, dv: int, k: nat, m: int)
    requires Nearest(du, dv, k, m)
    ensures -(du as real) <= 2.0 * (m as real * du as real - dv as real * k as real) <= du as real
  {
    SignedReal(dv, k);
    SignedReal(m, du);
    var e, f := m * du, dv * k;
    assert k * dv == f;
    assert e as real - f as real == (e - f) as real;
  }

  lemma NearestReal(du: nat, dv: int, k: nat, m: int, c: real)
    requires du > 0 && Nearest(du, dv, k, m) && c * du as real == k as real
    ensures Near(m as real, Part(c, dv as real), 0.5)
  {
    NearestBound(du, dv, k, m);
    hide Nearest, Part;
    RealNearest(m as real, dv as real, c, du as real, k as real);
  }

  /** Step k of a scan, as a fraction of the exact line, is within half a pixel of it in the minor direction. */
  lemma StepNear(u1: int, v1: int, u2: int, v2: int, k: nat, v: int) returns (c: real)
    requires u1 < u2 && k <= u2 - u1 && OnLineAt(u1, v1, u2, v2, k, v)
    ensures Fraction(c) && Mix(u1 as real, u2 as real, c) == (u1 + k) as real
    ensures Part(c, (u2 - u1) as real) == k as real
    ensures Near(v as real, Mix(v1 as real, v2 as real, c), 0.5)
  {
    c := FractionAt(u1, u2, u1 + k);
    NearestReal(u2 - u1, v2 - v1, k, v - v1, c);
    hide Part;
  }

  /** A point of the plane by its major and minor coordinates. */
  function Turned(steep: bool, u: real, v: real): Spot {
    if steep then Spot(v, u) else Spot(u, v)
  }

  lemma TurnedAlong(steep: bool, u1: int, v1: int, u2: int, v2: int, t: real)
    ensures Along(SpotOf(Pixel(steep, u1, v1)), SpotOf(Pixel(steep, u2, v2)), t)
            == Turned(steep, Mix(u1 as real, u2 as real, t), Mix(v1 as real, v2 as real, t))
  {
    hide Mix;
  }

  /** A drawn pixel is within half a pixel of the scanned line. */
  lemma PixelNear(steep: bool, u1: int, v1: int, u2: int, v2: int, s: seq<Point>, k: nat)
    requires Scanned(steep, u1, v1, u2, v2, s) && k < |s|
    ensures Passes(SpotOf(Pixel(steep, u1, v1)), SpotOf(Pixel(steep, u2, v2)), SpotOf(s[k]), 0.5)
  {
    hide OnLineAt, Mix;
    assert OnLine(steep, u1, v1, u2, v2, k, s[k]);
    var v :| s[k] == Pixel(steep, u1 + k, v) && OnLineAt(u1, v1, u2, v2, k, v);
    if u1 < u2 {
      var c := StepNear(u1, v1, u2, v2, k, v);
      TurnedAlong(steep, u1, v1, u2, v2, c);
      hide Along;
      assert Close(SpotOf(s[k]), Along(SpotOf(Pixel(steep, u1, v1)), SpotOf(Pixel(steep, u2, v2)), c), 0.5);
    } else {
      AlongBack(SpotOf(s[k]), SpotOf(Pixel(steep, u2, v2)), 0.0);
      hide Along;
      assert Close(SpotOf(s[k]), Along(SpotOf(Pixel(steep, u1, v1)), SpotOf(Pixel(steep, u2, v2)), 0.0), 0.5);
    }
  }

  /** The step nearest to a fraction of the way. */
  lemma StepAt(du: nat, t: real) returns (k: nat)
    requires Fraction(t)
    ensures k <= du && Near(Part(t, du as real), k as real, 0.5)
  {
    Scaled(t, du as real);
    hide Part;
    var z := Part(t, du as real) + 0.5;
    k := z.Floor;
  }

  lemma PartBound(w: real, d: real, e: real)
    requires w >= 0.0 && -d <= e <= d
    ensures -Part(w, d) <= Part(w, e) <= Part(w, d)
  {
    Segments.MulMono(w, e, d);
    Segments.MulMono(w, -d, e);
    PartNegated(w, d);
  }

  lemma PartNegated(w: real, d: real)
    ensures Part(w, -d) == -Part(w, d) == Part(-w, d)
  {
  }

  lemma SlopeNear(w: real, du: nat, dv: int)
    requires Abs(dv) <= du && Near(Part(w, du as real), 0.0, 0.5)
    ensures Near(Part(w, dv as real), 0.0, 0.5)
  {
    hide Part;
    PartNegated(w, du as real);
    PartNegated(w, dv as real);
    PartBound(if w >= 0.0 then w else -w, du as real, dv as real);
  }

  lemma MixDifference(a: real, b: real, t: real, c: real)
    ensures Mix(a, b, t) - Mix(a, b, c) == Part(t - c, b - a) == Part(t, b - a) - Part(c, b - a)
  {
    PartSplit(t, c, b - a);
    hide Part;
  }

  lemma PartSplit(t: real, c: real, d: real)
    ensures Part(t - c, d) == Part(t, d) - Part(c, d)
  {
  }

  /** The step nearest to fraction t is within a pixel of the exact point in both directions. */
  lemma StepClose(u1: int, v1: int, u2: int, v2: int, t: real, k: nat, v: int)
    requires Fraction(t) && k <= u2 - u1 && Abs(v2 - v1) <= u2 - u1 && OnLineAt(u1, v1, u2, v2, k, v)
    requires Near(Part(t, (u2 - u1) as real), k as real, 0.5)
    ensures Near(Mix(u1 as real, u2 as real, t), (u1 + k) as real, 1.0)
    ensures Near(Mix(v1 as real, v2 as real, t), v as real, 1.0)
  {
    hide OnLineAt, Mix, Part;
    if u1 < u2 {
      var c := StepNear(u1, v1, u2, v2, k, v);
      MixDifference(u1 as real, u2 as real, t, c);
      MixDifference(v1 as real, v2 as real, t, c);
      SlopeNear(t - c, u2 - u1, v2 - v1);
    } else {
      MixEnds(u1 as real, u2 as real, t);
      MixEnds(v1 as real, v2 as real, t);
      OnlyStep(u1, v1, u2, v2, v);
    }
  }

  lemma OnlyStep(u1: int, v1: int, u2: int, v2: int, v: int)
    requires v1 == v2 && OnLineAt(u1, v1, u2, v2, 0, v)
    ensures v == v1
  {
    hide Nearest, Chosen;
  }

  lemma TurnedClose(steep: bool, u: real, v: real, m: int, n: int)
    requires Near(u, m as real, 1.0) && Near(v, n as real, 1.0)
    ensures Close(Turned(steep, u, v), SpotOf(Pixel(steep, m, n)), 1.0)
  {
  }

  /** Every point of the scanned line has a drawn pixel within one pixel. */
  lemma LineNear(steep: bool, u1: int, v1: int, u2: int, v2: int, s: seq<Point>, t: real) returns (k: nat)
    requires Scanned(steep, u1, v1, u2, v2, s) && Fraction(t)
    ensures k < |s|
    ensures Close(Along(SpotOf(Pixel(steep, u1, v1)), SpotOf(Pixel(steep, u2, v2)), t), SpotOf(s[k]), 1.0)
  {
    hide OnLineAt, Mix, Close, Along, Near, Turned, SpotOf, Pixel;
    k := StepAt(u2 - u1, t);
    assert OnLine(steep, u1, v1, u2, v2, k, s[k]);
    var v :| s[k] == Pixel(steep, u1 + k, v) && OnLineAt(u1, v1, u2, v2, k, v);
    TurnedAlong(steep, u1, v1, u2, v2, t);
    StepClose(u1, v1, u2, v2, t, k, v);
    TurnedClose(steep, Mix(u1 as real, u2 as real, t), Mix(v1 as real, v2 as real, t), u1 + k, v);
  }

  /**
    The pixels are the line from a to b: each is within 4.5 pixels of it, and every point of it that is four
    pixels inside the region has a pixel within five.
   */
  ghost predicate Accurate(r: Rectangle, a: Spot, b: Spot, s: seq<Point>) {
    && (forall k :: 0 <= k < |s| ==> Passes(a, b, SpotOf(s[k]), 4.5))
    && forall t: real :: Fraction(t) && Deep(r, Along(a, b, t), 4.0) ==> Marked(s, Along(a, b, t))
  }

  ghost predicate Marked(s: seq<Point>, z: Spot) {
    exists k :: 0 <= k < |s| && Close(z, SpotOf(s[k]), 5.0)
  }

  /** What is near a segment whose ends are near the line is near the line. */
  lemma PassesThrough(a: Spot, b: Spot, p: Spot, q: Spot, z: Spot, k: real, l: real)
    requires Passes(a, b, p, k) && Passes(a, b, q, k) && Passes(p, q, z, l)
    ensures Passes(a, b, z, k + l)
  {
    hide Along, Mix, Close;
    var u: real :| Fraction(u) && Close(p, Along(a, b, u), k);
    var w: real :| Fraction(w) && Close(q, Along(a, b, w), k);
    var t: real :| Fraction(t) && Close(z, Along(p, q, t), l);
    AlongClose(p, q, Along(a, b, u), Along(a, b, w), t, k);
    AlongAlong(a, b, u, w, t);
    CloseAdds(z, Along(p, q, t), Along(a, b, Mix(u, w, t)), l, k);
    assert Fraction(Mix(u, w, t)) && Close(z, Along(a, b, Mix(u, w, t)), l + k);
  }

  /** Clipping costs four pixels, the scan half a pixel one way and one the other. */
  lemma DrawnAccurate(r: Rectangle, a: Spot, b: Spot, steep: bool, u1: int, v1: int, u2: int, v2: int, s: seq<Point>)
    requires Scanned(steep, u1, v1, u2, v2, s)
    requires Clipped(r, a, b, SpotOf(Pixel(steep, u1, v1)), SpotOf(Pixel(steep, u2, v2)), 4.0)
    ensures Accurate(r, a, b, s)
  {
    hide Scanned, SpotOf, Pixel, Along, Close, Deep, Fraction;
    var p, q := SpotOf(Pixel(steep, u1, v1)), SpotOf(Pixel(steep, u2, v2));
    forall k | 0 <= k < |s|
      ensures Passes(a, b, SpotOf(s[k]), 4.5)
    {
      PixelNear(steep, u1, v1, u2, v2, s, k);
      PassesThrough(a, b, p, q, SpotOf(s[k]), 4.0, 0.5);
    }
    forall t: real | Fraction(t) && Deep(r, Along(a, b, t), 4.0)
      ensures Marked(s, Along(a, b, t))
    {
      var z := Along(a, b, t);
      var t': real :| Fraction(t') && Close(z, Along(p, q, t'), 4.0);
      var k := LineNear(steep, u1, v1, u2, v2, s, t');
      CloseAdds(z, Along(p, q, t'), SpotOf(s[k]), 4.0, 1.0);
    }
  }

  lemma NothingAccurate(r: Rectangle, a: Spot, b: Spot)
    requires forall t: real :: Fraction(t) ==> !Deep(r, Along(a, b, t), 4.0)
    ensures Accurate(r, a, b, [])
  {
    hide Deep, Along;
  }

  /**
    GrLineDraw. A vertical or horizontal line draws exactly its pixels inside the region. Any other line is
    clipped to ends inside the region, or draws nothing, and is then scan-converted between those ends; what
    is drawn is the given line to within five pixels.
   */
  method LineDraw(d: Display, r: Rectangle, a1: int, b1: int, a2: int, b2: int)
    returns (ghost s: seq<Point>, ghost visible: bool, ghost p: Point, ghost q: Point)
    requires r.Valid()
    modifies d
    ensures d.plotted == old(d.plotted) + s
    ensures forall k :: 0 <= k < |s| ==> r.Holds(s[k].x, s[k].y)
    ensures a1 == a2 ==> ExactColumn(r, a1, b1, b2, s)
    ensures a1 != a2 && b1 == b2 ==> ExactRow(r, a1, a2, b1, s)
    ensures a1 != a2 && b1 != b2 ==> ClipsTo(r, Ends(a1, b1, a2, b2), visible, Ends(p.x, p.y, q.x, q.y))
    ensures a1 != a2 && b1 != b2 && !visible ==> s == [] && !r.Holds(a1, b1) && !r.Holds(a2, b2)
    ensures a1 != a2 && b1 != b2 && visible ==>
              r.Holds(p.x, p.y) && r.Holds(q.x, q.y) && Drawn(p.x, p.y, q.x, q.y, s)
              && InBox(a1, b1, a2, b2, p.x, p.y) && InBox(a1, b1, a2, b2, q.x, q.y)
              && (r.Holds(a1, b1) ==> p == Point(a1, b1)) && (r.Holds(a2, b2) ==> q == Point(a2, b2))
              && Clipped(r, At(a1, b1), At(a2, b2), At(p.x, p.y), At(q.x, q.y), 4.0)
    ensures a1 != a2 && b1 != b2 && !visible ==>
              forall t: real :: Fraction(t) ==> !Deep(r, Along(At(a1, b1), At(a2, b2), t), 4.0)
    ensures a1 != a2 && b1 != b2 ==> Accurate(r, At(a1, b1), At(a2, b2), s)
  {
    hide Scanned, Clipped, Deep, Along, At, Fraction, Accurate, ClipsTo;
    p, q, visible := Point(a1, b1), Point(a2, b2), true;
    if a1 == a2 {
      s := LineDrawV(d, r, a1, b1, b2);
      return;
    }
    if b1 == b2 {
      s := LineDrawH(d, r, a1, a2, b1);
      return;
    }
    var ok, x1, y1, x2, y2 := LineClip(r, a1, b1, a2, b2);
    visible, p, q := ok, Point(x1, y1), Point(x2, y2);
    s := [];
    if !ok {
      NothingAccurate(r, At(a1, b1), At(a2, b2));
      return;
    }
    ClippedBack(r, At(a1, b1), At(a2, b2), At(x1, y1), At(x2, y2), 4.0);
    var steep := (if y2 > y1 then y2 - y1 else y1 - y2) > if x2 > x1 then x2 - x1 else x1 - x2;
    if steep {
      x1, y1 := y1, x1;
      x2, y2 := y2, x2;
    }
    if x1 > x2 {
      x1, x2 := x2, x1;
      y1, y2 := y2, y1;
    }
    s := Scan(d, steep, x1, y1, x2, y2);
    ScannedInside(r, steep, x1, y1, x2, y2, s);
    DrawnAccurate(r, At(a1, b1), At(a2, b2), steep, x1, y1, x2, y2, s);
  }
}
