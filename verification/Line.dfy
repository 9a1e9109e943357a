/** Lines of the graphics library: Cohen-Sutherland clipping and Bresenham scan conversion. */
module Lines {
  import Layout
  import opened Segments

  datatype Point = Point(x: int, y: int)

  /** tRectangle; both corners are inside. */
  datatype Rectangle = Rectangle(xMin: int, yMin: int, xMax: int, yMax: int) {
    predicate Valid() {
      xMin <= xMax && yMin <= yMax
    }

    predicate Holds(x: int, y: int) {
      xMin <= x <= xMax && yMin <= y <= yMax
    }
  }

  /** The division of C: truncated toward zero. */
  function Quotient(a: int, b: int): int
    requires b != 0
  {
    if a >= 0 && b > 0 then a / b
    else if a >= 0 then -(a / -b)
    else if b > 0 then -(-a / b)
    else -a / -b
  }

  // ----- clipping -----

  /** GrClipCodeGet: 1 above, 2 below, 4 left of, 8 right of the region. */
  function ClipCode(r: Rectangle, x: int, y: int): nat {
    (if y < r.yMin then 1 else 0) + (if y > r.yMax then 2 else 0)
    + (if x < r.xMin then 4 else 0) + (if x > r.xMax then 8 else 0)
  }

  predicate Bit(code: nat, b: nat)
    requires b > 0
  {
    code / b % 2 == 1
  }

  /** The code says on which sides of the region a point lies; 0 means inside. */
  lemma CodeMeans(r: Rectangle, x: int, y: int)
    requires r.Valid()
    ensures Bit(ClipCode(r, x, y), 1) <==> y < r.yMin
    ensures Bit(ClipCode(r, x, y), 2) <==> y > r.yMax
    ensures Bit(ClipCode(r, x, y), 4) <==> x < r.xMin
    ensures Bit(ClipCode(r, x, y), 8) <==> x > r.xMax
    ensures ClipCode(r, x, y) == 0 <==> r.Holds(x, y)
  {
  }

  lemma CodeInside(r: Rectangle, x: int, y: int)
    requires r.Valid()
    ensures ClipCode(r, x, y) == 0 <==> r.Holds(x, y)
  {
  }

  /** lCode1 & lCode2 is not 0. */
  predicate Share(c: nat, d: nat) {
    (Bit(c, 1) && Bit(d, 1)) || (Bit(c, 2) && Bit(d, 2)) || (Bit(c, 4) && Bit(d, 4)) || (Bit(c, 8) && Bit(d, 8))
  }

  /** z lies between a and b, in either order. */
  predicate Between(a: int, z: int, b: int) {
    a <= z <= b || b <= z <= a
  }

  function Abs(a: int): nat {
    if a >= 0 then a else -a
  }

  lemma {:induction false} ProductMono(a: nat, n: nat, d: nat)
    requires n <= d
    ensures 0 <= a * n <= a * d
  {
    if a > 0 {
      ProductMono(a - 1, n, d);
      assert a * n == (a - 1) * n + n;
      assert a * d == (a - 1) * d + d;
    }
  }

  lemma QuotientBound(x: nat, a: nat, d: nat)
    requires d > 0 && x <= a * d
    ensures x / d <= a
  {
    assert x == x / d * d + x % d;
    if a < x / d {
      Layout.ProductStep(a, x / d, d);
    }
  }

  /** Truncation drops the signs, divides, and puts the sign back. */
  lemma QuotientSigned(a: int, b: int)
    requires b != 0
    ensures Abs(Quotient(a, b)) == Abs(a) / Abs(b)
    ensures (a >= 0 && b > 0) || (a <= 0 && b < 0) ==> Quotient(a, b) >= 0
    ensures (a >= 0 && b < 0) || (a <= 0 && b > 0) ==> Quotient(a, b) <= 0
  {
  }

  /** The truncated fraction n/d of a, for n/d between 0 and 1, lies between 0 and a. */
  lemma FractionBetween(a: int, n: int, d: int)
    requires d != 0 && Between(0, n, d)
    ensures Between(0, Quotient(a * n, d), a)
  {
    hide Quotient;
    ProductMono(Abs(a), Abs(n), Abs(d));
    QuotientBound(Abs(a) * Abs(n), Abs(a), Abs(d));
    SignedProduct(a, n);
    var p := a * n;
    QuotientSigned(p, d);
  }

  lemma SignedProduct(a: int, n: int)
    ensures Abs(a * n) == Abs(a) * Abs(n)
    ensures (a >= 0 && n >= 0) || (a <= 0 && n <= 0) ==> a * n >= 0
    ensures (a >= 0 && n <= 0) || (a <= 0 && n >= 0) ==> a * n <= 0
  {
  }

  /** Where the line through (x1, y1) and (x2, y2) crosses the row y: the coordinate GrLineClip computes. */
  function Crossing(x1: int, y1: int, x2: int, y2: int, y: int): int
    requires y1 != y2
  {
    x1 + Quotient((x2 - x1) * (y - y1), y2 - y1)
  }

  /** The crossing with a row between the two ends lies between them. */
  lemma CrossingBetween(x1: int, y1: int, x2: int, y2: int, y: int)
    requires y1 != y2 && Between(y1, y, y2)
    ensures Between(x1, Crossing(x1, y1, x2, y2, y), x2)
  {
    FractionBetween(x2 - x1, y - y1, y2 - y1);
  }

  /**
    x is x1 moved toward x2 by whole pixels: as many as the line from (x1, y1) to (x2, y2) has covered when it
    gets to row y, a fraction of a pixel dropped.
   */
  predicate Whole(x1: int, y1: int, x2: int, y2: int, y: int, x: int) {
    && y1 != y2 && Between(y1, y, y2) && Between(x1, x, x2)
    && Abs(x - x1) * Abs(y2 - y1) <= Abs(x2 - x1) * Abs(y - y1) < (Abs(x - x1) + 1) * Abs(y2 - y1)
  }

  /** There is one such pixel only. */
  lemma WholeUnique(x1: int, y1: int, x2: int, y2: int, y: int, x: int, z: int)
    requires Whole(x1, y1, x2, y2, y, x) && Whole(x1, y1, x2, y2, y, z)
    ensures x == z
  {
    if Abs(x - x1) < Abs(z - x1) {
      Layout.ProductStep(Abs(x - x1), Abs(z - x1), Abs(y2 - y1));
      Successor(Abs(x - x1), Abs(y2 - y1));
    } else if Abs(z - x1) < Abs(x - x1) {
      Layout.ProductStep(Abs(z - x1), Abs(x - x1), Abs(y2 - y1));
      Successor(Abs(z - x1), Abs(y2 - y1));
    }
  }

  lemma Successor(a: nat, b: nat)
    ensures (a + 1) * b == a * b + b
  {
  }

  lemma Floor(p: nat, d: nat)
    requires d > 0
    ensures p / d * d <= p < (p / d + 1) * d
  {
    assert p == p / d * d + p % d;
    Successor(p / d, d);
  }

  /** The crossing computed is that pixel: C drops the fraction, toward the first end. */
  lemma CrossingWhole(x1: int, y1: int, x2: int, y2: int, y: int)
    requires y1 != y2 && Between(y1, y, y2)
    ensures Whole(x1, y1, x2, y2, y, Crossing(x1, y1, x2, y2, y))
  {
    hide Quotient;
    CrossingBetween(x1, y1, x2, y2, y);
    SignedProduct(x2 - x1, y - y1);
    QuotientSigned((x2 - x1) * (y - y1), y2 - y1);
    Floor(Abs(x2 - x1) * Abs(y - y1), Abs(y2 - y1));
  }

  /** On coordinates of at most 15 bits no product of the clipping arithmetic leaves 32 bits. */
  lemma ProductsFit(x1: int, y1: int, x2: int, y2: int, y: int)
    requires forall z :: z in {x1, y1, x2, y2, y} ==> Abs(z) <= 0x3FFF
    ensures Abs((x2 - x1) * (y - y1)) <= 0x7FFF_FFFF
  {
    assert Abs(x1) <= 0x3FFF && Abs(x2) <= 0x3FFF && Abs(y1) <= 0x3FFF && Abs(y) <= 0x3FFF;
    ProductFits(x2 - x1, y - y1);
  }

  lemma ProductFits(a: int, b: int)
    requires Abs(a) <= 0x7FFE && Abs(b) <= 0x7FFE
    ensures Abs(a * b) <= 0x7FFF_FFFF
  {
    SignedProduct(a, b);
    ProductMono(Abs(a), Abs(b), 0x7FFE);
  }

  /** The crossing is off the exact line by less than one pixel. */
  lemma CrossingNear(x1: int, y1: int, x2: int, y2: int, y: int)
    requires y1 != y2
    ensures Abs((Crossing(x1, y1, x2, y2, y) - x1) * (y2 - y1) - (x2 - x1) * (y - y1)) < Abs(y2 - y1)
  {
    QuotientNear((x2 - x1) * (y - y1), y2 - y1);
  }

  lemma QuotientNear(a: int, b: int)
    requires b != 0
    ensures Abs(Quotient(a, b) * b - a) < Abs(b)
  {
    var m, n: nat := Abs(a), Abs(b);
    assert m == m / n * n + m % n;
    var q := m / n;
    assert Quotient(a, b) == q || Quotient(a, b) == -q;
    if (a >= 0 && b > 0) || (a < 0 && b < 0) {
      assert Quotient(a, b) == q;
    } else {
      assert Quotient(a, b) == -q;
    }
  }

  /** A pixel as a point of the plane. */
  function At(x: int, y: int): Spot {
    Spot(x as real, y as real)
  }

  lemma {:induction false} ProductReal(a: int, n: nat)
    ensures (a * n) as real == a as real * n as real
  {
    if n > 0 {
      ProductReal(a, n - 1);
      assert a * n == a * (n - 1) + a;
    }
  }

  lemma SignedReal(a: int, b: int)
    ensures (a * b) as real == a as real * b as real
  {
    if b >= 0 {
      ProductReal(a, b);
    } else {
      ProductReal(a, -b);
      assert a * b == -(a * -b);
    }
  }

  /** A product with d that is less than d in size has a factor of less than 1. */
  lemma FactorBelow(w: real, d: real, p: real)
    requires d != 0.0 && p == w * d && -(if d > 0.0 then d else -d) < p < (if d > 0.0 then d else -d)
    ensures Near(w, 0.0, 1.0)
  {
    var m := if d > 0.0 then d else -d;
    if w > 1.0 {
      MulMono(m, 1.0, w);
    } else if w < -1.0 {
      MulMono(m, w, -1.0);
    }
  }

  lemma NearReal(q: int, a: int, b: int, n: int)
    requires b != 0 && Abs(q * b - a * n) < Abs(b)
    ensures var p, d := q as real * b as real - a as real * n as real, b as real;
            -(if d > 0.0 then d else -d) < p < (if d > 0.0 then d else -d)
  {
    SignedReal(q, b);
    SignedReal(a, n);
    var u, w := q * b, a * n;
    assert u as real - w as real == (u - w) as real;
  }

  lemma RealCrossing(q: real, a: real, c: real, d: real, n: real)
    requires d != 0.0 && c * d == n
    requires -(if d > 0.0 then d else -d) < q * d - a * n < (if d > 0.0 then d else -d)
    ensures Near(q, Part(c, a), 1.0)
  {
    OffBy(q, c, a, d, n);
    FactorBelow(q - c * a, d, q * d - a * n);
  }

  lemma OffBy(q: real, c: real, a: real, d: real, n: real)
    requires c * d == n
    ensures (q - c * a) * d == q * d - a * n
  {
    assert c * a * d == a * (c * d);
  }

  lemma Positive(x: real, y: real)
    requires x > 0.0 && y > 0.0
    ensures x * y > 0.0
  {
  }

  lemma FractionOf(n: real, d: real)
    requires d != 0.0 && (0.0 <= n <= d || d <= n <= 0.0)
    ensures n / d * d == n && Fraction(n / d)
  {
    var c := n / d;
    if d > 0.0 {
      if c > 1.0 {
        Positive(c - 1.0, d);
      } else if c < 0.0 {
        Positive(-c, d);
      }
    } else {
      if c > 1.0 {
        Positive(c - 1.0, -d);
      } else if c < 0.0 {
        Positive(-c, -d);
      }
    }
  }

  /** Where a row between the two ends is crossed, as a fraction of the line, and how far off the computed pixel is. */
  lemma CrossingFraction(x1: int, y1: int, x2: int, y2: int, y: int) returns (c: real)
    requires y1 != y2 && Between(y1, y, y2)
    ensures Fraction(c) && Mix(y1 as real, y2 as real, c) == y as real
    ensures Near(Crossing(x1, y1, x2, y2, y) as real, Mix(x1 as real, x2 as real, c), 1.0)
  {
    c := FractionAt(y1, y2, y);
    CrossingNear(x1, y1, x2, y2, y);
    hide Crossing, Part;
    CrossingOff(Crossing(x1, y1, x2, y2, y) - x1, x2 - x1, y2 - y1, y - y1, c);
  }

  lemma FractionAt(y1: int, y2: int, y: int) returns (c: real)
    requires y1 != y2 && Between(y1, y, y2)
    ensures Fraction(c) && Mix(y1 as real, y2 as real, c) == y as real
    ensures c * (y2 - y1) as real == (y - y1) as real
  {
    var d, n := (y2 - y1) as real, (y - y1) as real;
    c := n / d;
    FractionOf(n, d);
    PartIs(c, d, n);
    hide Part;
  }

  lemma CrossingOff(q: int, a: int, b: int, n: int, c: real)
    requires b != 0 && Abs(q * b - a * n) < Abs(b) && c * b as real == n as real
    ensures Near(q as real, Part(c, a as real), 1.0)
  {
    hide Part;
    NearReal(q, a, b, n);
    RealCrossing(q as real, a as real, c, b as real, n as real);
  }

  lemma PartIs(c: real, d: real, n: real)
    requires c * d == n
    ensures Part(c, d) == n
  {
  }

  /** Edge e of the region, 1 top, 2 bottom, 4 left, 8 right, is crossed: some end lies beyond it. */
  predicate Beyond(r: Rectangle, e: nat, x: int, y: int) {
    (e == 1 && y < r.yMin) || (e == 2 && y > r.yMax) || (e == 4 && x < r.xMin) || (e == 8 && x > r.xMax)
  }

  function Violated(r: Rectangle, e: nat, x1: int, y1: int, x2: int, y2: int): nat {
    if Beyond(r, e, x1, y1) || Beyond(r, e, x2, y2) then 1 else 0
  }

  /** How many edges are crossed; every pass of the clipping loop lowers it. */
  function Violations(r: Rectangle, x1: int, y1: int, x2: int, y2: int): nat {
    Violated(r, 1, x1, y1, x2, y2) + Violated(r, 2, x1, y1, x2, y2)
    + Violated(r, 4, x1, y1, x2, y2) + Violated(r, 8, x1, y1, x2, y2)
  }

  lemma FourEdges(r: Rectangle, x1: int, y1: int, x2: int, y2: int)
    ensures Violations(r, x1, y1, x2, y2) <= 4
  {
  }

  /** Point z lies in the box spanned by the two ends. */
  predicate InBox(x1: int, y1: int, x2: int, y2: int, x: int, y: int) {
    Between(x1, x, x2) && Between(y1, y, y2)
  }

  /** Spot p is beyond edge e, and c is on it. */
  predicate Leaves(r: Rectangle, e: nat, p: Spot, c: Spot) {
    || (e == 1 && p.y < r.yMin as real == c.y)
    || (e == 2 && p.y > r.yMax as real == c.y)
    || (e == 4 && p.x < r.xMin as real == c.x)
    || (e == 8 && p.x > r.xMax as real == c.x)
  }

  /** z lies inside the region, at least k away from its edges. */
  predicate Deep(r: Rectangle, z: Spot, k: real) {
    && r.xMin as real + k <= z.x <= r.xMax as real - k
    && r.yMin as real + k <= z.y <= r.yMax as real - k
  }

  /**
    The line from p to q is what is left of the line from a to b: its ends are within k of that line, and
    every point of that line which is at least k inside the region is within k of what is left.
   */
  ghost predicate Clipped(r: Rectangle, a: Spot, b: Spot, p: Spot, q: Spot, k: real) {
    && Passes(a, b, p, k) && Passes(a, b, q, k)
    && forall t: real :: Fraction(t) && Deep(r, Along(a, b, t), k) ==> Passes(p, q, Along(a, b, t), k)
  }

  lemma PassesMore(p: Spot, q: Spot, z: Spot, k: real, l: real)
    requires Passes(p, q, z, k) && k <= l
    ensures Passes(p, q, z, l)
  {
    hide Along;
    var t: real :| Fraction(t) && Close(z, Along(p, q, t), k);
    assert Fraction(t) && Close(z, Along(p, q, t), l);
  }

  lemma PassesSelf(p: Spot, q: Spot, t: real)
    requires Fraction(t)
    ensures Passes(p, q, Along(p, q, t), 0.0)
  {
    hide Along;
    assert Close(Along(p, q, t), Along(p, q, t), 0.0);
  }

  lemma ClippedStart(r: Rectangle, a: Spot, b: Spot)
    ensures Clipped(r, a, b, a, b, 0.0)
  {
    hide Along, Passes, Deep;
    AlongBack(a, b, 0.0);
    PassesSelf(a, b, 0.0);
    PassesSelf(a, b, 1.0);
    forall t: real | Fraction(t) && Deep(r, Along(a, b, t), 0.0)
      ensures Passes(a, b, Along(a, b, t), 0.0)
    {
      PassesSelf(a, b, t);
    }
  }

  lemma ClippedMore(r: Rectangle, a: Spot, b: Spot, p: Spot, q: Spot, k: real, l: real)
    requires Clipped(r, a, b, p, q, k) && k <= l
    ensures Clipped(r, a, b, p, q, l)
  {
    hide Along, Passes;
    PassesMore(a, b, p, k, l);
    PassesMore(a, b, q, k, l);
    forall t: real | Fraction(t) && Deep(r, Along(a, b, t), l)
      ensures Passes(p, q, Along(a, b, t), l)
    {
      assert Deep(r, Along(a, b, t), k);
      PassesMore(p, q, Along(a, b, t), k, l);
    }
  }

  lemma ClippedBack(r: Rectangle, a: Spot, b: Spot, p: Spot, q: Spot, k: real)
    requires Clipped(r, a, b, p, q, k)
    ensures Clipped(r, a, b, q, p, k)
  {
    hide Along, Passes, Deep;
    forall t: real | Fraction(t) && Deep(r, Along(a, b, t), k)
      ensures Passes(q, p, Along(a, b, t), k)
    {
      PassesBack(p, q, Along(a, b, t), k);
    }
  }

  /** A point near a point of a segment whose ends are near a line is near the line. */
  lemma PassesThrough(a: Spot, b: Spot, p: Spot, q: Spot, c: real, z: Spot, k: real)
    requires Passes(a, b, p, k) && Passes(a, b, q, k) && Fraction(c) && Close(z, Along(p, q, c), 1.0)
    ensures Passes(a, b, z, k + 1.0)
  {
    hide Along, Close, Mix;
    var u: real :| Fraction(u) && Close(p, Along(a, b, u), k);
    var w: real :| Fraction(w) && Close(q, Along(a, b, w), k);
    AlongClose(p, q, Along(a, b, u), Along(a, b, w), c, k);
    AlongAlong(a, b, u, w, c);
    CloseAdds(z, Along(p, q, c), Along(a, b, Mix(u, w, c)), 1.0, k);
    assert 1.0 + k == k + 1.0;
    assert Fraction(Mix(u, w, c)) && Close(z, Along(a, b, Mix(u, w, c)), k + 1.0);
  }

  /** In front of the crossing the segment is not inside the region. */
  lemma FrontOutside(r: Rectangle, p: Spot, q: Spot, c: real, e: nat, s: real)
    requires 0.0 <= s <= c <= 1.0 && Leaves(r, e, p, Along(p, q, c))
    ensures !Deep(r, Along(p, q, s), 1.0)
    ensures forall z: Spot, k: real :: Close(z, Along(p, q, s), k) ==> !Deep(r, z, k + 1.0)
  {
    hide Mix;
    if e == 1 {
      MixBelow(p.y, q.y, s, c, r.yMin as real);
    } else if e == 2 {
      MixAbove(p.y, q.y, s, c, r.yMax as real);
    } else if e == 4 {
      MixBelow(p.x, q.x, s, c, r.xMin as real);
    } else {
      MixAbove(p.x, q.x, s, c, r.xMax as real);
    }
  }

  /** Moving the first end to the crossing, one pixel off at most. */
  lemma ClippedMove(r: Rectangle, a: Spot, b: Spot, p: Spot, q: Spot, k: real, c: real, e: nat, p': Spot)
    requires Clipped(r, a, b, p, q, k) && k >= 0.0
    requires Fraction(c) && Close(p', Along(p, q, c), 1.0) && Leaves(r, e, p, Along(p, q, c))
    ensures Clipped(r, a, b, p', q, k + 1.0)
  {
    hide Along, Passes, Leaves, Close;
    PassesThrough(a, b, p, q, c, p', k);
    PassesMore(a, b, q, k, k + 1.0);
    forall t: real | Fraction(t) && Deep(r, Along(a, b, t), k + 1.0)
      ensures Passes(p', q, Along(a, b, t), k + 1.0)
    {
      assert Deep(r, Along(a, b, t), k);
      StillPasses(r, p, q, k, c, e, p', Along(a, b, t));
    }
  }

  lemma StillPasses(r: Rectangle, p: Spot, q: Spot, k: real, c: real, e: nat, p': Spot, z: Spot)
    requires Passes(p, q, z, k) && k >= 0.0 && Deep(r, z, k + 1.0)
    requires Fraction(c) && Close(p', Along(p, q, c), 1.0) && Leaves(r, e, p, Along(p, q, c))
    ensures Passes(p', q, z, k + 1.0)
  {
    hide Along, Leaves, Deep;
    var s: real :| Fraction(s) && Close(z, Along(p, q, s), k);
    if s <= c {
      FrontOutside(r, p, q, c, e, s);
    } else {
      var s' := AlongTail(p, q, c, s);
      var m := Along(p, q, c);
      AlongClose(m, q, p', q, s', 1.0);
      CloseAdds(z, Along(p, q, s), Along(p', q, s'), k, 1.0);
      assert Fraction(s') && Close(z, Along(p', q, s'), k + 1.0);
    }
  }

  /** Moving the second end. */
  lemma ClippedSecond(r: Rectangle, a: Spot, b: Spot, p: Spot, q: Spot, k: real, c: real, e: nat, q': Spot)
    requires Clipped(r, a, b, p, q, k) && k >= 0.0
    requires Fraction(c) && Close(q', Along(p, q, c), 1.0) && Leaves(r, e, q, Along(p, q, c))
    ensures Clipped(r, a, b, p, q', k + 1.0)
  {
    hide Along, Leaves, Close, Clipped;
    AlongBack(p, q, c);
    ClippedBack(r, a, b, p, q, k);
    ClippedMove(r, a, b, q, p, k, 1.0 - c, e, q');
    ClippedBack(r, a, b, q', p, k + 1.0);
  }

  lemma NothingDeep(r: Rectangle, a: Spot, b: Spot, x1: int, y1: int, x2: int, y2: int, k: real)
    requires Clipped(r, a, b, At(x1, y1), At(x2, y2), k)
    requires exists e :: e in {1, 2, 4, 8} && Beyond(r, e, x1, y1) && Beyond(r, e, x2, y2)
    ensures forall t: real :: Fraction(t) ==> !Deep(r, Along(a, b, t), k)
  {
    hide Clipped, Deep, Along, Beyond;
    var e :| e in {1, 2, 4, 8} && Beyond(r, e, x1, y1) && Beyond(r, e, x2, y2);
    forall t: real | Fraction(t)
      ensures !Deep(r, Along(a, b, t), k)
    {
      ClippedAway(r, a, b, e, x1, y1, x2, y2, k, t);
    }
  }

  /** Nothing deep inside is left of a line both of whose ends are beyond one edge. */
  lemma ClippedAway(r: Rectangle, a: Spot, b: Spot, e: nat, x1: int, y1: int, x2: int, y2: int, k: real, t: real)
    requires Clipped(r, a, b, At(x1, y1), At(x2, y2), k) && Beyond(r, e, x1, y1) && Beyond(r, e, x2, y2) && Fraction(t)
    ensures !Deep(r, Along(a, b, t), k)
  {
    var z := Along(a, b, t);
    if Deep(r, z, k) {
      assert Passes(At(x1, y1), At(x2, y2), z, k);
      hide Along;
      var s: real :| Fraction(s) && Close(z, Along(At(x1, y1), At(x2, y2), s), k);
      BeyondAlong(r, e, x1, y1, x2, y2, s);
    }
  }

  lemma BeyondAlong(r: Rectangle, e: nat, x1: int, y1: int, x2: int, y2: int, s: real)
    requires Beyond(r, e, x1, y1) && Beyond(r, e, x2, y2) && Fraction(s)
    ensures var z := Along(At(x1, y1), At(x2, y2), s);
            z.x < r.xMin as real || z.x > r.xMax as real || z.y < r.yMin as real || z.y > r.yMax as real
  {
    hide Mix;
    var lx, hx := if x1 < x2 then x1 else x2, if x1 < x2 then x2 else x1;
    var ly, hy := if y1 < y2 then y1 else y2, if y1 < y2 then y2 else y1;
    MixBound(x1 as real, x2 as real, s, lx as real, hx as real);
    MixBound(y1 as real, y2 as real, s, ly as real, hy as real);
  }

  /** The two ends of a line under way. */
  datatype Ends = Ends(x1: int, y1: int, x2: int, y2: int)

  /** The end (ex, ey) of the line is moved to (x, y): to the first edge, top, bottom, left, right, that it is beyond. */
  predicate Moves(r: Rectangle, a: Ends, ex: int, ey: int, x: int, y: int) {
    if ey < r.yMin then y == r.yMin && Whole(a.x1, a.y1, a.x2, a.y2, r.yMin, x)
    else if ey > r.yMax then y == r.yMax && Whole(a.x1, a.y1, a.x2, a.y2, r.yMax, x)
    else if ex < r.xMin then x == r.xMin && Whole(a.y1, a.x1, a.y2, a.x2, r.xMin, y)
    else x == r.xMax && Whole(a.y1, a.x1, a.y2, a.x2, r.xMax, y)
  }

  /** Both ends are beyond the same edge. */
  predicate Away(r: Rectangle, a: Ends) {
    || (a.y1 < r.yMin && a.y2 < r.yMin) || (a.y1 > r.yMax && a.y2 > r.yMax)
    || (a.x1 < r.xMin && a.x2 < r.xMin) || (a.x1 > r.xMax && a.x2 > r.xMax)
  }

  /** A pass of the clipping: the first end moves while it is outside, then the second. */
  predicate ClipStep(r: Rectangle, a: Ends, b: Ends) {
    && !(r.Holds(a.x1, a.y1) && r.Holds(a.x2, a.y2)) && !Away(r, a)
    && if !r.Holds(a.x1, a.y1) then b.x2 == a.x2 && b.y2 == a.y2 && Moves(r, a, a.x1, a.y1, b.x1, b.y1)
       else b.x1 == a.x1 && b.y1 == a.y1 && Moves(r, a, a.x2, a.y2, b.x2, b.y2)
  }

  /** The whole clipping, pass by pass, up to ends that are inside, or beyond one edge. */
  ghost predicate ClipRun(r: Rectangle, trace: seq<Ends>) {
    && trace != [] && (forall i :: 0 <= i < |trace| - 1 ==> ClipStep(r, trace[i], trace[i + 1]))
  }

  ghost predicate ClipsTo(r: Rectangle, a: Ends, visible: bool, b: Ends) {
    && (if visible then r.Holds(b.x1, b.y1) && r.Holds(b.x2, b.y2) else Away(r, b))
    && exists trace :: Traced(r, a, trace, b)
  }

  ghost predicate Traced(r: Rectangle, a: Ends, trace: seq<Ends>, b: Ends) {
    ClipRun(r, trace) && trace[0] == a && trace[|trace| - 1] == b
  }

  lemma StepUnique(r: Rectangle, a: Ends, b: Ends, c: Ends)
    requires ClipStep(r, a, b) && ClipStep(r, a, c)
    ensures b == c
  {
    hide Whole;
    var ex, ey := if r.Holds(a.x1, a.y1) then a.x2 else a.x1, if r.Holds(a.x1, a.y1) then a.y2 else a.y1;
    var ox, oy := if r.Holds(a.x1, a.y1) then b.x2 else b.x1, if r.Holds(a.x1, a.y1) then b.y2 else b.y1;
    var px, py := if r.Holds(a.x1, a.y1) then c.x2 else c.x1, if r.Holds(a.x1, a.y1) then c.y2 else c.y1;
    if ey < r.yMin {
      WholeUnique(a.x1, a.y1, a.x2, a.y2, r.yMin, ox, px);
    } else if ey > r.yMax {
      WholeUnique(a.x1, a.y1, a.x2, a.y2, r.yMax, ox, px);
    } else if ex < r.xMin {
      WholeUnique(a.y1, a.x1, a.y2, a.x2, r.xMin, oy, py);
    } else {
      WholeUnique(a.y1, a.x1, a.y2, a.x2, r.xMax, oy, py);
    }
  }

  /** The given line determines the clipped one. */
  lemma {:induction false} RunUnique(r: Rectangle, t: seq<Ends>, u: seq<Ends>)
    requires r.Valid() && ClipRun(r, t) && ClipRun(r, u) && t[0] == u[0]
    requires Settled(r, t[|t| - 1]) && Settled(r, u[|u| - 1])
    ensures t == u
    decreases |t|
  {
    hide ClipStep, Away;
    if |t| == 1 || |u| == 1 {
      SettledStops(r, t, u);
    } else {
      StepUnique(r, t[0], t[1], u[1]);
      RunTail(r, t);
      RunTail(r, u);
      RunUnique(r, t[1..], u[1..]);
      assert t == [t[0]] + t[1..] && u == [u[0]] + u[1..];
    }
  }

  predicate Settled(r: Rectangle, a: Ends) {
    (r.Holds(a.x1, a.y1) && r.Holds(a.x2, a.y2)) || Away(r, a)
  }

  lemma SettledStops(r: Rectangle, t: seq<Ends>, u: seq<Ends>)
    requires ClipRun(r, t) && ClipRun(r, u) && t[0] == u[0] && (|t| == 1 || |u| == 1)
    requires Settled(r, t[|t| - 1]) && Settled(r, u[|u| - 1])
    ensures t == u
  {
    hide ClipStep, Settled;
    if |t| > 1 {
      NoStep(r, t[0], t[1]);
    }
    if |u| > 1 {
      NoStep(r, u[0], u[1]);
    }
  }

  lemma NoStep(r: Rectangle, a: Ends, b: Ends)
    requires Settled(r, a)
    ensures !ClipStep(r, a, b)
  {
    hide Moves, Away;
  }

  lemma RunTail(r: Rectangle, t: seq<Ends>)
    requires ClipRun(r, t) && |t| > 1
    ensures ClipRun(r, t[1..])
  {
    hide ClipStep;
    forall i | 0 <= i < |t| - 2
      ensures ClipStep(r, t[1..][i], t[1..][i + 1])
    {
      assert ClipStep(r, t[i + 1], t[i + 2]);
    }
  }

  lemma TraceStart(r: Rectangle, a: Ends)
    ensures Traced(r, a, [a], a)
  {
  }

  lemma TraceMore(r: Rectangle, a: Ends, trace: seq<Ends>, b: Ends, c: Ends)
    requires Traced(r, a, trace, b) && ClipStep(r, b, c)
    ensures Traced(r, a, trace + [c], c)
  {
    hide ClipStep;
  }

  /** z is on edge e of the region. */
  predicate OnEdge(r: Rectangle, e: nat, x: int, y: int) {
    (e == 1 && y == r.yMin) || (e == 2 && y == r.yMax) || (e == 4 && x == r.xMin) || (e == 8 && x == r.xMax)
  }

  /** An end moved onto the edge it was beyond, toward the other end, is beyond fewer edges. */
  lemma FewerEdges(r: Rectangle, e: nat, x1: int, y1: int, x2: int, y2: int, x: int, y: int)
    requires r.Valid() && Beyond(r, e, x1, y1) && !Beyond(r, e, x2, y2) && OnEdge(r, e, x, y) && InBox(x1, y1, x2, y2, x, y)
    ensures Violations(r, x, y, x2, y2) < Violations(r, x1, y1, x2, y2)
    ensures Violations(r, x2, y2, x, y) < Violations(r, x2, y2, x1, y1)
  {
  }

  /** The new position of the end whose code is given: on the edge its lowest code bit names, near where the line crosses it. */
  method MoveEnd(r: Rectangle, code: nat, ghost first: bool, x1: int, y1: int, x2: int, y2: int)
    returns (x: int, y: int, ghost c: real, ghost e: nat)
    requires r.Valid() && code != 0
    requires code == if first then ClipCode(r, x1, y1) else ClipCode(r, x2, y2)
    requires !Share(ClipCode(r, x1, y1), ClipCode(r, x2, y2))
    ensures InBox(x1, y1, x2, y2, x, y)
    ensures first ==> Violations(r, x, y, x2, y2) < Violations(r, x1, y1, x2, y2)
    ensures !first ==> Violations(r, x1, y1, x, y) < Violations(r, x1, y1, x2, y2)
    ensures Fraction(c) && Close(At(x, y), Along(At(x1, y1), At(x2, y2), c), 1.0)
    ensures first ==> Leaves(r, e, At(x1, y1), Along(At(x1, y1), At(x2, y2), c))
    ensures !first ==> Leaves(r, e, At(x2, y2), Along(At(x1, y1), At(x2, y2), c))
    ensures first ==> Moves(r, Ends(x1, y1, x2, y2), x1, y1, x, y)
    ensures !first ==> Moves(r, Ends(x1, y1, x2, y2), x2, y2, x, y)
  {
    CodeMeans(r, x1, y1);
    CodeMeans(r, x2, y2);
    hide Bit, ClipCode, Mix, Quotient, Fraction, Whole, Violations;
    if Bit(code, 1) {
      CrossingBetween(x1, y1, x2, y2, r.yMin);
      CrossingWhole(x1, y1, x2, y2, r.yMin);
      c := CrossingFraction(x1, y1, x2, y2, r.yMin);
      x := x1 + Quotient((x2 - x1) * (r.yMin - y1), y2 - y1);
      y := r.yMin;
      e := 1;
    } else if Bit(code, 2) {
      CrossingBetween(x1, y1, x2, y2, r.yMax);
      CrossingWhole(x1, y1, x2, y2, r.yMax);
      c := CrossingFraction(x1, y1, x2, y2, r.yMax);
      x := x1 + Quotient((x2 - x1) * (r.yMax - y1), y2 - y1);
      y := r.yMax;
      e := 2;
    } else if Bit(code, 4) {
      CrossingBetween(y1, x1, y2, x2, r.xMin);
      CrossingWhole(y1, x1, y2, x2, r.xMin);
      c := CrossingFraction(y1, x1, y2, x2, r.xMin);
      x := r.xMin;
      y := y1 + Quotient((y2 - y1) * (r.xMin - x1), x2 - x1);
      e := 4;
    } else {
      CrossingBetween(y1, x1, y2, x2, r.xMax);
      CrossingWhole(y1, x1, y2, x2, r.xMax);
      c := CrossingFraction(y1, x1, y2, x2, r.xMax);
      x := r.xMax;
      y := y1 + Quotient((y2 - y1) * (r.xMax - x1), x2 - x1);
      e := 8;
    }
    if first {
      FewerEdges(r, e, x1, y1, x2, y2, x, y);
    } else {
      FewerEdges(r, e, x2, y2, x1, y1, x, y);
    }
  }

  lemma BoxInBox(a1: int, b1: int, a2: int, b2: int, x1: int, y1: int, x2: int, y2: int, x: int, y: int)
    requires InBox(a1, b1, a2, b2, x1, y1) && InBox(a1, b1, a2, b2, x2, y2) && InBox(x1, y1, x2, y2, x, y)
    ensures InBox(a1, b1, a2, b2, x, y)
  {
  }

  lemma BoxEnds(a1: int, b1: int, a2: int, b2: int)
    ensures InBox(a1, b1, a2, b2, a1, b1) && InBox(a1, b1, a2, b2, a2, b2)
  {
  }

  lemma StepMoves(r: Rectangle, x1: int, y1: int, x2: int, y2: int, first: bool, x: int, y: int)
    requires r.Valid() && !(r.Holds(x1, y1) && r.Holds(x2, y2)) && first == !r.Holds(x1, y1)
    requires !Share(ClipCode(r, x1, y1), ClipCode(r, x2, y2))
    requires Moves(r, Ends(x1, y1, x2, y2), if first then x1 else x2, if first then y1 else y2, x, y)
    ensures ClipStep(r, Ends(x1, y1, x2, y2), if first then Ends(x, y, x2, y2) else Ends(x1, y1, x, y))
  {
    CodeMeans(r, x1, y1);
    CodeMeans(r, x2, y2);
    hide Bit, ClipCode, Moves;
  }

  /** What the clipping keeps: the line from a has come to b in k moves, and at most 4 - k are left. */
  ghost predicate Under(r: Rectangle, a: Ends, b: Ends, k: nat, trace: seq<Ends>) {
    && Traced(r, a, trace, b)
    && InBox(a.x1, a.y1, a.x2, a.y2, b.x1, b.y1) && InBox(a.x1, a.y1, a.x2, a.y2, b.x2, b.y2)
    && (r.Holds(a.x1, a.y1) ==> b.x1 == a.x1 && b.y1 == a.y1) && (r.Holds(a.x2, a.y2) ==> b.x2 == a.x2 && b.y2 == a.y2)
    && (Share(ClipCode(r, a.x1, a.y1), ClipCode(r, a.x2, a.y2)) ==> b == a)
    && k + Violations(r, b.x1, b.y1, b.x2, b.y2) <= 4
    && Clipped(r, At(a.x1, a.y1), At(a.x2, a.y2), At(b.x1, b.y1), At(b.x2, b.y2), k as real)
  }

  lemma UnderStart(r: Rectangle, a: Ends)
    ensures Under(r, a, a, 0, [a])
  {
    hide Clipped, At;
    TraceStart(r, a);
    hide Traced, Violations, ClipCode, Share;
    FourEdges(r, a.x1, a.y1, a.x2, a.y2);
    ClippedStart(r, At(a.x1, a.y1), At(a.x2, a.y2));
  }

  lemma UnderMore(r: Rectangle, a: Ends, b: Ends, k: nat, trace: seq<Ends>, c: Ends)
    requires Under(r, a, b, k, trace) && ClipStep(r, b, c) && !Share(ClipCode(r, b.x1, b.y1), ClipCode(r, b.x2, b.y2))
    requires InBox(b.x1, b.y1, b.x2, b.y2, c.x1, c.y1) && InBox(b.x1, b.y1, b.x2, b.y2, c.x2, c.y2)
    requires Violations(r, c.x1, c.y1, c.x2, c.y2) < Violations(r, b.x1, b.y1, b.x2, b.y2)
    requires Clipped(r, At(a.x1, a.y1), At(a.x2, a.y2), At(c.x1, c.y1), At(c.x2, c.y2), (k + 1) as real)
    ensures Under(r, a, c, k + 1, trace + [c])
  {
    hide Moves, Away, Clipped, At, Traced, Violations, ClipCode, Share;
    TraceMore(r, a, trace, b, c);
    hide InBox;
    BoxInBox(a.x1, a.y1, a.x2, a.y2, b.x1, b.y1, b.x2, b.y2, c.x1, c.y1);
    BoxInBox(a.x1, a.y1, a.x2, a.y2, b.x1, b.y1, b.x2, b.y2, c.x2, c.y2);
  }

  /** A pass of the loop of GrLineClip: the first end moves if it is outside, else the second. */
  method ClipPass(r: Rectangle, code1: nat, code2: nat, x1: int, y1: int, x2: int, y2: int, ghost a: Ends, ghost k: nat, ghost trace: seq<Ends>)
    returns (x: int, y: int)
    requires r.Valid() && code1 == ClipCode(r, x1, y1) && code2 == ClipCode(r, x2, y2)
    requires !(code1 == 0 && code2 == 0) && !Share(code1, code2) && Under(r, a, Ends(x1, y1, x2, y2), k, trace)
    ensures var next := if code1 != 0 then Ends(x, y, x2, y2) else Ends(x1, y1, x, y);
            Under(r, a, next, k + 1, trace + [next]) && Violations(r, next.x1, next.y1, next.x2, next.y2) < Violations(r, x1, y1, x2, y2)
  {
    CodeInside(r, x1, y1);
    CodeInside(r, x2, y2);
    hide Moves, Bit, ClipCode, Share, Clipped, Along, Close, Leaves, At, Violations, Fraction, InBox, ClipStep, Under;
    var code := if code1 != 0 then code1 else code2;
    ghost var c, e;
    x, y, c, e := MoveEnd(r, code, code1 != 0, x1, y1, x2, y2);
    StepMoves(r, x1, y1, x2, y2, code1 != 0, x, y);
    MovedUnder(r, a, Ends(x1, y1, x2, y2), k, trace, code1 != 0, c, e, x, y);
  }

  lemma MovedUnder(r: Rectangle, a: Ends, b: Ends, k: nat, trace: seq<Ends>, first: bool, c: real, e: nat, x: int, y: int)
    requires Under(r, a, b, k, trace) && !Share(ClipCode(r, b.x1, b.y1), ClipCode(r, b.x2, b.y2))
    requires InBox(b.x1, b.y1, b.x2, b.y2, x, y)
    requires Fraction(c) && Close(At(x, y), Along(At(b.x1, b.y1), At(b.x2, b.y2), c), 1.0)
    requires Leaves(r, e, if first then At(b.x1, b.y1) else At(b.x2, b.y2), Along(At(b.x1, b.y1), At(b.x2, b.y2), c))
    requires var next := if first then Ends(x, y, b.x2, b.y2) else Ends(b.x1, b.y1, x, y);
             ClipStep(r, b, next) && Violations(r, next.x1, next.y1, next.x2, next.y2) < Violations(r, b.x1, b.y1, b.x2, b.y2)
    ensures var next := if first then Ends(x, y, b.x2, b.y2) else Ends(b.x1, b.y1, x, y);
            Under(r, a, next, k + 1, trace + [next])
  {
    hide Clipped, Along, Close, Leaves, At, Violations, ClipStep, ClipCode, Share, Under;
    var p, q := At(a.x1, a.y1), At(a.x2, a.y2);
    UnderClipped(r, a, b, k, trace);
    BoxEnds(b.x1, b.y1, b.x2, b.y2);
    hide InBox;
    if first {
      ClippedMove(r, p, q, At(b.x1, b.y1), At(b.x2, b.y2), k as real, c, e, At(x, y));
      UnderMore(r, a, b, k, trace, Ends(x, y, b.x2, b.y2));
    } else {
      ClippedSecond(r, p, q, At(b.x1, b.y1), At(b.x2, b.y2), k as real, c, e, At(x, y));
      UnderMore(r, a, b, k, trace, Ends(b.x1, b.y1, x, y));
    }
  }

  lemma UnderClipped(r: Rectangle, a: Ends, b: Ends, k: nat, trace: seq<Ends>)
    requires Under(r, a, b, k, trace)
    ensures Clipped(r, At(a.x1, a.y1), At(a.x2, a.y2), At(b.x1, b.y1), At(b.x2, b.y2), k as real)
    ensures k <= 4
    ensures Clipped(r, At(a.x1, a.y1), At(a.x2, a.y2), At(b.x1, b.y1), At(b.x2, b.y2), 4.0)
  {
    hide Clipped, At, Traced, Violations, ClipCode, Share;
    ClippedMore(r, At(a.x1, a.y1), At(a.x2, a.y2), At(b.x1, b.y1), At(b.x2, b.y2), k as real, 4.0);
  }

  /**
    GrLineClip. It ends after at most four moves and never divides by zero. On 1 both ends are inside the
    region; an end that was inside has not moved, and then the line is never rejected; on 0 both ends lie
    beyond one edge. Truncation shifts an end by less than a pixel a move: what is left is within four pixels
    of the given line and covers it but for its parts less than four pixels inside the region, and no point
    of a rejected line is four pixels inside.
   */
  method LineClip(r: Rectangle, a1: int, b1: int, a2: int, b2: int)
    returns (visible: bool, x1: int, y1: int, x2: int, y2: int)
    requires r.Valid()
    ensures ClipsTo(r, Ends(a1, b1, a2, b2), visible, Ends(x1, y1, x2, y2))
    ensures visible ==> r.Holds(x1, y1) && r.Holds(x2, y2)
    ensures InBox(a1, b1, a2, b2, x1, y1) && InBox(a1, b1, a2, b2, x2, y2)
    ensures r.Holds(a1, b1) ==> visible && x1 == a1 && y1 == b1
    ensures r.Holds(a2, b2) ==> visible && x2 == a2 && y2 == b2
    ensures !visible ==> exists e :: e in {1, 2, 4, 8} && Beyond(r, e, x1, y1) && Beyond(r, e, x2, y2)
    ensures Share(ClipCode(r, a1, b1), ClipCode(r, a2, b2)) ==> !visible && x1 == a1 && y1 == b1 && x2 == a2 && y2 == b2
    ensures Clipped(r, At(a1, b1), At(a2, b2), At(x1, y1), At(x2, y2), 4.0)
    ensures !visible ==> forall t: real :: Fraction(t) ==> !Deep(r, Along(At(a1, b1), At(a2, b2), t), 4.0)
  {
    x1, y1, x2, y2 := a1, b1, a2, b2;
    var code1 := ClipCode(r, x1, y1);
    var code2 := ClipCode(r, x2, y2);
    hide ClipCode, Share, Clipped, Deep, Along, At, Violations, Beyond, Fraction, InBox, Away, Traced;
    ghost var a, k: nat, trace := Ends(a1, b1, a2, b2), 0, [Ends(a1, b1, a2, b2)];
    UnderStart(r, a);
    while true
      invariant code1 == ClipCode(r, x1, y1) && code2 == ClipCode(r, x2, y2)
      invariant Under(r, a, Ends(x1, y1, x2, y2), k, trace)
      decreases Violations(r, x1, y1, x2, y2)
    {
      UnderClipped(r, a, Ends(x1, y1, x2, y2), k, trace);
      CodeInside(r, x1, y1);
      CodeInside(r, x2, y2);
      if code1 == 0 && code2 == 0 {
        SharedOutside(r, x1, y1, x2, y2);
        return true, x1, y1, x2, y2;
      }
      if Share(code1, code2) {
        SharedEdge(r, x1, y1, x2, y2);
        NothingDeep(r, At(a1, b1), At(a2, b2), x1, y1, x2, y2, 4.0);
        return false, x1, y1, x2, y2;
      }
      var x, y := ClipPass(r, code1, code2, x1, y1, x2, y2, a, k, trace);
      hide Under;
      if code1 != 0 {
        x1, y1 := x, y;
        code1 := ClipCode(r, x, y);
      } else {
        x2, y2 := x, y;
        code2 := ClipCode(r, x, y);
      }
      k, trace := k + 1, trace + [Ends(x1, y1, x2, y2)];
    }
  }

  lemma SharedOutside(r: Rectangle, x1: int, y1: int, x2: int, y2: int)
    requires r.Valid() && r.Holds(x1, y1) && r.Holds(x2, y2)
    ensures !Share(ClipCode(r, x1, y1), ClipCode(r, x2, y2))
  {
    CodeMeans(r, x1, y1);
    CodeMeans(r, x2, y2);
    hide Bit, ClipCode;
  }

  lemma SharedEdge(r: Rectangle, x1: int, y1: int, x2: int, y2: int)
    requires r.Valid() && Share(ClipCode(r, x1, y1), ClipCode(r, x2, y2))
    ensures exists e :: e in {1, 2, 4, 8} && Beyond(r, e, x1, y1) && Beyond(r, e, x2, y2)
    ensures Away(r, Ends(x1, y1, x2, y2)) && !r.Holds(x1, y1) && !r.Holds(x2, y2)
  {
    CodeMeans(r, x1, y1);
    CodeMeans(r, x2, y2);
    hide Bit, ClipCode;
    var e := if y1 < r.yMin && y2 < r.yMin then 1 else if y1 > r.yMax && y2 > r.yMax then 2
             else if x1 < r.xMin && x2 < r.xMin then 4 else 8;
    assert Beyond(r, e, x1, y1) && Beyond(r, e, x2, y2);
  }
}
