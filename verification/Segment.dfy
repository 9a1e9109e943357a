/** Straight segments in the plane, and how far apart points on them can be. */
module Segments {
  datatype Spot = Spot(x: real, y: real)

  predicate Fraction(t: real) {
    0.0 <= t <= 1.0
  }

  /** The number at fraction t of the way from a to b. */
  function Mix(a: real, b: real, t: real): real {
    a + Part(t, b - a)
  }

  function Part(t: real, d: real): real {
    t * d
  }

  function Along(p: Spot, q: Spot, t: real): Spot {
    Spot(Mix(p.x, q.x, t), Mix(p.y, q.y, t))
  }

  predicate Near(a: real, b: real, k: real) {
    -k <= a - b <= k
  }

  /** At most k apart in either direction. */
  predicate Close(p: Spot, q: Spot, k: real) {
    Near(p.x, q.x, k) && Near(p.y, q.y, k)
  }

  /** Some point of the segment from p to q is within k of z. */
  ghost predicate Passes(p: Spot, q: Spot, z: Spot, k: real) {
    exists t: real :: Fraction(t) && Close(z, Along(p, q, t), k)
  }

  lemma MulMono(t: real, a: real, b: real)
    requires t >= 0.0 && a <= b
    ensures t * a <= t * b
  {
    assert t * (b - a) >= 0.0;
  }

  lemma MixSplit(a: real, b: real, t: real)
    ensures Mix(a, b, t) == (1.0 - t) * a + t * b
  {
  }

  lemma MixBound(a: real, b: real, t: real, lo: real, hi: real)
    requires Fraction(t) && lo <= a <= hi && lo <= b <= hi
    ensures lo <= Mix(a, b, t) <= hi
  {
    hide Mix;
    if a <= b {
      MixUp(a, b, t);
    } else {
      MixEnds(a, b, t);
      MixUp(b, a, 1.0 - t);
    }
  }

  lemma MixUp(a: real, b: real, t: real)
    requires Fraction(t) && a <= b
    ensures a <= Mix(a, b, t) <= b
  {
    hide Part;
    Scaled(t, b - a);
  }

  lemma Scaled(t: real, d: real)
    requires Fraction(t) && d >= 0.0
    ensures 0.0 <= Part(t, d) <= d
  {
    MulMono(d, t, 1.0);
    assert d * t == t * d;
  }

  /** Segments whose ends are close are close all along. */
  lemma MixNear(a: real, b: real, a': real, b': real, t: real, k: real)
    requires Fraction(t) && Near(a, a', k) && Near(b, b', k)
    ensures Near(Mix(a, b, t), Mix(a', b', t), k)
  {
    MixBound(a - a', b - b', t, -k, k);
    MixSplit(a, b, t);
    MixSplit(a', b', t);
    MixSplit(a - a', b - b', t);
    Distribute(1.0 - t, a, a');
    Distribute(t, b, b');
  }

  lemma Distribute(t: real, a: real, b: real)
    ensures t * (a - b) == t * a - t * b
  {
  }

  lemma AlongClose(p: Spot, q: Spot, p': Spot, q': Spot, t: real, k: real)
    requires Fraction(t) && Close(p, p', k) && Close(q, q', k)
    ensures Close(Along(p, q, t), Along(p', q', t), k)
  {
    hide Mix;
    MixNear(p.x, q.x, p'.x, q'.x, t, k);
    MixNear(p.y, q.y, p'.y, q'.y, t, k);
  }

  lemma CloseAdds(p: Spot, q: Spot, r: Spot, k: real, l: real)
    requires Close(p, q, k) && Close(q, r, l)
    ensures Close(p, r, k + l) && Close(q, p, k)
  {
  }

  /** A fraction of a fraction of a segment is one of the segment. */
  lemma MixMix(a: real, b: real, u: real, w: real, s: real)
    ensures Mix(Mix(a, b, u), Mix(a, b, w), s) == Mix(a, b, Mix(u, w, s))
  {
    var d := b - a;
    assert Mix(a, b, w) - Mix(a, b, u) == (w - u) * d;
    assert s * ((w - u) * d) == (s * (w - u)) * d;
    assert u * d + (s * (w - u)) * d == (u + s * (w - u)) * d;
  }

  lemma AlongAlong(p: Spot, q: Spot, u: real, w: real, s: real)
    requires Fraction(u) && Fraction(w) && Fraction(s)
    ensures Fraction(Mix(u, w, s))
    ensures Along(Along(p, q, u), Along(p, q, w), s) == Along(p, q, Mix(u, w, s))
  {
    hide Mix;
    MixBound(u, w, s, 0.0, 1.0);
    MixMix(p.x, q.x, u, w, s);
    MixMix(p.y, q.y, u, w, s);
  }

  lemma MixEnds(a: real, b: real, t: real)
    ensures Mix(a, b, 0.0) == a && Mix(a, b, 1.0) == b && Mix(a, a, t) == a
    ensures Mix(b, a, 1.0 - t) == Mix(a, b, t)
  {
    MixSplit(a, b, t);
    MixSplit(b, a, 1.0 - t);
  }

  lemma AlongBack(p: Spot, q: Spot, t: real)
    ensures Along(q, p, 1.0 - t) == Along(p, q, t)
    ensures Along(p, q, 0.0) == p && Along(p, q, 1.0) == q
  {
    hide Mix;
    MixEnds(p.x, q.x, t);
    MixEnds(p.y, q.y, t);
  }

  lemma PassesBack(p: Spot, q: Spot, z: Spot, k: real)
    requires Passes(p, q, z, k)
    ensures Passes(q, p, z, k)
  {
    hide Along;
    var t: real :| Fraction(t) && Close(z, Along(p, q, t), k);
    AlongBack(p, q, t);
    assert Fraction(1.0 - t) && Close(z, Along(q, p, 1.0 - t), k);
  }

  /** Behind fraction c the segment is the segment from there. */
  lemma AlongTail(p: Spot, q: Spot, c: real, s: real) returns (s': real)
    requires Fraction(c) && Fraction(s) && c < s
    ensures Fraction(s') && Along(p, q, s) == Along(Along(p, q, c), q, s')
  {
    s' := (s - c) / (1.0 - c);
    TailFraction(c, s);
    hide Mix;
    AlongBack(p, q, 1.0);
    AlongAlong(p, q, c, 1.0, s');
  }

  lemma TailFraction(c: real, s: real)
    requires Fraction(c) && Fraction(s) && c < s
    ensures Fraction((s - c) / (1.0 - c)) && Mix(c, 1.0, (s - c) / (1.0 - c)) == s
  {
    var d := 1.0 - c;
    var q := (s - c) / d;
    assert q * d == s - c;
  }

  /** In front of the fraction c at which it takes the value m, a segment that starts at or below m stays there. */
  lemma MixBelow(a: real, b: real, s: real, c: real, m: real)
    requires 0.0 <= s <= c <= 1.0 && a <= m && Mix(a, b, c) == m
    ensures Mix(a, b, s) <= m
  {
    if c > 0.0 {
      var d := b - a;
      assert c * d == m - a;
      if d < 0.0 {
        MulNegative(c, d);
      }
      MulMono(d, s, c);
      assert d * s == s * d && d * c == c * d;
    }
  }

  lemma MulNegative(c: real, d: real)
    requires c > 0.0 && d < 0.0
    ensures c * d < 0.0
  {
  }

  lemma MixAbove(a: real, b: real, s: real, c: real, m: real)
    requires 0.0 <= s <= c <= 1.0 && a >= m && Mix(a, b, c) == m
    ensures Mix(a, b, s) >= m
  {
    MixNegated(a, b, c);
    MixNegated(a, b, s);
    MixBelow(-a, -b, s, c, -m);
  }

  lemma MixNegated(a: real, b: real, t: real)
    ensures Mix(-a, -b, t) == -Mix(a, b, t)
  {
    assert t * (-b - -a) == -(t * (b - a));
  }
}
