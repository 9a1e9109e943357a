/** An off-screen buffer as an array of packed pixels, and what it means to paint a set of them. */
module PixelBuffers {

  /** Bits per pixel of the two off-screen formats. */
  type Depth = d: nat | d == 1 || d == 4 witness 1

  /** Pixels in a byte. */
  function PerByte(d: Depth): nat {
    if d == 1 then 8 else 2
  }

  /** The bit of pixel k in a byte of the 1-bit format, leftmost pixel in the highest bit. */
  function Bit(k: nat): bv8 {
    if k == 0 then 0x80 else if k == 1 then 0x40 else if k == 2 then 0x20 else if k == 3 then 0x10
    else if k == 4 then 8 else if k == 5 then 4 else if k == 6 then 2 else 1
  }

  lemma BitShift(k: nat)
    requires k < 8
    ensures Bit(k) == 0x80 >> k
  {
    assert 0x80 as bv8 >> 1 == 0x40 && 0x80 as bv8 >> 2 == 0x20 && 0x80 as bv8 >> 3 == 0x10 && 0x80 as bv8 >> 4 == 8;
  }

  /** Pixel k of a byte. */
  function PixelAt(d: Depth, b: bv8, k: nat): bv8 {
    if d == 1 then (if b & Bit(k) != 0 then 1 else 0)
    else if k == 0 then b >> 4 else b & 0xF
  }

  /** A colour of the format. */
  predicate Colour(d: Depth, v: bv8) {
    if d == 1 then v <= 1 else v <= 15
  }

  /** A byte whose pixels all have colour v. */
  function Solid(d: Depth, v: bv8): bv8 {
    if d == 1 then (if v != 0 then 0xFF else 0) else (v << 4) | (v & 0xF)
  }

  lemma SolidPixels(d: Depth, v: bv8, k: nat)
    requires Colour(d, v) && k < PerByte(d)
    ensures PixelAt(d, Solid(d, v), k) == v
  {
  }

  /** The pixels of a byte determine it. */
  lemma SameByte(d: Depth, a: bv8, b: bv8)
    requires forall k :: 0 <= k < PerByte(d) ==> PixelAt(d, a, k) == PixelAt(d, b, k)
    ensures a == b
  {
    assert PixelAt(d, a, 0) == PixelAt(d, b, 0) && PixelAt(d, a, 1) == PixelAt(d, b, 1);
    if d == 1 {
      assert PixelAt(d, a, 2) == PixelAt(d, b, 2) && PixelAt(d, a, 3) == PixelAt(d, b, 3);
      assert PixelAt(d, a, 4) == PixelAt(d, b, 4) && PixelAt(d, a, 5) == PixelAt(d, b, 5);
      assert PixelAt(d, a, 6) == PixelAt(d, b, 6) && PixelAt(d, a, 7) == PixelAt(d, b, 7);
    }
  }

  // ----- the buffer as a row of pixels -----

  /** Pixel p of the whole buffer, counted through all its bytes. */
  function Get(d: Depth, buf: seq<bv8>, p: nat): bv8
    requires p / PerByte(d) < |buf|
  {
    PixelAt(d, buf[p / PerByte(d)], p % PerByte(d))
  }

  /** now is was with exactly the pixels of s painted in colour v. */
  ghost predicate Painted(d: Depth, was: seq<bv8>, now: seq<bv8>, s: iset<nat>, v: bv8) {
    && |now| == |was|
    && forall p: nat :: p / PerByte(d) < |was| ==> Get(d, now, p) == if p in s then v else Get(d, was, p)
  }

  lemma PaintedNothing(d: Depth, was: seq<bv8>, v: bv8)
    ensures Painted(d, was, was, iset{}, v)
  {
  }

  lemma PaintedMore(d: Depth, a: seq<bv8>, b: seq<bv8>, c: seq<bv8>, s: iset<nat>, t: iset<nat>, v: bv8)
    requires Painted(d, a, b, s, v) && Painted(d, b, c, t, v)
    ensures Painted(d, a, c, s + t, v)
  {
    hide Get;
    forall p: nat | p / PerByte(d) < |a|
      ensures Get(d, c, p) == if p in s + t then v else Get(d, a, p)
    {
    }
  }

  lemma Index(d: Depth, o: nat, k: nat)
    requires k < PerByte(d)
    ensures (PerByte(d) * o + k) / PerByte(d) == o && (PerByte(d) * o + k) % PerByte(d) == k
  {
  }

  lemma Split(d: Depth, p: nat)
    ensures p == PerByte(d) * (p / PerByte(d)) + p % PerByte(d) && p % PerByte(d) < PerByte(d)
  {
  }

  /** Equal pixels, equal buffers: a painting has one result. */
  lemma PaintedOnce(d: Depth, was: seq<bv8>, a: seq<bv8>, b: seq<bv8>, s: iset<nat>, v: bv8)
    requires Painted(d, was, a, s, v) && Painted(d, was, b, s, v)
    ensures a == b
  {
    hide PixelAt;
    forall o | 0 <= o < |a|
      ensures a[o] == b[o]
    {
      forall k | 0 <= k < PerByte(d)
        ensures PixelAt(d, a[o], k) == PixelAt(d, b[o], k)
      {
        Index(d, o, k);
        assert Get(d, a, PerByte(d) * o + k) == Get(d, b, PerByte(d) * o + k);
      }
      SameByte(d, a[o], b[o]);
    }
  }

  /** Pixels from i up to j. */
  ghost function Span(i: nat, j: nat): iset<nat> {
    iset p: nat | Within(p, i, j)
  }

  predicate Within(p: nat, i: nat, j: nat) {
    i <= p < j
  }

  lemma SpanJoin(i: nat, j: nat, k: nat)
    requires i <= j <= k
    ensures Span(i, j) + Span(j, k) == Span(i, k)
  {
  }

  lemma InByte(d: Depth, o: nat, p: nat)
    ensures PerByte(d) * o <= p < PerByte(d) * o + PerByte(d) ==> p / PerByte(d) == o
  {
  }

  /** Storing a byte that has colour v in the pixels k .. l, and the old pixels elsewhere. */
  lemma StoreByte(d: Depth, buf: seq<bv8>, o: nat, x: bv8, k: nat, l: nat, v: bv8)
    requires o < |buf| && k <= l <= PerByte(d)
    requires forall j :: 0 <= j < PerByte(d) ==> PixelAt(d, x, j) == if k <= j < l then v else PixelAt(d, buf[o], j)
    ensures Painted(d, buf, buf[o := x], Span(PerByte(d) * o + k, PerByte(d) * o + l), v)
  {
    hide PixelAt;
    forall p: nat | p / PerByte(d) < |buf|
      ensures Get(d, buf[o := x], p)
              == if p in Span(PerByte(d) * o + k, PerByte(d) * o + l) then v else Get(d, buf, p)
    {
      Split(d, p);
      InByte(d, o, p);
    }
  }

  /** Storing a solid byte paints all its pixels. */
  lemma StoreSolid(d: Depth, buf: seq<bv8>, o: nat, v: bv8)
    requires o < |buf| && Colour(d, v)
    ensures Painted(d, buf, buf[o := Solid(d, v)], Span(PerByte(d) * o, PerByte(d) * (o + 1)), v)
  {
    hide PixelAt, Solid, Painted, Span;
    forall j | 0 <= j < PerByte(d)
      ensures PixelAt(d, Solid(d, v), j) == v
    {
      SolidPixels(d, v, j);
    }
    StoreByte(d, buf, o, Solid(d, v), 0, PerByte(d), v);
  }

  // ----- pixel by pixel -----

  /** A byte with pixel k replaced, as the PixelDraw routines do it. */
  function PutPixel(d: Depth, b: bv8, k: nat, v: bv8): bv8 {
    if d == 1 then (b & !Bit(k)) | (if v != 0 then Bit(k) else 0)
    else if k == 0 then (b & !0xF0) | (v << 4) else (b & !0xF) | v
  }

  lemma PutGet(d: Depth, b: bv8, k: nat, v: bv8, j: nat)
    requires Colour(d, v) && k < PerByte(d) && j < PerByte(d)
    ensures PixelAt(d, PutPixel(d, b, k, v), j) == if j == k then v else PixelAt(d, b, j)
  {
    if d == 1 {
      BitsApart(k, j);
      hide Bit;
    }
  }

  lemma BitsApart(k: nat, j: nat)
    requires k < 8 && j < 8
    ensures Bit(k) & Bit(j) == (if j == k then Bit(k) else 0) && Bit(k) != 0
    ensures !Bit(k) & Bit(j) == if j == k then 0 else Bit(j)
  {
  }

  function PixelSet(d: Depth, buf: seq<bv8>, p: nat, v: bv8): (r: seq<bv8>)
    requires p / PerByte(d) < |buf|
    ensures |r| == |buf|
  {
    var o := p / PerByte(d);
    buf[o := PutPixel(d, buf[o], p % PerByte(d), v)]
  }

  lemma PixelPaints(d: Depth, buf: seq<bv8>, p: nat, v: bv8)
    requires p / PerByte(d) < |buf| && Colour(d, v)
    ensures Painted(d, buf, PixelSet(d, buf, p, v), Span(p, p + 1), v)
  {
    hide PixelAt, PutPixel, Painted, Span;
    var o, k := p / PerByte(d), p % PerByte(d);
    Split(d, p);
    forall j | 0 <= j < PerByte(d)
      ensures PixelAt(d, PutPixel(d, buf[o], k, v), j) == if k <= j < k + 1 then v else PixelAt(d, buf[o], j)
    {
      PutGet(d, buf[o], k, v, j);
    }
    StoreByte(d, buf, o, PutPixel(d, buf[o], k, v), k, k + 1, v);
  }

  /** n pixels from p on, drawn one after another. */
  function PixelByPixel(d: Depth, buf: seq<bv8>, p: nat, n: nat, v: bv8): (r: seq<bv8>)
    requires n > 0 ==> (p + n - 1) / PerByte(d) < |buf|
    ensures |r| == |buf|
  {
    if n == 0 then buf
    else
      Smaller(d, p, n);
      PixelSet(d, PixelByPixel(d, buf, p, n - 1, v), p + n - 1, v)
  }

  lemma Smaller(d: Depth, p: nat, n: nat)
    ensures n > 1 ==> (p + n - 2) / PerByte(d) <= (p + n - 1) / PerByte(d)
  {
  }

  lemma {:induction false} RowPaints(d: Depth, buf: seq<bv8>, p: nat, n: nat, v: bv8)
    requires (n > 0 ==> (p + n - 1) / PerByte(d) < |buf|) && Colour(d, v)
    ensures Painted(d, buf, PixelByPixel(d, buf, p, n, v), Span(p, p + n), v)
  {
    hide Painted, PixelSet;
    if n == 0 {
      PaintedNothing(d, buf, v);
      assert Span(p, p) == iset{};
    } else {
      Smaller(d, p, n);
      var mid := PixelByPixel(d, buf, p, n - 1, v);
      RowPaints(d, buf, p, n - 1, v);
      PixelPaints(d, mid, p + n - 1, v);
      PaintedMore(d, buf, mid, PixelByPixel(d, buf, p, n, v), Span(p, p + n - 1), Span(p + n - 1, p + n), v);
      SpanJoin(p, p + n - 1, p + n);
    }
  }
}
