/** GrImageDraw, compressed images that lie inside the clipping region. */
module ImageDrawing {
  import opened Words
  import opened Layout
  import Lines
  import opened Lzss

  /** Bits per pixel. */
  type Bpp = b: nat | b == 1 || b == 4 || b == 8 witness 8

  /** A pixel on the display and its index in the palette. */
  datatype Pix = Pix(x: int, y: int, value: nat)

  datatype Image = Image(x: int, y: int, width: nat, height: nat, bpp: Bpp)

  /** Pixels in a byte. */
  function PerByte(bpp: Bpp): nat {
    8 / bpp
  }

  /** Pixel k of a byte; the leftmost one is in the highest bits. */
  function PixelOf(bpp: Bpp, b: byte, k: nat): nat {
    if bpp == 8 then b
    else if bpp == 4 then (if k == 0 then b as int / 16 else b as int % 16)
    else b as int / [128, 64, 32, 16, 8, 4, 2, 1][if k < 8 then k else 7] % 2
  }

  /** Pixel i of packed data whose first pixel is x0 pixels behind a byte boundary. */
  function Value(bpp: Bpp, data: seq<byte>, x0: nat, i: nat): nat {
    var j := x0 % PerByte(bpp) + i;
    if j / PerByte(bpp) < |data| then PixelOf(bpp, data[j / PerByte(bpp)], j % PerByte(bpp)) else 0
  }

  /** The pixels of one DpyPixelDrawMultiple call. */
  function Pixels(x: int, y: int, x0: nat, count: nat, bpp: Bpp, data: seq<byte>): (s: seq<Pix>)
    ensures |s| == count
    ensures forall i :: 0 <= i < count ==> s[i] == Pix(x + i, y, Value(bpp, data, x0, i))
  {
    seq(count, i requires 0 <= i < count => Pix(x + i, y, Value(bpp, data, x0, i)))
  }

  /** The display driver: what has been drawn, in order. */
  class Screen {
    var drawn: seq<Pix>

    constructor ()
      ensures drawn == []
    {
      drawn := [];
    }

    method PixelDrawMultiple(x: int, y: int, x0: nat, count: nat, bpp: Bpp, data: seq<byte>)
      modifies this
      ensures drawn == old(drawn) + Pixels(x, y, x0, count, bpp, data)
    {
      drawn := drawn + Pixels(x, y, x0, count, bpp, data);
    }
  }

  /** Bytes that n pixels of one row take: ((n * bpp) + 7) / 8. */
  function BytesFor(bpp: Bpp, n: nat): nat {
    (n * bpp + 7) / 8
  }

  /** They are just enough. */
  lemma EnoughBytes(bpp: Bpp, n: nat)
    ensures n * bpp <= 8 * BytesFor(bpp, n) < n * bpp + 8
  {
  }

  /** The pixels of a byte make it up, the leftmost one in the highest bits. */
  lemma BytePixels(b: byte)
    ensures PixelOf(8, b, 0) == b
    ensures b == 16 * PixelOf(4, b, 0) + PixelOf(4, b, 1) && PixelOf(4, b, 1) < 16
    ensures b == 128 * PixelOf(1, b, 0) + 64 * PixelOf(1, b, 1) + 32 * PixelOf(1, b, 2) + 16 * PixelOf(1, b, 3)
                 + 8 * PixelOf(1, b, 4) + 4 * PixelOf(1, b, 5) + 2 * PixelOf(1, b, 6) + PixelOf(1, b, 7)
    ensures forall k: nat :: PixelOf(1, b, k) < 2
  {
    BitSum(b);
    forall k: nat | k < 8
      ensures PixelOf(1, b, k) == b as int / [128, 64, 32, 16, 8, 4, 2, 1][k] % 2
    {
    }
  }

  /** Pixel i of a row: the leftmost pixel of a byte is in its highest bits. */
  lemma RowValue(bpp: Bpp, data: seq<byte>, i: nat)
    requires i * bpp < 8 * |data|
    ensures bpp == 8 ==> Value(bpp, data, 0, i) == data[i]
    ensures bpp == 4 ==> Value(bpp, data, 0, i) == PixelOf(4, data[i / 2], i % 2)
    ensures bpp == 1 ==> Value(bpp, data, 0, i) == PixelOf(1, data[i / 8], i % 8)
  {
    hide PixelOf;
    BytePixels(data[i * bpp / 8]);
  }

  lemma BitSum(x: nat)
    requires x < 256
    ensures x == 128 * (x / 128 % 2) + 64 * (x / 64 % 2) + 32 * (x / 32 % 2) + 16 * (x / 16 % 2)
                 + 8 * (x / 8 % 2) + 4 * (x / 4 % 2) + 2 * (x / 2 % 2) + x / 1 % 2
  {
    var h, n := x / 16, x % 16;
    HighBits(x);
    NibbleSum(h);
    NibbleSum(n);
    LowBits(h, n);
  }

  lemma NibbleSum(x: nat)
    requires x < 16
    ensures x == 8 * (x / 8 % 2) + 4 * (x / 4 % 2) + 2 * (x / 2 % 2) + x % 2
  {
  }

  lemma HighBits(x: nat)
    ensures x / 16 / 8 == x / 128 && x / 16 / 4 == x / 64 && x / 16 / 2 == x / 32
  {
  }

  lemma LowBits(h: nat, n: nat)
    ensures (16 * h + n) / 8 % 2 == n / 8 % 2 && (16 * h + n) / 4 % 2 == n / 4 % 2
    ensures (16 * h + n) / 2 % 2 == n / 2 % 2 && (16 * h + n) % 2 == n % 2
  {
    DivAdd(h, n, 8, 2);
    DivAdd(h, n, 4, 4);
    DivAdd(h, n, 2, 8);
    Parity(8 * h, n);
  }

  lemma DivAdd(h: nat, n: nat, d: nat, k: nat)
    requires d > 0 && k * d == 16 && k % 2 == 0
    ensures (16 * h + n) / d % 2 == n / d % 2
  {
    var q, r := n / d, n % d;
    assert n == q * d + r;
    assert 16 * h == k * h * d by {
      assert k * h * d == k * d * h;
    }
    assert (k * h + q) * d == k * h * d + q * d;
    DivUnique(16 * h + n, d, k * h + q, r);
    assert k * h == 2 * (k / 2 * h);
    Parity(k / 2 * h, q);
  }

  lemma Parity(a: int, m: int)
    ensures (2 * a + m) % 2 == m % 2
  {
  }

  // ----- the reference picture: one call a row -----

  ghost function RowBytes(g: Image): nat {
    BytesFor(g.bpp, g.width)
  }

  ghost function Total(g: Image): nat {
    Times(g.height, RowBytes(g))
  }

  /** Row y of the image, drawn in one call from the whole decoded data. */
  ghost function RowPixels(g: Image, full: seq<byte>, y: nat): (s: seq<Pix>)
    requires y < g.height && |full| == Total(g)
    ensures |s| == g.width
  {
    RowInside(g, y);
    Pixels(g.x, g.y + y, 0, g.width, g.bpp, full[Times(y, RowBytes(g))..Times(y, RowBytes(g)) + RowBytes(g)])
  }

  lemma RowInside(g: Image, y: nat)
    requires y < g.height
    ensures Times(y, RowBytes(g)) + RowBytes(g) <= Total(g)
  {
    TimesMono(y, g.height, RowBytes(g));
  }

  /** The first n rows. */
  ghost function Raster(g: Image, full: seq<byte>, n: nat): seq<Pix>
    requires n <= g.height && |full| == Total(g)
  {
    if n == 0 then [] else Raster(g, full, n - 1) + RowPixels(g, full, n - 1)
  }

  // ----- the scan position -----

  /** Position (x1, y) of the scan is byte p of the decoded data; always at a byte boundary of a row. */
  ghost predicate At(g: Image, y: nat, x1: nat, p: nat) {
    && g.width > 0 && y <= g.height
    && x1 % PerByte(g.bpp) == 0
    && p == Times(y, RowBytes(g)) + x1 / PerByte(g.bpp)
    && (if y < g.height then x1 < g.width else x1 == 0)
  }

  /** Everything in front of the scan position is drawn, and nothing else. */
  ghost predicate DrawnTo(g: Image, full: seq<byte>, y: nat, x1: nat, was: seq<Pix>, drawn: seq<Pix>)
    requires y <= g.height && x1 <= g.width && |full| == Total(g)
  {
    drawn == was + Raster(g, full, y) + (if y < g.height then RowPixels(g, full, y)[..x1] else [])
  }

  lemma PerByteCases(bpp: Bpp)
    ensures PerByte(bpp) == if bpp == 1 then 8 else if bpp == 4 then 2 else 1
  {
  }

  /** The byte arithmetic of the row loop, at a byte boundary x1 with a bytes left in the ring. */
  lemma RowArithmetic(bpp: Bpp, w: nat, x1: nat, a: nat)
    requires x1 < w && x1 % PerByte(bpp) == 0
    ensures a * 8 / bpp == a * PerByte(bpp)
    ensures (x1 * bpp - x1 * bpp % 8) / bpp == x1
    ensures BytesFor(bpp, w) == x1 / PerByte(bpp) + BytesFor(bpp, w - x1) && BytesFor(bpp, w - x1) > 0
    ensures BytesFor(bpp, w - x1) > a ==>
              x1 + a * PerByte(bpp) < w && (x1 + a * PerByte(bpp)) % PerByte(bpp) == 0
              && (x1 + a * PerByte(bpp)) / PerByte(bpp) == x1 / PerByte(bpp) + a
    ensures BytesFor(bpp, w - x1) <= a ==> w - x1 <= a * PerByte(bpp)
  {
    PerByteCases(bpp);
    if bpp == 1 {
    } else if bpp == 4 {
    }
  }

  lemma ValueSame(bpp: Bpp, full: seq<byte>, from: nat, row: seq<byte>, x1: nat, data: seq<byte>, i: nat)
    requires x1 % PerByte(bpp) == 0
    requires from + |row| <= |full| && row == full[from..from + |row|]
    requires i / PerByte(bpp) < |data| && x1 / PerByte(bpp) + i / PerByte(bpp) < |row|
    requires data[i / PerByte(bpp)] == full[from + x1 / PerByte(bpp) + i / PerByte(bpp)]
    ensures Value(bpp, data, x1 % 8, i) == Value(bpp, row, 0, x1 + i)
  {
    hide PixelOf;
    ValueIndex(bpp, x1, i);
  }

  lemma ValueIndex(bpp: Bpp, x1: nat, i: nat)
    requires x1 % PerByte(bpp) == 0
    ensures x1 % 8 % PerByte(bpp) == 0 && 0 % PerByte(bpp) == 0
    ensures (x1 + i) / PerByte(bpp) == x1 / PerByte(bpp) + i / PerByte(bpp)
    ensures (x1 + i) % PerByte(bpp) == i % PerByte(bpp)
  {
    PerByteCases(bpp);
    if bpp == 1 {
    } else if bpp == 4 {
    }
  }

  /** n pixels drawn from data that continues the decoded bytes at p are the next n pixels of the row. */
  lemma ChunkPixels(g: Image, full: seq<byte>, y: nat, x1: nat, p: nat, data: seq<byte>, n: nat, a: nat)
    requires |full| == Total(g) && y < g.height && At(g, y, x1, p) && x1 + n <= g.width
    requires a <= |data| && p + a <= |full| && data[..a] == full[p..p + a]
    requires n <= a * PerByte(g.bpp)
    ensures RowPixels(g, full, y)[x1..x1 + n] == Pixels(g.x + x1, g.y + y, x1 % 8, n, g.bpp, data)
  {
    hide Value, BytesFor, Times;
    RowInside(g, y);
    var from := Times(y, RowBytes(g));
    var row := full[from..from + RowBytes(g)];
    forall i | 0 <= i < n
      ensures Value(g.bpp, data, x1 % 8, i) == Value(g.bpp, row, 0, x1 + i)
    {
      ChunkIndex(g.bpp, g.width, x1, n, a, i);
      assert data[..a][i / PerByte(g.bpp)] == full[p..p + a][i / PerByte(g.bpp)];
      ValueSame(g.bpp, full, from, row, x1, data, i);
    }
  }

  lemma ChunkIndex(bpp: Bpp, w: nat, x1: nat, n: nat, a: nat, i: nat)
    requires x1 % PerByte(bpp) == 0 && x1 + n <= w && i < n <= a * PerByte(bpp)
    ensures i / PerByte(bpp) < a
    ensures x1 / PerByte(bpp) + i / PerByte(bpp) < BytesFor(bpp, w)
  {
    PerByteCases(bpp);
    if bpp == 1 {
    } else if bpp == 4 {
    }
  }

  lemma SliceJoin(r: seq<Pix>, x1: nat, n: nat)
    requires x1 + n <= |r|
    ensures r[..x1] + r[x1..x1 + n] == r[..x1 + n]
    ensures r[..|r|] == r
  {
  }

  /** The row goes on behind the ring: all a bytes of it are pixels of this row. */
  lemma RowGoesOn(g: Image, full: seq<byte>, y: nat, x1: nat, p: nat, was: seq<Pix>, drawn: seq<Pix>, data: seq<byte>, a: nat)
    requires |full| == Total(g) && y < g.height && At(g, y, x1, p) && DrawnTo(g, full, y, x1, was, drawn)
    requires a <= |data| && p + a <= |full| && data[..a] == full[p..p + a]
    requires BytesFor(g.bpp, g.width - x1) > a
    ensures var n := a * PerByte(g.bpp);
            && x1 + n < g.width && At(g, y, x1 + n, p + a)
            && DrawnTo(g, full, y, x1 + n, was, drawn + Pixels(g.x + x1, g.y + y, x1 % 8, n, g.bpp, data))
  {
    hide Pixels, BytesFor, Times, RowPixels;
    var n := a * PerByte(g.bpp);
    RowArithmetic(g.bpp, g.width, x1, a);
    ChunkPixels(g, full, y, x1, p, data, n, a);
    var r := RowPixels(g, full, y);
    SliceJoin(r, x1, n);
    assert was + Raster(g, full, y) + r[..x1] + r[x1..x1 + n] == was + Raster(g, full, y) + (r[..x1] + r[x1..x1 + n]);
  }

  /** The rest of the row lies in the ring: the row is finished. */
  lemma RowFinished(g: Image, full: seq<byte>, y: nat, x1: nat, p: nat, was: seq<Pix>, drawn: seq<Pix>, data: seq<byte>)
    requires |full| == Total(g) && y < g.height && At(g, y, x1, p) && DrawnTo(g, full, y, x1, was, drawn)
    requires var a := BytesFor(g.bpp, g.width - x1); a <= |data| && p + a <= |full| && data[..a] == full[p..p + a]
    ensures var n, a := g.width - x1, BytesFor(g.bpp, g.width - x1);
            && At(g, y + 1, 0, p + a)
            && DrawnTo(g, full, y + 1, 0, was, drawn + Pixels(g.x + x1, g.y + y, x1 % 8, n, g.bpp, data))
  {
    hide Pixels, BytesFor, RowPixels;
    var n, a := g.width - x1, BytesFor(g.bpp, g.width - x1);
    RowArithmetic(g.bpp, g.width, x1, a);
    ChunkPixels(g, full, y, x1, p, data, n, a);
    var r := RowPixels(g, full, y);
    SliceJoin(r, x1, n);
    var start := was + Raster(g, full, y);
    assert start + r[..x1] + r[x1..x1 + n] == start + (r[..x1] + r[x1..x1 + n]);
    assert was + (Raster(g, full, y) + r) == start + r;
    if y + 1 < g.height {
      assert RowPixels(g, full, y + 1)[..0] == [];
    }
    ZeroQuotient(g.bpp);
  }

  lemma ZeroQuotient(bpp: Bpp)
    ensures 0 / PerByte(bpp) == 0 && 0 % PerByte(bpp) == 0
  {
    PerByteCases(bpp);
  }

  /** The position after the last byte is the end of the last row. */
  lemma AtEnd(g: Image, y: nat, x1: nat, p: nat)
    requires At(g, y, x1, p)
    ensures p <= Total(g)
    ensures y < g.height ==> p + BytesFor(g.bpp, g.width - x1) <= Total(g) && BytesFor(g.bpp, g.width - x1) > 0
    ensures y == g.height ==> p == Total(g)
  {
    ZeroQuotient(g.bpp);
    hide Times, BytesFor;
    if y < g.height {
      RowArithmetic(g.bpp, g.width, x1, 0);
      RowInside(g, y);
    }
  }

  // ----- the streaming decoder -----

  /** The image lies inside the clipping region. */
  predicate Inside(clip: Lines.Rectangle, g: Image) {
    && clip.xMin <= g.x && g.x + g.width - 1 <= clip.xMax
    && clip.yMin <= g.y && g.y + g.height - 1 <= clip.yMax
  }

  /** One row chunk of the ring loop: the pixels from byte idx of the ring on, clipped to the row. */
  method DrawChunk(d: Screen, clip: Lines.Rectangle, g: Image, ring: seq<byte>, idx: nat, line: int, x1: nat, x0: nat, x2: int)
    requires |ring| == RING && idx < RING && g.width > 0 && x1 < g.width && x1 % PerByte(g.bpp) == 0
    requires Inside(clip, g) && x0 == 0 && x2 == g.width - 1 && clip.yMin <= line
    modifies d
    ensures var n := (RING - idx) * PerByte(g.bpp);
            var m := if n > g.width - x1 then g.width - x1 else n;
            d.drawn == old(d.drawn) + Pixels(g.x + x1, line, x1 % 8, m, g.bpp, ring[idx..])
  {
    hide Pixels;
    RowArithmetic(g.bpp, g.width, x1, RING - idx);
    var num := (RING - idx) * 8 / g.bpp;
    if line >= clip.yMin && x1 + num >= x0 && x1 <= x2 {
      if num > x2 - x1 + 1 {
        num := x2 - x1 + 1;
      }
      d.PixelDrawMultiple(g.x + x1, line, x1 % 8, num, g.bpp, ring[idx..]);
    }
  }

  /**
    The flush of the ring: its first k bytes, which are bytes p .. p + k of the decoded data, are drawn as
    the rows and parts of rows they are. A ring that is not full holds the end of the image.
   */
  method FlushRing(d: Screen, clip: Lines.Rectangle, g: Image, ring: seq<byte>, line0: int, height0: nat, start: nat,
                   ghost full: seq<byte>, ghost p: nat, ghost k: nat, ghost was: seq<Pix>)
    returns (line: int, height: nat, x1: nat)
    requires |ring| == RING && k <= RING && Inside(clip, g) && height0 <= g.height && line0 == g.y + (g.height - height0)
    requires |full| == Total(g) && p + k <= |full| && ring[..k] == full[p..p + k] && (k < RING ==> p + k == |full|)
    requires At(g, g.height - height0, start, p) && DrawnTo(g, full, g.height - height0, start, was, d.drawn)
    modifies d
    ensures height <= height0 && line == g.y + (g.height - height)
    ensures At(g, g.height - height, x1, p + k) && DrawnTo(g, full, g.height - height, x1, was, d.drawn)
  {
    hide Pixels, BytesFor, Times, At, DrawnTo, Raster, Inside, Total;
    LineInside(clip, g);
    line, height, x1 := line0, height0, start;
    AtFacts(g, g.height - height, x1, p);
    var x0, x2 := 0, g.width - 1;
    var idx: nat := 0;
    while idx < RING && height > 0
      invariant idx <= k && height <= height0 && line == g.y + (g.height - height)
      invariant At(g, g.height - height, x1, p + idx)
      invariant x1 <= g.width && DrawnTo(g, full, g.height - height, x1, was, d.drawn)
      decreases RING - idx, height
    {
      ghost var y: nat := g.height - height;
      AtFacts(g, y, x1, p + idx);
      AtEnd(g, y, x1, p + idx);
      RowArithmetic(g.bpp, g.width, x1, RING - idx);
      ghost var drawn := d.drawn;
      ghost var data := ring[idx..];
      DrawChunk(d, clip, g, ring, idx, line, x1, x0, x2);
      x1 := (x1 * g.bpp - x1 * g.bpp % 8) / g.bpp;
      if BytesFor(g.bpp, g.width - x1) > RING - idx {
        RingSlice(ring, full, p, k, idx, RING - idx);
        RowGoesOn(g, full, y, x1, p + idx, was, drawn, data, RING - idx);
        x1 := x1 + (RING - idx) * 8 / g.bpp;
        idx := RING;
      } else {
        RingSlice(ring, full, p, k, idx, BytesFor(g.bpp, g.width - x1));
        RowFinished(g, full, y, x1, p + idx, was, drawn, data);
        idx := idx + BytesFor(g.bpp, g.width - x1);
        x1 := 0;
        line := line + 1;
        height := height - 1;
      }
    }
    AtFacts(g, g.height - height, x1, p + idx);
    AtEnd(g, g.height - height, x1, p + idx);
  }

  lemma LineInside(clip: Lines.Rectangle, g: Image)
    requires Inside(clip, g)
    ensures clip.yMin <= g.y
  {
  }

  lemma AtFacts(g: Image, y: nat, x1: nat, p: nat)
    requires At(g, y, x1, p)
    ensures g.width > 0 && y <= g.height && x1 % PerByte(g.bpp) == 0
    ensures y < g.height ==> x1 < g.width
    ensures x1 <= g.width
  {
    hide Times, BytesFor;
  }

  lemma RingSlice(ring: seq<byte>, full: seq<byte>, p: nat, k: nat, idx: nat, a: nat)
    requires k <= |ring| && p + k <= |full| && ring[..k] == full[p..p + k] && idx + a <= k
    ensures ring[idx..][..a] == full[p + idx..p + idx + a]
  {
    forall i | 0 <= i < a
      ensures ring[idx..][..a][i] == full[p + idx..p + idx + a][i]
    {
      assert ring[..k][idx + i] == full[p..p + k][idx + i];
    }
  }

  /** Where the streaming decoder stands: the bytes out are decoded, those before base are drawn. */
  ghost predicate Streaming(g: Image, full: seq<byte>, out: seq<byte>, ring: seq<byte>, base: nat, idx: nat,
                            height: nat, line: int, x1: nat, was: seq<Pix>, drawn: seq<Pix>) {
    && |full| == Total(g) && out <= full && RingOk(ring, out, base, idx)
    && height <= g.height && line == g.y + (g.height - height)
    && At(g, g.height - height, x1, base) && x1 <= g.width
    && DrawnTo(g, full, g.height - height, x1, was, drawn)
  }

  lemma StreamingFlush(g: Image, full: seq<byte>, out: seq<byte>, ring: seq<byte>, base: nat, idx: nat,
                       height: nat, line: int, x1: nat, was: seq<Pix>, drawn: seq<Pix>)
    requires Streaming(g, full, out, ring, base, idx, height, line, x1, was, drawn)
    ensures idx <= |ring| == RING && base + idx == |out| <= |full| && ring[..idx] == full[base..base + idx]
  {
    hide At, DrawnTo;
  }

  /** The copy loop of a match, up to the end of the ring. */
  method CopyIntoRing(ring: array<byte>, at: nat, m: nat, size: nat, ghost out: seq<byte>, ghost base: nat)
    returns (idx: nat, rest: nat, ghost out': seq<byte>)
    requires ring.Length == RING && m < RING && RingOk(ring[..], out, base, at)
    modifies ring
    ensures RingOk(ring[..], out', base, idx) && rest <= size
    ensures rest == 0 || idx == RING
    ensures Copied(out', m, rest) == Copied(out, m, size)
    ensures size > 0 && at < RING ==> rest < size
  {
    idx, rest, out' := at, size, out;
    while rest > 0 && idx != RING
      invariant rest <= size && at <= idx <= RING && idx - at == size - rest
      invariant RingOk(ring[..], out', base, idx)
      invariant Copied(out', m, rest) == Copied(out, m, size)
      decreases rest
    {
      RingLook(ring[..], out', base, idx, m);
      ghost var was := ring[..];
      ghost var b := Look(out', |out'| - RING + m);
      ring[idx] := ring[(idx + m) % RING];
      assert ring[..] == was[idx := b];
      RingPut(was, out', base, idx, b);
      out' := out' + [b];
      idx := idx + 1;
      rest := rest - 1;
    }
  }

  /** All rows are drawn. */
  ghost predicate Complete(g: Image, full: seq<byte>, height: nat, was: seq<Pix>, drawn: seq<Pix>) {
    |full| == Total(g) && height == 0 && drawn == was + Raster(g, full, g.height)
  }

  lemma CompleteAt(g: Image, full: seq<byte>, height: nat, x1: nat, was: seq<Pix>, drawn: seq<Pix>)
    requires |full| == Total(g) && height <= g.height && At(g, g.height - height, x1, Total(g)) && x1 <= g.width
    requires DrawnTo(g, full, g.height - height, x1, was, drawn)
    ensures Complete(g, full, height, was, drawn)
  {
    hide At, Raster, BytesFor, Times;
    AtEnd(g, g.height - height, x1, Total(g));
    assert was + Raster(g, full, g.height) + [] == was + Raster(g, full, g.height);
  }

  /** The flush test behind a copy: a full ring, or the end of the data, is drawn. */
  method FlushIfDue(d: Screen, clip: Lines.Rectangle, g: Image, ring: array<byte>, at: nat, count: nat, height0: nat, line0: int, start: nat,
                    ghost full: seq<byte>, ghost out: seq<byte>, ghost base0: nat, ghost size: nat, ghost was: seq<Pix>)
    returns (idx: nat, height: nat, line: int, x1: nat, ghost base: nat)
    requires ring.Length == RING && Inside(clip, g)
    requires Streaming(g, full, out, ring[..], base0, at, height0, line0, start, was, d.drawn)
    requires |out| + size + count == Total(g) && (size > 0 ==> at == RING)
    modifies d
    ensures idx < RING
    ensures size + count > 0 ==> Streaming(g, full, out, ring[..], base, idx, height, line, x1, was, d.drawn)
    ensures size + count == 0 ==> Complete(g, full, height, was, d.drawn)
  {
    hide At, DrawnTo, RingOk, Complete;
    idx, height, line, x1, base := at, height0, line0, start, base0;
    StreamingFlush(g, full, out, ring[..], base, idx, height, line, x1, was, d.drawn);
    if idx == RING || count == 0 {
      line, height, x1 := FlushRing(d, clip, g, ring[..], line, height, x1, full, base, idx, was);
      AtFacts(g, g.height - height, x1, base + idx);
      if size + count == 0 {
        CompleteAt(g, full, height, x1, was, d.drawn);
      } else {
        RingWrap(ring[..], out, base);
      }
      base := base + idx;
      idx := 0;
    }
  }

  /** The inner loop of a token: what is left of a match is copied, and the ring flushed whenever it is full. */
  method EmitToken(d: Screen, clip: Lines.Rectangle, g: Image, ring: array<byte>, at: nat, m: nat, size0: nat,
                   flags0: seq<bool>, bits: nat, count: nat, height0: nat, line0: int, start: nat,
                   ghost full: seq<byte>, ghost out0: seq<byte>, ghost base0: nat, ghost was: seq<Pix>)
    returns (idx: nat, flags: seq<bool>, height: nat, line: int, x1: nat, ghost out: seq<byte>, ghost base: nat)
    requires ring.Length == RING && Inside(clip, g) && 0 < bits <= |flags0| && m < RING
    requires if flags0[bits - 1] then size0 > 0 && at < RING else size0 == 0
    requires Streaming(g, full, out0, ring[..], base0, at, height0, line0, start, was, d.drawn)
    requires |out0| + size0 + count == Total(g) && Copied(out0, m, size0) <= full
    modifies d, ring
    ensures idx < RING && flags == flags0[bits - 1 := true] && out == Copied(out0, m, size0)
    ensures count > 0 ==> Streaming(g, full, out, ring[..], base, idx, height, line, x1, was, d.drawn)
    ensures count == 0 ==> Complete(g, full, height, was, d.drawn)
  {
    hide At, DrawnTo, Complete, RingOk, Copied;
    idx, flags, height, line, x1, out, base := at, flags0, height0, line0, start, out0, base0;
    var size: nat := size0;
    ghost var first := true;
    while size > 0 || !flags[bits - 1]
      invariant |flags| == |flags0| && flags == (if first then flags0 else flags0[bits - 1 := true])
      invariant first ==> size == size0 && idx == at && out == out0
      invariant Copied(out, m, size) == Copied(out0, m, size0) && |out| + size + count == Total(g)
      invariant !first ==> idx < RING
      invariant first || size + count > 0 ==>
                  Streaming(g, full, out, ring[..], base, idx, height, line, x1, was, d.drawn)
      invariant !first && size + count == 0 ==> Complete(g, full, height, was, d.drawn)
      invariant first ==> d.drawn == old(d.drawn)
      decreases size + (if flags[bits - 1] then 0 else 1)
    {
      flags := flags[bits - 1 := true];
      StreamingRing(g, full, out, ring[..], base, idx, height, line, x1, was, d.drawn);
      idx, size, out := CopyIntoRing(ring, idx, m, size, out, base);
      StreamingGoesOn(g, full, out, m, size, base, ring[..], idx, height, line, x1, was, d.drawn);
      idx, height, line, x1, base := FlushIfDue(d, clip, g, ring, idx, count, height, line, x1, full, out, base, size, was);
      first := false;
    }
    NothingCopied(out, m);
  }

  lemma NothingCopied(out: seq<byte>, m: nat)
    ensures Copied(out, m, 0) == out
  {
  }

  lemma StreamingRing(g: Image, full: seq<byte>, out: seq<byte>, ring: seq<byte>, base: nat, idx: nat,
                      height: nat, line: int, x1: nat, was: seq<Pix>, drawn: seq<Pix>)
    requires Streaming(g, full, out, ring, base, idx, height, line, x1, was, drawn)
    ensures RingOk(ring, out, base, idx) && |full| == Total(g) && height <= g.height && x1 <= g.width
    ensures line == g.y + (g.height - height) && At(g, g.height - height, x1, base)
    ensures DrawnTo(g, full, g.height - height, x1, was, drawn)
  {
  }

  /** Copied bytes are decoded bytes as long as the rest of the match leads to the full data. */
  lemma StreamingGoesOn(g: Image, full: seq<byte>, out: seq<byte>, m: nat, size: nat, base: nat,
                        ring: seq<byte>, idx: nat, height: nat, line: int, x1: nat, was: seq<Pix>, drawn: seq<Pix>)
    requires |full| == Total(g) && height <= g.height && line == g.y + (g.height - height)
    requires At(g, g.height - height, x1, base) && x1 <= g.width && DrawnTo(g, full, g.height - height, x1, was, drawn)
    requires RingOk(ring, out, base, idx) && Copied(out, m, size) <= full
    ensures Streaming(g, full, out, ring, base, idx, height, line, x1, was, drawn)
  {
    hide At, DrawnTo, RingOk;
  }

  /** An image without pixels has nothing to draw. */
  lemma {:induction false} NoPixels(g: Image, full: seq<byte>, n: nat)
    requires n <= g.height && |full| == Total(g) && (g.width == 0 || n == 0)
    ensures Raster(g, full, n) == []
  {
    hide Pixels, Times, BytesFor;
    if n > 0 {
      NoPixels(g, full, n - 1);
      assert RowPixels(g, full, n - 1) == [];
    }
  }

  /** The picture takes data exactly if it has pixels. */
  lemma TotalZero(g: Image)
    ensures Total(g) == 0 <==> g.width == 0 || g.height == 0
  {
    TimesIsProduct(g.height, RowBytes(g));
    PerByteCases(g.bpp);
    if g.width > 0 {
      ZeroQuotient(g.bpp);
      RowArithmetic(g.bpp, g.width, 0, 0);
      if g.height > 0 {
        assert g.height * RowBytes(g) >= RowBytes(g);
      }
    } else {
      NothingTimes(g.height);
    }
  }

  lemma {:induction false} NothingTimes(n: nat)
    ensures Times(n, 0) == 0
  {
    if n > 0 {
      NothingTimes(n - 1);
    }
  }

  lemma StreamStart(g: Image, full: seq<byte>, ring: seq<byte>, was: seq<Pix>)
    requires |full| == Total(g) && Total(g) > 0 && |ring| == RING && forall j :: 0 <= j < RING ==> ring[j] == 0
    ensures Streaming(g, full, [], ring, 0, 0, g.height, g.y, 0, was, was)
  {
    TotalZero(g);
    RingStart(ring);
    ZeroQuotient(g.bpp);
    hide RowPixels;
    assert was + Raster(g, full, 0) + RowPixels(g, full, 0)[..0] == was;
  }

  /** The decoder is in the middle of the stream, or done. */
  ghost predicate Midstream(g: Image, s: seq<byte>, full: seq<byte>, pos: nat, flags: seq<bool>, bits: nat, count: nat,
                            out: seq<byte>, ring: seq<byte>, base: nat, idx: nat,
                            height: nat, line: int, x1: nat, was: seq<Pix>, drawn: seq<Pix>) {
    if count == 0 then Complete(g, full, height, was, drawn)
    else
      && idx < RING && bits <= |flags| == 8 && |out| + count == Total(g)
      && Decode(s, pos, flags, bits, out, count) == Decoded(full)
      && Streaming(g, full, out, ring, base, idx, height, line, x1, was, drawn)
  }

  /** One token of the stream, the encoding byte read first if the last one is used up. */
  method DrawToken(d: Screen, clip: Lines.Rectangle, g: Image, s: seq<byte>, ring: array<byte>,
                   pos0: nat, flags0: seq<bool>, bits0: nat, count0: nat, at: nat, height0: nat, line0: int, start: nat,
                   ghost full: seq<byte>, ghost out0: seq<byte>, ghost base0: nat, ghost was: seq<Pix>)
    returns (pos: nat, flags: seq<bool>, bits: nat, count: nat, idx: nat, height: nat, line: int, x1: nat,
             ghost out: seq<byte>, ghost base: nat)
    requires ring.Length == RING && Inside(clip, g) && count0 > 0
    requires Midstream(g, s, full, pos0, flags0, bits0, count0, out0, ring[..], base0, at, height0, line0, start, was, d.drawn)
    modifies d, ring
    ensures count < count0
    ensures Midstream(g, s, full, pos, flags, bits, count, out, ring[..], base, idx, height, line, x1, was, d.drawn)
  {
    hide At, DrawnTo, Complete, RingOk, Copied, FlagsOf, Decode, SizeOf, OffsetOf, Streaming;
    pos, flags, bits, count, idx := pos0, flags0, bits0, count0, at;
    if bits == 0 {
      DecodeFlags(s, pos, flags, out0, count);
      flags := FlagsOf(s[pos]);
      pos := pos + 1;
      bits := 8;
    }
    ghost var used, k := flags, bits - 1;
    var m, size := 0, 0;
    ghost var o := out0;
    DecodeToken(s, pos, flags, bits, out0, count);
    if flags[bits - 1] {
      m := OffsetOf(s[pos]);
      size := SizeOf(s[pos]);
      pos := pos + 1;
      count := count - size;
    } else {
      ghost var ringWas := ring[..];
      ring[idx] := s[pos];
      assert ring[..] == ringWas[idx := s[pos]];
      StreamingRing(g, full, out0, ringWas, base0, idx, height0, line0, start, was, d.drawn);
      RingPut(ringWas, out0, base0, idx, s[pos]);
      o := out0 + [s[pos]];
      idx := idx + 1;
      pos := pos + 1;
      count := count - 1;
      NothingCopied(o, m);
      StreamingGoesOn(g, full, o, m, 0, base0, ring[..], idx, height0, line0, start, was, d.drawn);
    }
    idx, flags, height, line, x1, out, base :=
      EmitToken(d, clip, g, ring, idx, m, size, flags, bits, count, height0, line0, start, full, o, base0, was);
    bits := bits - 1;
    UsedFlags(s, pos, used, k, true, bits, out, count);
  }

  /**
    The compressed branch of GrImageDraw, for an image inside the clipping region whose tokens cover its
    data exactly: the display receives, row by row, the pixels of the data decoded with full history.
   */
  method ImageDraw(d: Screen, clip: Lines.Rectangle, g: Image, s: seq<byte>)
    requires Inside(clip, g) && Decode(s, 0, FlagsOf(0), 0, [], Total(g)).Decoded?
    modifies d
    ensures d.drawn == old(d.drawn) + Raster(g, Decode(s, 0, FlagsOf(0), 0, [], Total(g)).bytes, g.height)
    ensures forall ts: seq<Token> {:trigger Encode(ts)} :: AllProper(ts) && s == Encode(ts) && Length(ts) == Total(g) ==>
              |Meaning([], ts)| == Total(g) && d.drawn == old(d.drawn) + Raster(g, Meaning([], ts), g.height)
  {
    TokensDrawn(g, s);
    hide At, DrawnTo, RingOk, Decode, FlagsOf, Streaming, Raster;
    ghost var full, was := Decode(s, 0, FlagsOf(0), 0, [], Total(g)).bytes, d.drawn;
    TotalZero(g);
    if g.width == 0 || g.height == 0 {
      NoPixels(g, full, g.height);
      assert was + [] == was;
    }
    if g.x > clip.xMax || g.x + g.width - 1 < clip.xMin || g.y > clip.yMax || g.y + g.height - 1 < clip.yMin {
      return;
    }
    var ring := new byte[RING](i => 0);
    var count: nat := BytesFor(g.bpp, g.width) * g.height;
    CountIs(g);
    var idx, bits, pos, x1: nat := 0, 0, 0, 0;
    var flags, height: nat, line := FlagsOf(0), g.height, g.y;
    ghost var out: seq<byte>, base: nat := [], 0;
    if count > 0 {
      StreamStart(g, full, ring[..], was);
    }
    while height > 0 && count > 0
      invariant count == 0 && Total(g) == 0 ==> d.drawn == was
      invariant Total(g) > 0 ==>
                  Midstream(g, s, full, pos, flags, bits, count, out, ring[..], base, idx, height, line, x1, was, d.drawn)
      invariant Total(g) == 0 ==> count == 0
      decreases count
    {
      pos, flags, bits, count, idx, height, line, x1, out, base :=
        DrawToken(d, clip, g, s, ring, pos, flags, bits, count, idx, height, line, x1, full, out, base, was);
    }
    if count > 0 {
      StillRows(g, full, out, ring[..], base, idx, height, line, x1, was, d.drawn);
    }
  }

  /** A stream that was encoded is decoded to what its tokens mean. */
  lemma TokensDrawn(g: Image, s: seq<byte>)
    ensures forall ts: seq<Token> {:trigger Encode(ts)} :: AllProper(ts) && s == Encode(ts) && Length(ts) == Total(g) ==>
              Decode(s, 0, FlagsOf(0), 0, [], Total(g)) == Decoded(Meaning([], ts))
  {
    hide Decode, Encode, Meaning, Length, FlagsOf, AllProper;
    forall ts: seq<Token> | AllProper(ts) && s == Encode(ts) && Length(ts) == Total(g)
      ensures Decode(s, 0, FlagsOf(0), 0, [], Total(g)) == Decoded(Meaning([], ts))
    {
      DecodeEncode([], ts, FlagsOf(0), []);
      assert [] + Encode(ts) == Encode(ts);
    }
  }

  lemma CountIs(g: Image)
    ensures BytesFor(g.bpp, g.width) * g.height == Total(g)
  {
    hide BytesFor, Times;
    TimesIsProduct(g.height, RowBytes(g));
    Commutes(RowBytes(g), g.height);
  }

  lemma Commutes(a: nat, b: nat)
    ensures a * b == b * a
  {
  }

  /** While data is missing, rows are missing. */
  lemma StillRows(g: Image, full: seq<byte>, out: seq<byte>, ring: seq<byte>, base: nat, idx: nat,
                  height: nat, line: int, x1: nat, was: seq<Pix>, drawn: seq<Pix>)
    requires Streaming(g, full, out, ring, base, idx, height, line, x1, was, drawn) && |out| < |full|
    ensures height > 0
  {
    hide BytesFor, Times, DrawnTo;
    AtEnd(g, g.height - height, x1, base);
  }
}
