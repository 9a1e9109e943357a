/** The fills of the off-screen driver with 4 bits per pixel. */
module OffScreen4 {
  import opened Layout
  import opened PixelBuffers
  import opened OffScreens

  /** The colour copied into all 8 pixels of a word. */
  function Spread(v: bv8): bv32 {
    var u := v as bv32;
    (u << 28) | (u << 24) | (u << 20) | (u << 16) | (u << 12) | (u << 8) | (u << 4) | u
  }

  lemma SpreadSolid(v: bv8)
    requires Colour(4, v)
    ensures AllSolid(4, Spread(v), 4, v)
  {
    assert ByteOf(Spread(v), 0) == Solid(4, v) && ByteOf(Spread(v), 1) == Solid(4, v);
    assert ByteOf(Spread(v), 2) == Solid(4, v) && ByteOf(Spread(v), 3) == Solid(4, v);
  }

  /** The right pixel of a byte replaced, as the head of a line does it. */
  function RightPixel(b: bv8, f: bv8): bv8 {
    (b & 0xF0) | (f & 0x0F)
  }

  /** The left pixel of a byte replaced, as the tail of a line does it. */
  function LeftPixel(b: bv8, f: bv8): bv8 {
    (b & 0x0F) | (f & 0xF0)
  }

  lemma RightPixels(b: bv8, v: bv8, j: nat)
    requires Colour(4, v) && j < 2
    ensures PixelAt(4, RightPixel(b, Solid(4, v)), j) == if 1 <= j < 2 then v else PixelAt(4, b, j)
  {
  }

  lemma LeftPixels(b: bv8, v: bv8, j: nat)
    requires Colour(4, v) && j < 2
    ensures PixelAt(4, LeftPixel(b, Solid(4, v)), j) == if 0 <= j < 1 then v else PixelAt(4, b, j)
  {
  }

  /** The head of a line that starts with the second pixel of a byte. */
  method LineHead(c: Canvas, y: nat, at: nat, x: nat, ghost v: bv8, w: bv32)
    requires c.depth == 4 && c.Valid() && x % 2 == 1 && c.Holds(x, y)
    requires at == c.RowAt(y) + x / 2 && AllSolid(4, w, 1, v)
    modifies c.data
    ensures Painted(4, old(c.data[..]), c.data[..], Span(c.Place(x, y), c.Place(x + 1, y)), v)
  {
    hide Painted, RightPixel, PixelAt, ByteOf, Solid;
    c.PlaceInside(x, y);
    ghost var was := c.data[..];
    RightPixels(was[at], v, 0);
    RightPixels(was[at], v, 1);
    PartialByte(c, was, y, at, x, RightPixel(was[at], ByteOf(w, 0)), 2, v);
    c.data[at] := RightPixel(c.data[at], ByteOf(w, 0));
  }

  /** The tail of a line that ends with the first pixel of a byte. */
  method LineTail(c: Canvas, y: nat, at: nat, x: nat, ghost v: bv8, w: bv32)
    requires c.depth == 4 && c.Valid() && x % 2 == 0 && c.Holds(x, y)
    requires at == c.RowAt(y) + x / 2 && AllSolid(4, w, 1, v)
    modifies c.data
    ensures Painted(4, old(c.data[..]), c.data[..], Span(c.Place(x, y), c.Place(x + 1, y)), v)
  {
    hide Painted, LeftPixel, PixelAt, ByteOf, Solid;
    c.PlaceInside(x, y);
    ghost var was := c.data[..];
    LeftPixels(was[at], v, 0);
    LeftPixels(was[at], v, 1);
    PartialByte(c, was, y, at, x, LeftPixel(was[at], ByteOf(w, 0)), 1, v);
    c.data[at] := LeftPixel(c.data[at], ByteOf(w, 0));
  }

  /**
    GrOffScreen4BPPLineDrawH: whatever the alignment of the buffer, the line is the same as one drawn by
    GrOffScreen4BPPPixelDraw at each of its pixels.
   */
  method LineDrawH(c: Canvas, a1: nat, a2: nat, y: nat, v: bv8)
    requires c.depth == 4 && c.Valid() && a1 <= a2 && c.Holds(a2, y) && Colour(4, v)
    modifies c.data
    ensures Painted(4, old(c.data[..]), c.data[..], Span(c.Place(a1, y), c.Place(a2 + 1, y)), v)
    ensures c.Place(a2, y) / 2 < c.data.Length
    ensures c.data[..] == PixelByPixel(4, old(c.data[..]), c.Place(a1, y), a2 - a1 + 1, v)
  {
    hide Painted, Times, AllSolid, PixelByPixel, Span;
    ghost var was := c.data[..];
    var at, x := c.RowAt(y) + a1 / 2, a1;
    SpreadSolid(v);
    var w := Spread(v);
    FewerSolid(4, w, 4, 1, v);
    LinedNothing(c, was, y, a1, v);
    if x % 2 == 1 {
      LineHead(c, y, at, x, v, w);
      LinedPart(c, was, was, c.data[..], y, a1, x, x + 1, v);
      at := at + 1;
      x := x + 1;
    }
    at, x := FillMiddle(c, y, at, x, a2, w, was, a1, v);
    if x == a2 {
      ghost var mid := c.data[..];
      LineTail(c, y, at, x, v, w);
      LinedPart(c, was, mid, c.data[..], y, a1, x, a2 + 1, v);
    }
    LinedIsPixels(c, was, c.data[..], y, a1, a2, v);
  }

  /** The first or the last column of single pixels of a rectangle. */
  method EdgeColumn(c: Canvas, y1: nat, y2: nat, at: nat, x: nat, x2: nat, ghost v: bv8, w: bv32)
    requires c.depth == 4 && c.Valid() && y1 <= y2 && c.Holds(x2, y2) && x <= x2
    requires at == c.RowAt(y1) + x / 2 && AllSolid(4, w, 1, v)
    modifies c.data
    ensures Painted(4, old(c.data[..]), c.data[..], Band(c, y1, y2 + 1, x, x + 1), v)
  {
    hide Painted, AllSolid, Band, Span, Canvas.Place, Canvas.RowAt, Canvas.Valid, Canvas.RowBytes;
    ghost var was := c.data[..];
    var y: nat, column: nat := y1, at;
    BandStart(c, was, y1, x, x + 1, v);
    while y <= y2
      invariant y1 <= y <= y2 + 1 && column == c.RowAt(y) + x / 2
      invariant Painted(4, was, c.data[..], Band(c, y1, y, x, x + 1), v)
    {
      ghost var mid := c.data[..];
      if x % 2 == 1 {
        LineHead(c, y, column, x, v, w);
      } else {
        LineTail(c, y, column, x, v, w);
      }
      BandMore(c, was, mid, c.data[..], y1, y, x, x + 1, v);
      NextRow(c, y, column, x);
      y := y + 1;
      column := column + c.RowBytes();
    }
  }

  /**
    GrOffScreen4BPPRectFill: filling by columns of bytes gives the buffer that LineDrawH, and so PixelDraw,
    gives row by row. The stores into whole bytes, the rest being byte stores, are all aligned exactly if
    FillAligned holds.
   */
  method RectFill(c: Canvas, x1: nat, y1: nat, x2: nat, y2: nat, v: bv8)
    returns (ghost stores: seq<Store>)
    requires c.depth == 4 && c.Valid() && x1 <= x2 && y1 <= y2 && c.Holds(x2, y2) && Colour(4, v)
    modifies c.data
    ensures Painted(4, old(c.data[..]), c.data[..], Band(c, y1, y2 + 1, x1, x2 + 1), v)
    ensures c.data[..] == RowByRow(c, old(c.data[..]), y1, y2 - y1 + 1, x1, x2, v)
    ensures forall i :: 0 <= i < |stores| ==> stores[i].n > 0
    ensures AllAligned(stores) <==> FillAligned(c, x1, y1, x2, y2)
  {
    hide Painted, Times, AllSolid, RowByRow, Band, AllAligned, FillAligned, Recorded, TakesWords, TakesHalves, Whole;
    ghost var was := c.data[..];
    var at, x := c.RowAt(y1) + x1 / 2, x1;
    SpreadSolid(v);
    var w := Spread(v);
    FewerSolid(4, w, 4, 1, v);
    NoColumns(c, was, y1, y2 + 1, x1, v);
    if x % 2 == 1 {
      EdgeColumn(c, y1, y2, at, x, x2, v, w);
      at := at + 1;
      x := x + 1;
    }
    RoundedByte(c.depth, x1);
    ghost var at0, x0 := at, x;
    at, x, w, stores := FillBands(c, y1, y2, at, x, x2, w, was, x1, v);
    FillStarts(c, x1, y1, x2, y2, at0, x0, stores);
    if x == x2 {
      ghost var mid := c.data[..];
      EdgeColumn(c, y1, y2, at, x, x2, v, w);
      ColumnMore(c, was, mid, c.data[..], y1, y2 + 1, x1, x, x2 + 1, v);
    }
    FilledIsRows(c, was, c.data[..], y1, y2, x1, x2, v);
  }
}
