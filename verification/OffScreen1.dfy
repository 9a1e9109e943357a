/** The fills of the off-screen driver with 1 bit per pixel. */
module OffScreen1 {
  import opened Layout
  import opened PixelBuffers
  import opened OffScreens

  /** The colour copied into all 32 pixels of a word. */
  function Spread(v: bv8): bv32 {
    if v != 0 then 0xFFFF_FFFF else 0
  }

  lemma SpreadSolid(v: bv8)
    requires Colour(1, v)
    ensures AllSolid(1, Spread(v), 4, v)
  {
    if v != 0 {
      assert ByteOf(0xFFFF_FFFF, 0) == 0xFF && ByteOf(0xFFFF_FFFF, 1) == 0xFF;
      assert ByteOf(0xFFFF_FFFF, 2) == 0xFF && ByteOf(0xFFFF_FFFF, 3) == 0xFF;
    }
  }

  /** The mask of m pixels from pixel k of a byte on. */
  function LeadMask(k: nat, m: nat): bv8
    requires 1 <= k && 1 <= m && k + m <= 8
  {
    (((1 as bv8) << m) - 1) << (8 - k - m)
  }

  /** The mask of the pixels behind the first r of a byte. */
  function TailMask(r: nat): bv8
    requires r <= 8
  {
    (0xFF as bv8) >> r
  }

  lemma LeadBits(k: nat, m: nat, j: nat)
    requires 1 <= k && 1 <= m && k + m <= 8 && j < 8
    ensures LeadMask(k, m) & Bit(j) == if k <= j < k + m then Bit(j) else 0
  {
  }

  /** ~lMask: the first r pixels of a byte. */
  function RestMask(r: nat): bv8
    requires r <= 8
  {
    !TailMask(r)
  }

  lemma RestBits(r: nat, j: nat)
    requires r <= 8 && j < 8
    ensures RestMask(r) & Bit(j) == if j < r then Bit(j) else 0
  {
  }

  /** A masked store paints the pixels of the mask. */
  lemma MaskedPixels(b: bv8, mask: bv8, v: bv8, j: nat)
    requires Colour(1, v) && j < 8 && (mask & Bit(j) == 0 || mask & Bit(j) == Bit(j))
    ensures PixelAt(1, (b & !mask) | (Solid(1, v) & mask), j) == if mask & Bit(j) == Bit(j) then v else PixelAt(1, b, j)
  {
    BitsApart(j, j);
    hide Bit;
  }

  /** (b & ~mask) | (f & mask). */
  function Masked(b: bv8, mask: bv8, f: bv8): bv8 {
    (b & !mask) | (f & mask)
  }

  lemma HeadPixels(b: bv8, k: nat, m: nat, v: bv8)
    requires Colour(1, v) && 1 <= k && 1 <= m && k + m <= 8
    ensures forall j :: 0 <= j < 8 ==>
              PixelAt(1, Masked(b, LeadMask(k, m), Solid(1, v)), j) == if k <= j < k + m then v else PixelAt(1, b, j)
  {
    hide LeadMask, Bit, PixelAt, Solid;
    forall j | 0 <= j < 8
      ensures PixelAt(1, Masked(b, LeadMask(k, m), Solid(1, v)), j) == if k <= j < k + m then v else PixelAt(1, b, j)
    {
      LeadBits(k, m, j);
      BitsApart(j, j);
      MaskedPixels(b, LeadMask(k, m), v, j);
    }
  }

  lemma TailPixels(b: bv8, r: nat, v: bv8)
    requires Colour(1, v) && r <= 8
    ensures forall j :: 0 <= j < 8 ==>
              PixelAt(1, Masked(b, RestMask(r), Solid(1, v)), j) == if j < r then v else PixelAt(1, b, j)
  {
    hide RestMask, Bit, PixelAt, Solid;
    forall j | 0 <= j < 8
      ensures PixelAt(1, Masked(b, RestMask(r), Solid(1, v)), j) == if j < r then v else PixelAt(1, b, j)
    {
      RestBits(r, j);
      BitsApart(j, j);
      MaskedPixels(b, RestMask(r), v, j);
    }
  }

  /** The tail is written with the mask of what stays. */
  lemma TailForm(b: bv8, r: nat, f: bv8)
    requires r <= 8
    ensures (b & TailMask(r)) | (f & RestMask(r)) == Masked(b, RestMask(r), f)
  {
    hide TailMask;
    var m := TailMask(r);
    assert !!m == m;
  }

  /** The head of a line that starts inside a byte. */
  method LineHead(c: Canvas, y: nat, at: nat, x: nat, m: nat, ghost v: bv8, w: bv32)
    requires c.depth == 1 && c.Valid() && x % 8 > 0 && 0 < m && x % 8 + m <= 8 && c.Holds(x, y)
    requires at == c.RowAt(y) + x / 8 && AllSolid(1, w, 1, v)
    modifies c.data
    ensures Painted(1, old(c.data[..]), c.data[..], Span(c.Place(x, y), c.Place(x + m, y)), v)
  {
    hide Painted, Masked, LeadMask, PixelAt, ByteOf, Solid;
    c.PlaceInside(x, y);
    ghost var was := c.data[..];
    var mask := LeadMask(x % 8, m);
    HeadPixels(was[at], x % 8, m, v);
    PartialByte(c, was, y, at, x, Masked(was[at], mask, ByteOf(w, 0)), x % 8 + m, v);
    c.data[at] := Masked(c.data[at], mask, ByteOf(w, 0));
  }

  /** The tail of a line that ends inside a byte. */
  method LineTail(c: Canvas, y: nat, at: nat, x: nat, r: nat, ghost v: bv8, w: bv32)
    requires c.depth == 1 && c.Valid() && x % 8 == 0 && 0 < r < 8 && c.Holds(x, y)
    requires at == c.RowAt(y) + x / 8 && AllSolid(1, w, 1, v)
    modifies c.data
    ensures Painted(1, old(c.data[..]), c.data[..], Span(c.Place(x, y), c.Place(x + r, y)), v)
  {
    hide Painted, Masked, TailMask, RestMask, PixelAt, ByteOf, Solid;
    c.PlaceInside(x, y);
    ghost var was := c.data[..];
    TailPixels(was[at], r, v);
    TailForm(was[at], r, ByteOf(w, 0));
    PartialByte(c, was, y, at, x, Masked(was[at], RestMask(r), ByteOf(w, 0)), r, v);
    c.data[at] := (c.data[at] & TailMask(r)) | (ByteOf(w, 0) & RestMask(r));
  }

  /** (x + 7) & ~7. */
  function RoundUp(x: nat): nat {
    (x + 7) - (x + 7) % 8
  }

  lemma Rounding(x: nat)
    requires x % 8 > 0
    ensures RoundUp(x) == x + (8 - x % 8) && RoundUp(x) % 8 == 0 && RoundUp(x) / 8 == x / 8 + 1
  {
  }

  /**
    GrOffScreen1BPPLineDrawH: whatever the alignment of the buffer, the line is the same as one drawn by
    GrOffScreen1BPPPixelDraw at each of its pixels.
   */
  method LineDrawH(c: Canvas, a1: nat, a2: nat, y: nat, v: bv8)
    requires c.depth == 1 && c.Valid() && a1 <= a2 && c.Holds(a2, y) && Colour(1, v)
    modifies c.data
    ensures Painted(1, old(c.data[..]), c.data[..], Span(c.Place(a1, y), c.Place(a2 + 1, y)), v)
    ensures c.Place(a2, y) / 8 < c.data.Length
    ensures c.data[..] == PixelByPixel(1, old(c.data[..]), c.Place(a1, y), a2 - a1 + 1, v)
  {
    hide Painted, Times, AllSolid, PixelByPixel, RoundUp, Span;
    ghost var was := c.data[..];
    var at, x := c.RowAt(y) + a1 / 8, a1;
    SpreadSolid(v);
    var w := Spread(v);
    FewerSolid(1, w, 4, 1, v);
    LinedNothing(c, was, y, a1, v);
    if x % 8 != 0 {
      var m := 8 - x % 8;
      if m > a2 - x + 1 {
        m := a2 - x + 1;
      }
      LineHead(c, y, at, x, m, v, w);
      LinedPart(c, was, was, c.data[..], y, a1, x, x + m, v);
      Rounding(x);
      at := at + 1;
      x := RoundUp(x);
    }
    at, x := FillMiddle(c, y, at, x, a2, w, was, a1, v);
    if x <= a2 {
      ghost var mid := c.data[..];
      LineTail(c, y, at, x, a2 - x + 1, v, w);
      LinedPart(c, was, mid, c.data[..], y, a1, x, a2 + 1, v);
    }
    LinedIsPixels(c, was, c.data[..], y, a1, a2, v);
  }

  /** The first column of bytes of a rectangle that starts inside a byte. */
  method HeadColumn(c: Canvas, y1: nat, y2: nat, at: nat, x: nat, m: nat, x2: nat, ghost v: bv8, w: bv32)
    requires c.depth == 1 && c.Valid() && y1 <= y2 && c.Holds(x2, y2) && x <= x2
    requires x % 8 > 0 && 0 < m && x % 8 + m <= 8 && at == c.RowAt(y1) + x / 8 && AllSolid(1, w, 1, v)
    modifies c.data
    ensures Painted(1, old(c.data[..]), c.data[..], Band(c, y1, y2 + 1, x, x + m), v)
  {
    hide Painted, AllSolid, Band, Span, Canvas.Place, Canvas.RowAt, Canvas.Valid, Canvas.RowBytes;
    ghost var was := c.data[..];
    var y: nat, column: nat := y1, at;
    BandStart(c, was, y1, x, x + m, v);
    while y <= y2
      invariant y1 <= y <= y2 + 1 && column == c.RowAt(y) + x / 8
      invariant Painted(1, was, c.data[..], Band(c, y1, y, x, x + m), v)
    {
      ghost var mid := c.data[..];
      LineHead(c, y, column, x, m, v, w);
      BandMore(c, was, mid, c.data[..], y1, y, x, x + m, v);
      NextRow(c, y, column, x);
      y := y + 1;
      column := column + c.RowBytes();
    }
  }

  /** The last column of bytes of a rectangle that ends inside a byte. */
  method TailColumn(c: Canvas, y1: nat, y2: nat, at: nat, x: nat, r: nat, x2: nat, ghost v: bv8, w: bv32)
    requires c.depth == 1 && c.Valid() && y1 <= y2 && c.Holds(x2, y2) && x <= x2
    requires x % 8 == 0 && 0 < r < 8 && at == c.RowAt(y1) + x / 8 && AllSolid(1, w, 1, v)
    modifies c.data
    ensures Painted(1, old(c.data[..]), c.data[..], Band(c, y1, y2 + 1, x, x + r), v)
  {
    hide Painted, AllSolid, Band, Span, Canvas.Place, Canvas.RowAt, Canvas.Valid, Canvas.RowBytes;
    ghost var was := c.data[..];
    var y: nat, column: nat := y1, at;
    BandStart(c, was, y1, x, x + r, v);
    while y <= y2
      invariant y1 <= y <= y2 + 1 && column == c.RowAt(y) + x / 8
      invariant Painted(1, was, c.data[..], Band(c, y1, y, x, x + r), v)
    {
      ghost var mid := c.data[..];
      LineTail(c, y, column, x, r, v, w);
      BandMore(c, was, mid, c.data[..], y1, y, x, x + r, v);
      NextRow(c, y, column, x);
      y := y + 1;
      column := column + c.RowBytes();
    }
  }

  /**
    GrOffScreen1BPPRectFill: filling by columns of bytes gives the buffer that LineDrawH, and so PixelDraw,
    gives row by row. The stores into whole bytes, the rest being byte stores, are all aligned exactly if
    FillAligned holds.
   */
  method RectFill(c: Canvas, x1: nat, y1: nat, x2: nat, y2: nat, v: bv8)
    returns (ghost stores: seq<Store>)
    requires c.depth == 1 && c.Valid() && x1 <= x2 && y1 <= y2 && c.Holds(x2, y2) && Colour(1, v)
    modifies c.data
    ensures Painted(1, old(c.data[..]), c.data[..], Band(c, y1, y2 + 1, x1, x2 + 1), v)
    ensures c.data[..] == RowByRow(c, old(c.data[..]), y1, y2 - y1 + 1, x1, x2, v)
    ensures forall i :: 0 <= i < |stores| ==> stores[i].n > 0
    ensures AllAligned(stores) <==> FillAligned(c, x1, y1, x2, y2)
  {
    hide Painted, Times, AllSolid, RowByRow, RoundUp, Band, AllAligned, FillAligned, Recorded, TakesWords, TakesHalves, Whole;
    ghost var was := c.data[..];
    var at, x := c.RowAt(y1) + x1 / 8, x1;
    SpreadSolid(v);
    var w := Spread(v);
    FewerSolid(1, w, 4, 1, v);
    NoColumns(c, was, y1, y2 + 1, x1, v);
    if x % 8 != 0 {
      var m := 8 - x % 8;
      if m > x2 - x + 1 {
        m := x2 - x + 1;
      }
      HeadColumn(c, y1, y2, at, x, m, x2, v, w);
      Rounding(x);
      at := at + 1;
      x := RoundUp(x);
    }
    RoundedByte(c.depth, x1);
    ghost var at0, x0 := at, x;
    at, x, w, stores := FillBands(c, y1, y2, at, x, x2, w, was, x1, v);
    FillStarts(c, x1, y1, x2, y2, at0, x0, stores);
    if x <= x2 {
      ghost var mid := c.data[..];
      TailColumn(c, y1, y2, at, x, x2 - x + 1, x2, v, w);
      ColumnMore(c, was, mid, c.data[..], y1, y2 + 1, x1, x, x2 + 1, v);
    }
    FilledIsRows(c, was, c.data[..], y1, y2, x1, x2, v);
  }

  lemma BoundaryWords(p: nat, m: nat)
    requires p % 4 == 0 && m >= 4
    ensures TakesWords(p, m)
  {
    Aligning(p);
    hide Odd, SecondBit;
    Bits(p);
  }

  lemma Bits(p: nat)
    requires p % 4 == 0
    ensures !Odd(p) && !SecondBit(p)
  {
  }

  lemma TenBytes(c: Canvas)
    requires c.depth == 1 && c.width == 80
    ensures c.RowBytes() == 10 && FirstByte(c, 0, 0) == c.address + 5 && WholeBytes(c, 0, 79) == 10
  {
  }

  lemma FiveMore(a: nat)
    requires a % 4 == 3
    ensures (a + 5) % 4 == 0 && (a + 5 + 10) % 4 == 2
  {
  }

  /**
    RectFill does make unaligned stores, on even row lengths too: in a buffer of 80 by 2 pixels, ten bytes a
    row, whose first row starts at a word boundary, the second row's words start two bytes behind one.
   */
  lemma UnalignedRow(c: Canvas)
    requires c.depth == 1 && c.width == 80 && c.height == 2 && c.address % 4 == 3
    ensures c.RowBytes() == 10
    ensures FirstByte(c, 0, 0) % 4 == 0 && (FirstByte(c, 0, 0) + c.RowBytes()) % 4 == 2
    ensures !FillAligned(c, 0, 0, 79, 1)
  {
    hide TakesWords, TakesHalves, FirstByte, WholeBytes, Canvas.RowBytes;
    TenBytes(c);
    FiveMore(c.address);
    BoundaryWords(FirstByte(c, 0, 0), 10);
  }
}
