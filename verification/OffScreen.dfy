/** The off-screen buffers of 1 and 4 bits per pixel: addresses, and the byte, half-word and word stores. */
module OffScreens {
  import opened Layout
  import opened PixelBuffers

  /**
    An image buffer: a header of origin bytes, then the rows. address is where the buffer lies in memory;
    width and height are those of its header.
   */
  class Canvas {
    const depth: Depth
    const data: array<bv8>
    const address: nat
    const width: nat
    const height: nat

    constructor (depth: Depth, data: array<bv8>, address: nat, width: nat, height: nat)
      ensures this.depth == depth && this.data == data && this.address == address
      ensures this.width == width && this.height == height
    {
      this.depth, this.data, this.address, this.width, this.height := depth, data, address, width, height;
    }

    /** The header, with its palette in the 4-bit format. */
    function Origin(): nat {
      if depth == 1 then 5 else 6 + 16 * 3
    }

    function RowBytes(): nat {
      (width + PerByte(depth) - 1) / PerByte(depth)
    }

    /** The byte offset of a row. */
    function RowAt(y: nat): nat {
      Origin() + Times(y, RowBytes())
    }

    /** Pixel x of row y, counted through all the buffer. */
    function Place(x: nat, y: nat): nat {
      PerByte(depth) * RowAt(y) + x
    }

    predicate Valid() {
      data.Length >= RowAt(height)
    }

    predicate Holds(x: nat, y: nat) {
      x < width && y < height
    }

    /** A pixel of the picture lies in the bytes of its row. */
    lemma PlaceInside(x: nat, y: nat)
      requires Valid() && Holds(x, y)
      ensures x / PerByte(depth) < RowBytes()
      ensures RowAt(y) + x / PerByte(depth) < RowAt(y) + RowBytes() <= data.Length
      ensures Place(x, y) / PerByte(depth) == RowAt(y) + x / PerByte(depth)
      ensures Place(x, y) % PerByte(depth) == x % PerByte(depth)
    {
      TimesMono(y, height, RowBytes());
      hide Times;
      PlaceSplit(depth, RowAt(y), x, width);
    }

    /** Two pixels with one place are one pixel: no row reaches into another, its padding included. */
    lemma PlaceUnique(x: nat, y: nat, u: nat, w: nat)
      requires Holds(x, y) && Holds(u, w) && Place(x, y) == Place(u, w)
      ensures x == u && y == w
    {
      hide Times;
      PlaceSplit(depth, RowAt(y), x, width);
      PlaceSplit(depth, RowAt(w), u, width);
      TimesUnique(y, x / PerByte(depth), w, u / PerByte(depth), RowBytes());
      PixelBuffers.Split(depth, x);
      PixelBuffers.Split(depth, u);
    }

    /**
      Where a pixel is: behind 5 header bytes, 8 pixels a byte, the leftmost in the highest bit; or behind 54
      header bytes, 2 pixels a byte, the left one in the high half.
     */
    lemma PixelByte(x: nat, y: nat, buf: seq<bv8>, o: nat)
      requires Valid() && Holds(x, y) && |buf| == data.Length
      requires o == if depth == 1 then 5 + y * ((width + 7) / 8) + x / 8 else 54 + y * ((width + 1) / 2) + x / 2
      ensures Place(x, y) / PerByte(depth) == o < |buf|
      ensures depth == 1 ==> Get(depth, buf, Place(x, y)) == if buf[o] & (0x80 >> (x % 8)) != 0 then 1 else 0
      ensures depth == 4 ==> Get(depth, buf, Place(x, y)) == if x % 2 == 0 then buf[o] >> 4 else buf[o] & 0xF
    {
      PlaceInside(x, y);
      RowByte(y);
      hide Canvas.Place, Canvas.RowAt, Canvas.RowBytes;
      if depth == 1 {
        BitShift(x % 8);
      }
    }

    lemma RowByte(y: nat)
      ensures RowAt(y) == if depth == 1 then 5 + y * ((width + 7) / 8) else 54 + y * ((width + 1) / 2)
    {
      TimesIsProduct(y, RowBytes());
      hide Times;
    }

    /** One pixel, as the PixelDraw routines set it. */
    method PixelDraw(x: nat, y: nat, v: bv8)
      requires Valid() && Holds(x, y) && Colour(depth, v)
      modifies data
      ensures Place(x, y) / PerByte(depth) < data.Length
      ensures data[..] == PixelSet(depth, old(data[..]), Place(x, y), v)
      ensures Painted(depth, old(data[..]), data[..], Span(Place(x, y), Place(x, y) + 1), v)
    {
      hide Painted, PutPixel;
      PlaceInside(x, y);
      var at := RowAt(y) + x / PerByte(depth);
      PixelPaints(depth, data[..], Place(x, y), v);
      data[at] := PutPixel(depth, data[at], x % PerByte(depth), v);
    }
  }

  lemma PlaceSplit(d: Depth, at: nat, x: nat, w: nat)
    ensures (PerByte(d) * at + x) / PerByte(d) == at + x / PerByte(d)
    ensures (PerByte(d) * at + x) % PerByte(d) == x % PerByte(d)
    ensures x < w ==> x / PerByte(d) < (w + PerByte(d) - 1) / PerByte(d)
  {
  }

  // ----- stores of solid bytes -----

  /** Byte i of a word in memory, least significant first. */
  function ByteOf(w: bv32, i: nat): bv8
    requires i < 4
  {
    ((w >> (8 * i)) & 0xFF) as bv8
  }

  /** The low n bytes of the word are solid in colour v. */
  ghost predicate AllSolid(d: Depth, w: bv32, n: nat, v: bv8) {
    Colour(d, v) && 1 <= n <= 4 && forall i: nat :: i < n ==> ByteOf(w, i) == Solid(d, v)
  }

  lemma FewerSolid(d: Depth, w: bv32, n: nat, m: nat, v: bv8)
    requires AllSolid(d, w, n, v) && 1 <= m <= n
    ensures AllSolid(d, w, m, v)
  {
  }

  /** n bytes painted in colour v, from at on. */
  ghost predicate Stored(c: Canvas, was: seq<bv8>, now: seq<bv8>, at: nat, n: nat, v: bv8) {
    Painted(c.depth, was, now, Span(PerByte(c.depth) * at, PerByte(c.depth) * (at + n)), v)
  }

  method Store8(c: Canvas, at: nat, w: bv32, ghost v: bv8)
    returns (ghost s: Store)
    requires at < c.data.Length && AllSolid(c.depth, w, 1, v)
    modifies c.data
    ensures Stored(c, old(c.data[..]), c.data[..], at, 1, v)
    ensures s == Store(c.address + at, 1)
  {
    s := Store(c.address + at, 1);
    hide Painted, Solid, ByteOf;
    ghost var was := c.data[..];
    c.data[at] := ByteOf(w, 0);
    assert c.data[..] == was[at := Solid(c.depth, v)];
    StoreSolid(c.depth, was, at, v);
  }

  /** A half-word store. */
  method Store16(c: Canvas, at: nat, w: bv32, ghost v: bv8)
    returns (ghost s: Store)
    requires at + 1 < c.data.Length && AllSolid(c.depth, w, 2, v)
    modifies c.data
    ensures Stored(c, old(c.data[..]), c.data[..], at, 2, v)
    ensures s == Store(c.address + at, 2)
  {
    s := Store(c.address + at, 2);
    hide Painted, Solid, ByteOf, Span;
    ghost var was := c.data[..];
    c.data[at] := ByteOf(w, 0);
    ghost var mid := c.data[..];
    c.data[at + 1] := ByteOf(w, 1);
    assert mid == was[at := Solid(c.depth, v)] && c.data[..] == mid[at + 1 := Solid(c.depth, v)];
    StoreSolid(c.depth, was, at, v);
    StoreSolid(c.depth, mid, at + 1, v);
    SpanMore(c.depth, was, mid, c.data[..], PerByte(c.depth) * at, PerByte(c.depth) * (at + 1), PerByte(c.depth) * (at + 2), v);
  }

  /** A word store. */
  method Store32(c: Canvas, at: nat, w: bv32, ghost v: bv8)
    returns (ghost s: Store)
    requires at + 3 < c.data.Length && AllSolid(c.depth, w, 4, v)
    modifies c.data
    ensures Stored(c, old(c.data[..]), c.data[..], at, 4, v)
    ensures s == Store(c.address + at, 4)
  {
    s := Store(c.address + at, 4);
    hide Painted, Solid, ByteOf, Span;
    ghost var s0 := c.data[..];
    c.data[at] := ByteOf(w, 0);
    ghost var s1 := c.data[..];
    c.data[at + 1] := ByteOf(w, 1);
    ghost var s2 := c.data[..];
    c.data[at + 2] := ByteOf(w, 2);
    ghost var s3 := c.data[..];
    c.data[at + 3] := ByteOf(w, 3);
    ghost var s4 := c.data[..];
    ghost var x, n := Solid(c.depth, v), PerByte(c.depth);
    assert s1 == s0[at := x] && s2 == s1[at + 1 := x] && s3 == s2[at + 2 := x] && s4 == s3[at + 3 := x];
    StoreSolid(c.depth, s0, at, v);
    StoreSolid(c.depth, s1, at + 1, v);
    StoreSolid(c.depth, s2, at + 2, v);
    StoreSolid(c.depth, s3, at + 3, v);
    SpanMore(c.depth, s0, s1, s2, n * at, n * (at + 1), n * (at + 2), v);
    SpanMore(c.depth, s0, s2, s3, n * at, n * (at + 2), n * (at + 3), v);
    SpanMore(c.depth, s0, s3, s4, n * at, n * (at + 3), n * (at + 4), v);
  }

  /** Painting goes on where it stopped. */
  lemma SpanMore(d: Depth, was: seq<bv8>, mid: seq<bv8>, now: seq<bv8>, i: nat, j: nat, k: nat, v: bv8)
    requires i <= j <= k
    requires Painted(d, was, mid, Span(i, j), v) && Painted(d, mid, now, Span(j, k), v)
    ensures Painted(d, was, now, Span(i, k), v)
  {
    hide Painted;
    PaintedMore(d, was, mid, now, Span(i, j), Span(j, k), v);
    SpanJoin(i, j, k);
  }

  // ----- a line in progress -----

  /** Row y is painted from pixel a up to pixel x. */
  ghost predicate Lined(c: Canvas, was: seq<bv8>, now: seq<bv8>, y: nat, a: nat, x: nat, v: bv8) {
    a <= x && Painted(c.depth, was, now, Span(c.Place(a, y), c.Place(x, y)), v)
  }

  /** The pointer of the fill loops: it is at the byte of pixel x, which starts a byte. */
  ghost predicate Pointing(c: Canvas, y: nat, at: nat, x: nat) {
    x % PerByte(c.depth) == 0 && at == c.RowAt(y) + x / PerByte(c.depth)
  }

  lemma PointingNext(c: Canvas, y: nat, at: nat, x: nat, n: nat)
    requires Pointing(c, y, at, x)
    ensures PerByte(c.depth) * at == c.Place(x, y)
    ensures Pointing(c, y, at + n, x + n * PerByte(c.depth))
    ensures PerByte(c.depth) * (at + n) == c.Place(x + n * PerByte(c.depth), y)
  {
    hide Times;
    var m := PerByte(c.depth);
    PixelBuffers.Split(c.depth, x);
    PlaceSplit(c.depth, n, x, 0);
    assert m == 8 || m == 2;
  }

  /** n bytes stored at the pointer lengthen the painted part of the row by their pixels. */
  lemma LinedNext(c: Canvas, was: seq<bv8>, mid: seq<bv8>, now: seq<bv8>, y: nat, a: nat, at: nat, x: nat, n: nat, v: bv8)
    requires Lined(c, was, mid, y, a, x, v) && Pointing(c, y, at, x) && Stored(c, mid, now, at, n, v)
    ensures Lined(c, was, now, y, a, x + n * PerByte(c.depth), v)
  {
    hide Painted, Span;
    PointingNext(c, y, at, x, n);
    hide Canvas.Place;
    PlaceMono(c, a, x, y);
    PlaceMono(c, x, x + n * PerByte(c.depth), y);
    SpanMore(c.depth, was, mid, now, c.Place(a, y), c.Place(x, y), c.Place(x + n * PerByte(c.depth), y), v);
  }

  lemma PlaceMono(c: Canvas, a: nat, x: nat, y: nat)
    requires a <= x
    ensures c.Place(a, y) <= c.Place(x, y)
  {
    hide Times;
  }

  /** The n bytes at the pointer lie in the buffer if their last pixel lies in the picture. */
  lemma PointingInside(c: Canvas, y: nat, at: nat, x: nat, n: nat)
    requires c.Valid() && Pointing(c, y, at, x) && n > 0 && c.Holds(x + n * PerByte(c.depth) - 1, y)
    ensures at + n <= c.data.Length
  {
    c.PlaceInside(x + n * PerByte(c.depth) - 1, y);
    hide Times;
    LastByte(c.depth, x, n);
  }

  lemma LastByte(d: Depth, x: nat, n: nat)
    requires x % PerByte(d) == 0 && n > 0
    ensures (x + n * PerByte(d) - 1) / PerByte(d) == x / PerByte(d) + n - 1
  {
  }

  /** One byte of solid pixels. */
  method Fill8(c: Canvas, y: nat, at: nat, x: nat, a2: nat, w: bv32, ghost was: seq<bv8>, ghost a: nat, ghost v: bv8)
    requires c.Valid() && c.Holds(a2, y) && Pointing(c, y, at, x) && x + PerByte(c.depth) - 1 <= a2
    requires AllSolid(c.depth, w, 1, v) && Lined(c, was, c.data[..], y, a, x, v)
    modifies c.data
    ensures Lined(c, was, c.data[..], y, a, x + PerByte(c.depth), v) && Pointing(c, y, at + 1, x + PerByte(c.depth))
  {
    hide Lined, AllSolid, Stored;
    PointingInside(c, y, at, x, 1);
    PointingNext(c, y, at, x, 1);
    ghost var mid := c.data[..];
    var s := Store8(c, at, w, v);
    LinedNext(c, was, mid, c.data[..], y, a, at, x, 1, v);
  }

  /** A half-word of solid pixels; the address is even. */
  method Fill16(c: Canvas, y: nat, at: nat, x: nat, a2: nat, w: bv32, ghost was: seq<bv8>, ghost a: nat, ghost v: bv8)
    requires c.Valid() && c.Holds(a2, y) && Pointing(c, y, at, x) && x + 2 * PerByte(c.depth) - 1 <= a2
    requires AllSolid(c.depth, w, 2, v) && Lined(c, was, c.data[..], y, a, x, v) && (c.address + at) % 2 == 0
    modifies c.data
    ensures Lined(c, was, c.data[..], y, a, x + 2 * PerByte(c.depth), v) && Pointing(c, y, at + 2, x + 2 * PerByte(c.depth))
  {
    hide Lined, AllSolid, Stored;
    PointingInside(c, y, at, x, 2);
    PointingNext(c, y, at, x, 2);
    ghost var mid := c.data[..];
    var s := Store16(c, at, w, v);
    LinedNext(c, was, mid, c.data[..], y, a, at, x, 2, v);
  }

  /** A word of solid pixels; the address is a multiple of four. */
  method Fill32(c: Canvas, y: nat, at: nat, x: nat, a2: nat, w: bv32, ghost was: seq<bv8>, ghost a: nat, ghost v: bv8)
    requires c.Valid() && c.Holds(a2, y) && Pointing(c, y, at, x) && x + 4 * PerByte(c.depth) - 1 <= a2
    requires AllSolid(c.depth, w, 4, v) && Lined(c, was, c.data[..], y, a, x, v) && (c.address + at) % 4 == 0
    modifies c.data
    ensures Lined(c, was, c.data[..], y, a, x + 4 * PerByte(c.depth), v) && Pointing(c, y, at + 4, x + 4 * PerByte(c.depth))
  {
    hide Lined, AllSolid, Stored;
    PointingInside(c, y, at, x, 4);
    PointingNext(c, y, at, x, 4);
    ghost var mid := c.data[..];
    var s := Store32(c, at, w, v);
    LinedNext(c, was, mid, c.data[..], y, a, at, x, 4, v);
  }

  /** The tests of the alignment bits of an address. */
  predicate Odd(p: nat) {
    p % 2 == 1
  }

  predicate SecondBit(p: nat) {
    p / 2 % 2 == 1
  }

  lemma Aligning(p: nat)
    ensures Odd(p) ==> !Odd(p + 1)
    ensures !Odd(p) ==> p % 2 == 0 && (p + 2) % 2 == 0 && (p + 4) % 2 == 0
    ensures !Odd(p) && SecondBit(p) ==> (p + 2) % 4 == 0
    ensures !Odd(p) && !SecondBit(p) ==> p % 4 == 0
    ensures p % 4 == 0 ==> (p + 4) % 4 == 0 && p % 2 == 0
  {
  }

  /** Row y is painted from pixel a up to pixel x, but not past pixel b. */
  ghost predicate LinedTo(c: Canvas, was: seq<bv8>, now: seq<bv8>, y: nat, a: nat, b: nat, x: nat, v: bv8) {
    Lined(c, was, now, y, a, if x <= b + 1 then x else b + 1, v)
  }

  /** The first stores of a line's middle: up to a byte and a half-word, to reach a word boundary. */
  method AlignMiddle(c: Canvas, y: nat, at0: nat, x0: nat, a2: nat, w: bv32, ghost was: seq<bv8>, ghost a: nat, ghost v: bv8)
    returns (at: nat, x: nat)
    requires c.Valid() && c.Holds(a2, y) && Pointing(c, y, at0, x0) && AllSolid(c.depth, w, 4, v)
    requires LinedTo(c, was, c.data[..], y, a, a2, x0, v)
    modifies c.data
    ensures x0 <= x && Pointing(c, y, at, x) && LinedTo(c, was, c.data[..], y, a, a2, x, v)
    ensures x0 <= a2 + 1 ==> x <= a2 + 1
    ensures x + (4 * PerByte(c.depth) - 1) <= a2 ==> (c.address + at) % 4 == 0
    ensures x + (2 * PerByte(c.depth) - 1) <= a2 ==> (c.address + at) % 2 == 0
  {
    hide Lined, AllSolid, Pointing, Odd, SecondBit;
    at, x := at0, x0;
    FewerSolid(c.depth, w, 4, 1, v);
    FewerSolid(c.depth, w, 4, 2, v);
    var n := PerByte(c.depth);
    var room: int := a2 - x;
    if Odd(c.address + at) && room > n - 2 {
      Fill8(c, y, at, x, a2, w, was, a, v);
      Aligning(c.address + at);
      at := at + 1;
      x := x + n;
    }
    room := a2 - x;
    Aligning(c.address + at);
    if SecondBit(c.address + at) && room > 2 * n - 2 {
      Fill16(c, y, at, x, a2, w, was, a, v);
      at := at + 2;
      x := x + 2 * n;
    }
  }

  /** The middle of a line: whole bytes, in the widest stores the alignment allows. */
  method FillMiddle(c: Canvas, y: nat, at0: nat, x0: nat, a2: nat, w: bv32, ghost was: seq<bv8>, ghost a: nat, ghost v: bv8)
    returns (at: nat, x: nat)
    requires c.Valid() && c.Holds(a2, y) && Pointing(c, y, at0, x0) && AllSolid(c.depth, w, 4, v)
    requires LinedTo(c, was, c.data[..], y, a, a2, x0, v)
    modifies c.data
    ensures x0 <= x && Pointing(c, y, at, x) && LinedTo(c, was, c.data[..], y, a, a2, x, v)
    ensures x > a2 || a2 - x < PerByte(c.depth) - 1
    ensures x0 <= a2 + 1 ==> x <= a2 + 1
  {
    hide Lined, AllSolid, Pointing;
    at, x := AlignMiddle(c, y, at0, x0, a2, w, was, a, v);
    FewerSolid(c.depth, w, 4, 1, v);
    FewerSolid(c.depth, w, 4, 2, v);
    var n := PerByte(c.depth);
    while x + (4 * n - 1) <= a2
      invariant x0 <= x && (x0 <= a2 + 1 ==> x <= a2 + 1)
      invariant Pointing(c, y, at, x) && LinedTo(c, was, c.data[..], y, a, a2, x, v)
      invariant x + (4 * n - 1) <= a2 ==> (c.address + at) % 4 == 0
      invariant x + (2 * n - 1) <= a2 ==> (c.address + at) % 2 == 0
      decreases a2 + 1 - x
    {
      Fill32(c, y, at, x, a2, w, was, a, v);
      Aligning(c.address + at);
      at := at + 4;
      x := x + 4 * n;
    }
    if x + (2 * n - 1) <= a2 {
      Fill16(c, y, at, x, a2, w, was, a, v);
      at := at + 2;
      x := x + 2 * n;
    }
    if x + (n - 1) <= a2 {
      Fill8(c, y, at, x, a2, w, was, a, v);
      at := at + 1;
      x := x + n;
    }
  }

  // ----- partial bytes -----

  /** Pixels k .. l of the byte at at painted: the row is painted that far. */
  lemma PartialByte(c: Canvas, mid: seq<bv8>, y: nat, at: nat, x: nat, b: bv8, l: nat, v: bv8)
    requires c.Valid() && at < |mid| && at == c.RowAt(y) + x / PerByte(c.depth)
    requires x % PerByte(c.depth) <= l <= PerByte(c.depth)
    requires forall j :: 0 <= j < PerByte(c.depth) ==>
                           PixelAt(c.depth, b, j) == if x % PerByte(c.depth) <= j < l then v else PixelAt(c.depth, mid[at], j)
    ensures Painted(c.depth, mid, mid[at := b], Span(c.Place(x, y), c.Place(x + (l - x % PerByte(c.depth)), y)), v)
  {
    hide Painted, PixelAt, Span, Times;
    var n, k := PerByte(c.depth), x % PerByte(c.depth);
    PixelBuffers.Split(c.depth, x);
    StoreByte(c.depth, mid, at, b, k, l, v);
    Distribute(n, c.RowAt(y), x / n);
    assert n * at + k == c.Place(x, y) && n * at + l == c.Place(x + (l - k), y);
  }

  lemma Distribute(n: nat, a: nat, b: nat)
    requires n == 8 || n == 2
    ensures n * (a + b) == n * a + n * b
  {
  }

  /** A partial byte behind, or in front of, what is painted of the row already. */
  lemma LinedPart(c: Canvas, was: seq<bv8>, mid: seq<bv8>, now: seq<bv8>, y: nat, a: nat, x: nat, z: nat, v: bv8)
    requires Lined(c, was, mid, y, a, x, v) && x <= z
    requires Painted(c.depth, mid, now, Span(c.Place(x, y), c.Place(z, y)), v)
    ensures Lined(c, was, now, y, a, z, v)
  {
    hide Painted, Span, Canvas.Place;
    PlaceMono(c, a, x, y);
    PlaceMono(c, x, z, y);
    SpanMore(c.depth, was, mid, now, c.Place(a, y), c.Place(x, y), c.Place(z, y), v);
  }

  lemma LinedNothing(c: Canvas, was: seq<bv8>, y: nat, a: nat, v: bv8)
    ensures Lined(c, was, was, y, a, a, v)
  {
    hide Painted;
    PaintedNothing(c.depth, was, v);
    assert Span(c.Place(a, y), c.Place(a, y)) == iset{};
  }

  /** A finished line is the one that PixelDraw gives pixel by pixel. */
  lemma LinedIsPixels(c: Canvas, was: seq<bv8>, now: seq<bv8>, y: nat, a1: nat, a2: nat, v: bv8)
    requires c.Valid() && c.Holds(a2, y) && a1 <= a2 && |was| == c.data.Length && Colour(c.depth, v)
    requires Lined(c, was, now, y, a1, a2 + 1, v)
    ensures c.Place(a2, y) / PerByte(c.depth) < |was|
    ensures now == PixelByPixel(c.depth, was, c.Place(a1, y), a2 - a1 + 1, v)
  {
    hide Painted, Span, PixelByPixel, Times;
    c.PlaceInside(a2, y);
    RowPaints(c.depth, was, c.Place(a1, y), a2 - a1 + 1, v);
    PaintedOnce(c.depth, was, now, PixelByPixel(c.depth, was, c.Place(a1, y), a2 - a1 + 1, v),
                Span(c.Place(a1, y), c.Place(a2 + 1, y)), v);
  }

  // ----- rectangles -----

  ghost predicate InBand(c: Canvas, p: nat, y1: nat, y2: nat, x1: nat, x2: nat) {
    exists y: nat :: y1 <= y < y2 && Within(p, c.Place(x1, y), c.Place(x2, y))
  }

  /** The pixels x1 .. x2 of the rows y1 .. y2, upper ends excluded. */
  ghost function Band(c: Canvas, y1: nat, y2: nat, x1: nat, x2: nat): iset<nat> {
    iset p: nat | InBand(c, p, y1, y2, x1, x2)
  }

  lemma BandNothing(c: Canvas, y: nat, x1: nat, x2: nat)
    ensures Band(c, y, y, x1, x2) == iset{}
  {
  }

  lemma BandRow(c: Canvas, y1: nat, y: nat, x1: nat, x2: nat)
    requires y1 <= y
    ensures Band(c, y1, y + 1, x1, x2) == Band(c, y1, y, x1, x2) + Span(c.Place(x1, y), c.Place(x2, y))
  {
    hide Canvas.Place;
    forall p: nat
      ensures InBand(c, p, y1, y + 1, x1, x2) <==> InBand(c, p, y1, y, x1, x2) || Within(p, c.Place(x1, y), c.Place(x2, y))
    {
    }
  }

  lemma BandJoin(c: Canvas, y1: nat, y2: nat, x1: nat, x: nat, x2: nat)
    requires x1 <= x <= x2
    ensures Band(c, y1, y2, x1, x) + Band(c, y1, y2, x, x2) == Band(c, y1, y2, x1, x2)
  {
    forall p: nat
      ensures InBand(c, p, y1, y2, x1, x) || InBand(c, p, y1, y2, x, x2) <==> InBand(c, p, y1, y2, x1, x2)
    {
      BandSplit(c, p, y1, y2, x1, x, x2);
    }
  }

  lemma BandSplit(c: Canvas, p: nat, y1: nat, y2: nat, x1: nat, x: nat, x2: nat)
    requires x1 <= x <= x2
    ensures InBand(c, p, y1, y2, x1, x) || InBand(c, p, y1, y2, x, x2) <==> InBand(c, p, y1, y2, x1, x2)
  {
    forall y: nat
      ensures c.Place(x1, y) <= c.Place(x, y) <= c.Place(x2, y)
    {
      PlaceMono(c, x1, x, y);
      PlaceMono(c, x, x2, y);
    }
    hide Canvas.Place;
    if InBand(c, p, y1, y2, x1, x2) {
      var y: nat :| y1 <= y < y2 && Within(p, c.Place(x1, y), c.Place(x2, y));
      assert Within(p, c.Place(x1, y), c.Place(x, y)) || Within(p, c.Place(x, y), c.Place(x2, y));
    }
  }

  /** One row more of a column band. */
  lemma BandMore(c: Canvas, was: seq<bv8>, mid: seq<bv8>, now: seq<bv8>, y1: nat, y: nat, x1: nat, x2: nat, v: bv8)
    requires y1 <= y && Painted(c.depth, was, mid, Band(c, y1, y, x1, x2), v)
    requires Painted(c.depth, mid, now, Span(c.Place(x1, y), c.Place(x2, y)), v)
    ensures Painted(c.depth, was, now, Band(c, y1, y + 1, x1, x2), v)
  {
    hide Painted, Band, Span, Canvas.Place;
    PaintedMore(c.depth, was, mid, now, Band(c, y1, y, x1, x2), Span(c.Place(x1, y), c.Place(x2, y)), v);
    BandRow(c, y1, y, x1, x2);
  }

  /** One column band more of a rectangle. */
  lemma ColumnMore(c: Canvas, was: seq<bv8>, mid: seq<bv8>, now: seq<bv8>, y1: nat, y2: nat, x1: nat, x: nat, x2: nat, v: bv8)
    requires x1 <= x <= x2
    requires Painted(c.depth, was, mid, Band(c, y1, y2, x1, x), v) && Painted(c.depth, mid, now, Band(c, y1, y2, x, x2), v)
    ensures Painted(c.depth, was, now, Band(c, y1, y2, x1, x2), v)
  {
    hide Painted, Band;
    PaintedMore(c.depth, was, mid, now, Band(c, y1, y2, x1, x), Band(c, y1, y2, x, x2), v);
    BandJoin(c, y1, y2, x1, x, x2);
  }

  lemma BandStart(c: Canvas, was: seq<bv8>, y: nat, x1: nat, x2: nat, v: bv8)
    ensures Painted(c.depth, was, was, Band(c, y, y, x1, x2), v)
  {
    hide Painted, Band;
    BandNothing(c, y, x1, x2);
    PaintedNothing(c.depth, was, v);
  }

  lemma NoColumns(c: Canvas, was: seq<bv8>, y1: nat, y2: nat, x: nat, v: bv8)
    ensures Painted(c.depth, was, was, Band(c, y1, y2, x, x), v)
  {
    hide Painted, Canvas.Place;
    PaintedNothing(c.depth, was, v);
    assert Band(c, y1, y2, x, x) == iset{};
  }

  lemma NextRow(c: Canvas, y: nat, at: nat, x: nat)
    requires at == c.RowAt(y) + x / PerByte(c.depth)
    ensures at + c.RowBytes() == c.RowAt(y + 1) + x / PerByte(c.depth)
  {
  }

  lemma PlaceOf(c: Canvas, y: nat, at: nat, x: nat, n: nat)
    requires Pointing(c, y, at, x)
    ensures PerByte(c.depth) * at == c.Place(x, y) && PerByte(c.depth) * (at + n) == c.Place(x + n * PerByte(c.depth), y)
  {
    PointingNext(c, y, at, x, n);
  }

  // ----- where the stores of a rectangle go -----

  /** A store of n bytes at an address. */
  datatype Store = Store(place: nat, n: nat)

  ghost predicate AllAligned(stores: seq<Store>)
    requires forall i :: 0 <= i < |stores| ==> stores[i].n > 0
  {
    forall i :: 0 <= i < |stores| ==> stores[i].place % stores[i].n == 0
  }

  /** n-byte stores in rows rows, the first at address first. */
  ghost predicate Column(stores: seq<Store>, first: nat, n: nat, rows: nat, rowBytes: nat) {
    n > 0 && |stores| == rows && forall i :: 0 <= i < rows ==> stores[i] == Store(first + Times(i, rowBytes), n)
  }

  lemma {:induction false} TimesMultiple(i: nat, r: nat, n: nat)
    requires n == 1 || n == 2 || n == 4
    requires r % n == 0
    ensures Times(i, r) % n == 0
  {
    if i > 0 {
      TimesMultiple(i - 1, r, n);
      Shifted(Times(i - 1, r), r, n);
    }
  }

  /** If its first store is aligned, all stores of a column are exactly if there is one row or the row length is a multiple. */
  lemma ColumnAligned(stores: seq<Store>, first: nat, n: nat, rows: nat, rowBytes: nat)
    requires Column(stores, first, n, rows, rowBytes) && (n == 1 || n == 2 || n == 4) && first % n == 0 && rows > 0
    ensures AllAligned(stores) <==> rows == 1 || rowBytes % n == 0
  {
    hide Times;
    forall i | 0 <= i < rows
      ensures stores[i].place % n == Times(i, rowBytes) % n
    {
      Shifted(first, Times(i, rowBytes), n);
    }
    if rowBytes % n == 0 {
      forall i | 0 <= i < rows
        ensures Times(i, rowBytes) % n == 0
      {
        TimesMultiple(i, rowBytes, n);
      }
    }
    TimesOnce(rowBytes);
  }

  lemma TimesOnce(r: nat)
    ensures Times(0, r) == 0 && Times(1, r) == r
  {
    assert Times(1, r) == Times(0, r) + r;
  }

  lemma Shifted(first: nat, r: nat, n: nat)
    requires (n == 1 || n == 2 || n == 4) && first % n == 0
    ensures (first + r) % n == r % n
  {
    if n == 2 {
      DivUnique(first + r, 2, first / 2 + r / 2, r % 2);
    } else if n == 4 {
      DivUnique(first + r, 4, first / 4 + r / 4, r % 4);
    }
  }

  /** The whole bytes from pixel x to pixel x2. */
  function Whole(d: Depth, x: nat, x2: nat): nat {
    if x > x2 then 0 else (x2 + 1 - x) / PerByte(d)
  }

  lemma WholeSteps(d: Depth, x: nat, x2: nat, k: nat)
    requires k > 0
    ensures Whole(d, x, x2) >= k <==> x + (k * PerByte(d) - 1) <= x2
    ensures Whole(d, x, x2) >= k ==> Whole(d, x + k * PerByte(d), x2) == Whole(d, x, x2) - k
  {
    var n := PerByte(d);
    assert n == 8 || n == 2;
    if x <= x2 {
      var m := Whole(d, x, x2);
      assert x2 + 1 - x == n * m + (x2 + 1 - x) % n;
    }
  }

  /** The bytes left for words once a store of one byte and one of two have reached for the word boundary. */
  function AfterByte(p: nat, m: nat): nat {
    if Odd(p) && m >= 1 then m - 1 else m
  }

  predicate LeadingHalf(p: nat, m: nat) {
    SecondBit(p + (m - AfterByte(p, m))) && AfterByte(p, m) >= 2
  }

  function ForWords(p: nat, m: nat): nat {
    if LeadingHalf(p, m) then AfterByte(p, m) - 2 else AfterByte(p, m)
  }

  /** Filling m whole bytes from address p on takes word stores, and half-word stores. */
  predicate TakesWords(p: nat, m: nat) {
    ForWords(p, m) >= 4
  }

  predicate TakesHalves(p: nat, m: nat) {
    LeadingHalf(p, m) || ForWords(p, m) % 4 >= 2
  }

  /** What a caller of RectFill has to check: one row, or a row length that suits the widest stores it takes. */
  predicate RowsSuit(c: Canvas, y1: nat, y2: nat, words: bool, halves: bool) {
    y1 == y2 || ((words ==> c.RowBytes() % 4 == 0) && (halves ==> c.RowBytes() % 2 == 0))
  }

  /** The address of the first whole byte of a rectangle, and the whole bytes of a row of it. */
  function FirstByte(c: Canvas, x1: nat, y1: nat): nat {
    c.address + c.RowAt(y1) + (x1 + PerByte(c.depth) - 1) / PerByte(c.depth)
  }

  function WholeBytes(c: Canvas, x1: nat, x2: nat): nat {
    Whole(c.depth, (x1 + PerByte(c.depth) - 1) / PerByte(c.depth) * PerByte(c.depth), x2)
  }

  /** The exact condition under which all stores of RectFill into whole bytes are aligned. */
  predicate FillAligned(c: Canvas, x1: nat, y1: nat, x2: nat, y2: nat) {
    RowsSuit(c, y1, y2, TakesWords(FirstByte(c, x1, y1), WholeBytes(c, x1, x2)), TakesHalves(FirstByte(c, x1, y1), WholeBytes(c, x1, x2)))
  }

  /** The byte the fill of whole bytes starts with, from the pixel the partial byte in front of it ends at. */
  lemma FillStarts(c: Canvas, x1: nat, y1: nat, x2: nat, y2: nat, at: nat, x: nat, stores: seq<Store>)
    requires x == (x1 + PerByte(c.depth) - 1) / PerByte(c.depth) * PerByte(c.depth)
    requires at == c.RowAt(y1) + (x1 + PerByte(c.depth) - 1) / PerByte(c.depth)
    requires var p, m := c.address + at, Whole(c.depth, x, x2);
             Recorded(c, y1, y2, stores, TakesWords(p, m), TakesHalves(p, m))
    ensures forall i :: 0 <= i < |stores| ==> stores[i].n > 0
    ensures AllAligned(stores) <==> FillAligned(c, x1, y1, x2, y2)
  {
    hide Whole, TakesWords, TakesHalves, Canvas.RowAt, RowsSuit;
  }

  lemma RoundedByte(d: Depth, x: nat)
    ensures var q := (x + PerByte(d) - 1) / PerByte(d);
            (x % PerByte(d) == 0 ==> q == x / PerByte(d) && q * PerByte(d) == x)
            && (x % PerByte(d) > 0 ==> q == x / PerByte(d) + 1 && q * PerByte(d) == x + (PerByte(d) - x % PerByte(d)))
  {
    var n := PerByte(d);
    assert n == 8 || n == 2;
    assert x == n * (x / n) + x % n;
  }

  ghost predicate Recorded(c: Canvas, y1: nat, y2: nat, stores: seq<Store>, words: bool, halves: bool) {
    && (forall i :: 0 <= i < |stores| ==> stores[i].n > 0)
    && (AllAligned(stores) <==> RowsSuit(c, y1, y2, words, halves))
  }

  lemma RecordedMore(c: Canvas, y1: nat, y2: nat, stores: seq<Store>, words: bool, halves: bool, more: seq<Store>, n: nat)
    requires Recorded(c, y1, y2, stores, words, halves) && (n == 1 || n == 2 || n == 4)
    requires forall i :: 0 <= i < |more| ==> more[i].n > 0
    requires AllAligned(more) <==> y1 == y2 || c.RowBytes() % n == 0
    ensures Recorded(c, y1, y2, stores + more, words || n == 4, halves || n == 2)
  {
    hide Canvas.RowBytes;
    AlignedJoin(stores, more);
  }

  lemma AlignedJoin(a: seq<Store>, b: seq<Store>)
    requires forall i :: 0 <= i < |a| ==> a[i].n > 0
    requires forall i :: 0 <= i < |b| ==> b[i].n > 0
    ensures forall i :: 0 <= i < |a + b| ==> (a + b)[i].n > 0
    ensures AllAligned(a + b) <==> AllAligned(a) && AllAligned(b)
  {
    var all := a + b;
    forall i | 0 <= i < |a|
      ensures all[i] == a[i]
    {
    }
    forall i | 0 <= i < |b|
      ensures all[|a| + i] == b[i]
    {
    }
    if AllAligned(all) {
      forall i | 0 <= i < |b|
        ensures b[i].place % b[i].n == 0
      {
        assert all[|a| + i] == b[i];
      }
    }
  }

  /** One of the inner loops of RectFill: n bytes in each row, 1, 2 or 4 at a time. */
  method FillColumn(c: Canvas, y1: nat, y2: nat, at: nat, x: nat, n: nat, x2: nat, w: bv32, ghost v: bv8)
    returns (ghost stores: seq<Store>)
    requires c.Valid() && y1 <= y2 && c.Holds(x2, y2) && Pointing(c, y1, at, x)
    requires (n == 1 || n == 2 || n == 4) && x + n * PerByte(c.depth) - 1 <= x2 && AllSolid(c.depth, w, n, v)
    modifies c.data
    ensures Painted(c.depth, old(c.data[..]), c.data[..], Band(c, y1, y2 + 1, x, x + n * PerByte(c.depth)), v)
    ensures Column(stores, c.address + at, n, y2 - y1 + 1, c.RowBytes())
  {
    hide Painted, AllSolid, Band, Span, Canvas.Place, Canvas.RowAt, Canvas.Valid, Canvas.RowBytes, Column;
    ghost var was := c.data[..];
    var y: nat, column: nat := y1, at;
    BandStart(c, was, y1, x, x + n * PerByte(c.depth), v);
    stores := [];
    ColumnStart(c.address + at, n, c.RowBytes());
    while y <= y2
      invariant y1 <= y <= y2 + 1 && Pointing(c, y, column, x)
      invariant Painted(c.depth, was, c.data[..], Band(c, y1, y, x, x + n * PerByte(c.depth)), v)
      invariant column == at + Times(y - y1, c.RowBytes())
      invariant Column(stores, c.address + at, n, y - y1, c.RowBytes())
    {
      ghost var mid := c.data[..];
      ghost var s;
      PointingInside(c, y, column, x, n);
      PlaceOf(c, y, column, x, n);
      if n == 1 {
        s := Store8(c, column, w, v);
      } else if n == 2 {
        s := Store16(c, column, w, v);
      } else {
        s := Store32(c, column, w, v);
      }
      ColumnNext(stores, c.address + at, n, y - y1, c.RowBytes(), s);
      stores := stores + [s];
      BandMore(c, was, mid, c.data[..], y1, y, x, x + n * PerByte(c.depth), v);
      NextRow(c, y, column, x);
      y := y + 1;
      column := column + c.RowBytes();
    }
  }

  lemma ColumnStart(first: nat, n: nat, rowBytes: nat)
    requires n > 0
    ensures Column([], first, n, 0, rowBytes) && Times(0, rowBytes) == 0
  {
  }

  lemma ColumnNext(stores: seq<Store>, first: nat, n: nat, rows: nat, rowBytes: nat, s: Store)
    requires Column(stores, first, n, rows, rowBytes) && s == Store(first + Times(rows, rowBytes), n)
    ensures Column(stores + [s], first, n, rows + 1, rowBytes)
    ensures Times(rows + 1, rowBytes) == Times(rows, rowBytes) + rowBytes
  {
  }

  /** The columns from x1 up to x, but not past b, are painted. */
  ghost predicate Filled(c: Canvas, was: seq<bv8>, now: seq<bv8>, y1: nat, y2: nat, x1: nat, b: nat, x: nat, v: bv8) {
    x1 <= x && x1 <= b + 1 && Painted(c.depth, was, now, Band(c, y1, y2 + 1, x1, if x <= b + 1 then x else b + 1), v)
  }

  /** One band of n bytes, its first store aligned: the columns, then the pointer. */
  method FillBand(c: Canvas, y1: nat, y2: nat, at: nat, x: nat, n: nat, x2: nat, w: bv32,
                  ghost was: seq<bv8>, ghost x1: nat, ghost v: bv8,
                  ghost stores: seq<Store>, ghost words: bool, ghost halves: bool)
    returns (ghost more: seq<Store>)
    requires c.Valid() && y1 <= y2 && c.Holds(x2, y2) && Pointing(c, y1, at, x)
    requires (n == 1 || n == 2 || n == 4) && (c.address + at) % n == 0
    requires x + n * PerByte(c.depth) - 1 <= x2 && AllSolid(c.depth, w, n, v)
    requires Filled(c, was, c.data[..], y1, y2, x1, x2, x, v) && Recorded(c, y1, y2, stores, words, halves)
    modifies c.data
    ensures Filled(c, was, c.data[..], y1, y2, x1, x2, x + n * PerByte(c.depth), v)
    ensures Pointing(c, y1, at + n, x + n * PerByte(c.depth))
    ensures Recorded(c, y1, y2, stores + more, words || n == 4, halves || n == 2)
  {
    hide Painted, AllSolid, Band, Pointing, Canvas.Valid, Recorded, AllAligned, Times;
    ghost var mid := c.data[..];
    PointingNext(c, y1, at, x, n);
    more := FillColumn(c, y1, y2, at, x, n, x2, w, v);
    ColumnMore(c, was, mid, c.data[..], y1, y2 + 1, x1, x, x + n * PerByte(c.depth), v);
    ColumnAligned(more, c.address + at, n, y2 - y1 + 1, c.RowBytes());
    RecordedMore(c, y1, y2, stores, words, halves, more, n);
  }

  lemma RecordedNone(c: Canvas, y1: nat, y2: nat)
    ensures Recorded(c, y1, y2, [], false, false)
  {
  }

  /** The first bands: up to one of bytes and one of half-words, to reach a word boundary in the first row. */
  method AlignBands(c: Canvas, y1: nat, y2: nat, at0: nat, x0: nat, x2: nat, w: bv32, ghost was: seq<bv8>, ghost x1: nat, ghost v: bv8)
    returns (at: nat, x: nat, ghost stores: seq<Store>, ghost halves: bool)
    requires c.Valid() && y1 <= y2 && c.Holds(x2, y2) && Pointing(c, y1, at0, x0) && AllSolid(c.depth, w, 4, v)
    requires Filled(c, was, c.data[..], y1, y2, x1, x2, x0, v)
    modifies c.data
    ensures x0 <= x && Pointing(c, y1, at, x) && Filled(c, was, c.data[..], y1, y2, x1, x2, x, v)
    ensures var p, m := c.address + at0, Whole(c.depth, x0, x2);
            halves == LeadingHalf(p, m) && Whole(c.depth, x, x2) == ForWords(p, m)
    ensures Whole(c.depth, x, x2) >= 4 ==> (c.address + at) % 4 == 0
    ensures Whole(c.depth, x, x2) >= 2 ==> (c.address + at) % 2 == 0
    ensures Recorded(c, y1, y2, stores, false, halves)
  {
    hide Filled, AllSolid, Pointing, Odd, SecondBit, Whole, Recorded, RowsSuit;
    at, x := at0, x0;
    FewerSolid(c.depth, w, 4, 1, v);
    FewerSolid(c.depth, w, 4, 2, v);
    var n := PerByte(c.depth);
    stores, halves := [], false;
    RecordedNone(c, y1, y2);
    WholeSteps(c.depth, x, x2, 1);
    Aligning(c.address + at);
    var room: int := x2 - x;
    if Odd(c.address + at) && room > n - 2 {
      var more := FillBand(c, y1, y2, at, x, 1, x2, w, was, x1, v, stores, false, false);
      stores := stores + more;
      at := at + 1;
      x := x + n;
    }
    room := x2 - x;
    WholeSteps(c.depth, x, x2, 2);
    Aligning(c.address + at);
    if SecondBit(c.address + at) && room > 2 * n - 2 {
      var more := FillBand(c, y1, y2, at, x, 2, x2, w, was, x1, v, stores, false, false);
      stores, halves := stores + more, true;
      at := at + 2;
      x := x + 2 * n;
    }
  }

  /** The last bands: up to one of half-words and one of bytes. */
  method EndBands(c: Canvas, y1: nat, y2: nat, at0: nat, x0: nat, x2: nat, w0: bv32, ghost was: seq<bv8>, ghost x1: nat, ghost v: bv8,
                  ghost stores0: seq<Store>, ghost words: bool, ghost halves: bool)
    returns (at: nat, x: nat, w: bv32, ghost stores: seq<Store>)
    requires c.Valid() && y1 <= y2 && c.Holds(x2, y2) && Pointing(c, y1, at0, x0) && AllSolid(c.depth, w0, 4, v)
    requires Filled(c, was, c.data[..], y1, y2, x1, x2, x0, v) && Whole(c.depth, x0, x2) < 4
    requires Whole(c.depth, x0, x2) >= 2 ==> (c.address + at0) % 2 == 0
    requires Recorded(c, y1, y2, stores0, words, halves)
    modifies c.data
    ensures x0 <= x && Pointing(c, y1, at, x) && Filled(c, was, c.data[..], y1, y2, x1, x2, x, v)
    ensures x > x2 || x2 - x < PerByte(c.depth) - 1
    ensures AllSolid(c.depth, w, 1, v)
    ensures Recorded(c, y1, y2, stores, words, halves || Whole(c.depth, x0, x2) >= 2)
  {
    hide Filled, AllSolid, Pointing, Whole, Recorded, RowsSuit;
    at, x, w, stores := at0, x0, w0, stores0;
    FewerSolid(c.depth, w, 4, 1, v);
    FewerSolid(c.depth, w, 4, 2, v);
    var n := PerByte(c.depth);
    ghost var taken := halves;
    WholeSteps(c.depth, x, x2, 2);
    if x + (2 * n - 1) <= x2 {
      LowHalf(c.depth, w, v);
      w := w & 0xFFFF;
      FewerSolid(c.depth, w, 2, 1, v);
      var more := FillBand(c, y1, y2, at, x, 2, x2, w, was, x1, v, stores, words, halves);
      stores, taken := stores + more, true;
      at := at + 2;
      x := x + 2 * n;
    }
    WholeSteps(c.depth, x, x2, 1);
    if x + (n - 1) <= x2 {
      LowByte(c.depth, w, v);
      w := w & 0xFF;
      var more := FillBand(c, y1, y2, at, x, 1, x2, w, was, x1, v, stores, words, taken);
      stores := stores + more;
      at := at + 1;
      x := x + n;
    }
    WholeSteps(c.depth, x, x2, 1);
  }

  /**
    The middle of RectFill: whole bytes, in bands of one, two or four. The alignment tested is that of the
    first row; all stores are aligned if and only if the other rows suit it.
   */
  method FillBands(c: Canvas, y1: nat, y2: nat, at0: nat, x0: nat, x2: nat, w0: bv32, ghost was: seq<bv8>, ghost x1: nat, ghost v: bv8)
    returns (at: nat, x: nat, w: bv32, ghost stores: seq<Store>)
    requires c.Valid() && y1 <= y2 && c.Holds(x2, y2) && Pointing(c, y1, at0, x0) && AllSolid(c.depth, w0, 4, v)
    requires Filled(c, was, c.data[..], y1, y2, x1, x2, x0, v)
    modifies c.data
    ensures x0 <= x && Pointing(c, y1, at, x) && Filled(c, was, c.data[..], y1, y2, x1, x2, x, v)
    ensures x > x2 || x2 - x < PerByte(c.depth) - 1
    ensures AllSolid(c.depth, w, 1, v)
    ensures var p, m := c.address + at0, Whole(c.depth, x0, x2);
            Recorded(c, y1, y2, stores, TakesWords(p, m), TakesHalves(p, m))
  {
    hide Filled, AllSolid, Pointing, Odd, SecondBit, Whole, Recorded, RowsSuit;
    at, x, w := at0, x0, w0;
    FewerSolid(c.depth, w, 4, 1, v);
    FewerSolid(c.depth, w, 4, 2, v);
    var n := PerByte(c.depth);
    ghost var p, m0 := c.address + at0, Whole(c.depth, x0, x2);
    stores := [];
    RecordedNone(c, y1, y2);
    ghost var halves;
    at, x, stores, halves := AlignBands(c, y1, y2, at0, x0, x2, w, was, x1, v);
    ghost var m := ForWords(p, m0);
    ghost var words := false;
    WholeSteps(c.depth, x, x2, 4);
    while x + (4 * n - 1) <= x2
      invariant x0 <= x && Pointing(c, y1, at, x) && Filled(c, was, c.data[..], y1, y2, x1, x2, x, v)
      invariant Whole(c.depth, x, x2) <= m && Whole(c.depth, x, x2) % 4 == m % 4
      invariant Whole(c.depth, x, x2) >= 4 <==> x + (4 * n - 1) <= x2
      invariant Whole(c.depth, x, x2) >= 4 ==> (c.address + at) % 4 == 0
      invariant Whole(c.depth, x, x2) >= 2 ==> (c.address + at) % 2 == 0
      invariant words <==> Whole(c.depth, x, x2) < m
      invariant Recorded(c, y1, y2, stores, words, halves)
      decreases x2 + 1 - x
    {
      WholeSteps(c.depth, x, x2, 4);
      var more := FillBand(c, y1, y2, at, x, 4, x2, w, was, x1, v, stores, words, halves);
      stores, words := stores + more, true;
      Aligning(c.address + at);
      at := at + 4;
      x := x + 4 * n;
      WholeSteps(c.depth, x, x2, 4);
    }
    at, x, w, stores := EndBands(c, y1, y2, at, x, x2, w, was, x1, v, stores, words, halves);
  }

  lemma LowHalf(d: Depth, w: bv32, v: bv8)
    requires AllSolid(d, w, 2, v)
    ensures AllSolid(d, w & 0xFFFF, 2, v)
  {
    assert ByteOf(w & 0xFFFF, 0) == ByteOf(w, 0) && ByteOf(w & 0xFFFF, 1) == ByteOf(w, 1);
  }

  lemma LowByte(d: Depth, w: bv32, v: bv8)
    requires AllSolid(d, w, 1, v)
    ensures AllSolid(d, w & 0xFF, 1, v)
  {
    assert ByteOf(w & 0xFF, 0) == ByteOf(w, 0);
  }

  // ----- row by row -----

  /** n rows from y on, each drawn pixel by pixel from x1 to x2. */
  function RowByRow(c: Canvas, buf: seq<bv8>, y: nat, n: nat, x1: nat, x2: nat, v: bv8): (r: seq<bv8>)
    requires c.Valid() && |buf| == c.data.Length && x1 <= x2 && (n > 0 ==> c.Holds(x2, y + n - 1))
    ensures |r| == |buf|
  {
    if n == 0 then buf
    else
      c.PlaceInside(x2, y + n - 1);
      PixelByPixel(c.depth, RowByRow(c, buf, y, n - 1, x1, x2, v), c.Place(x1, y + n - 1), x2 - x1 + 1, v)
  }

  lemma {:induction false} RowsPaint(c: Canvas, buf: seq<bv8>, y: nat, n: nat, x1: nat, x2: nat, v: bv8)
    requires c.Valid() && |buf| == c.data.Length && x1 <= x2 && (n > 0 ==> c.Holds(x2, y + n - 1)) && Colour(c.depth, v)
    ensures Painted(c.depth, buf, RowByRow(c, buf, y, n, x1, x2, v), Band(c, y, y + n, x1, x2 + 1), v)
  {
    hide Painted, Band, Span, PixelByPixel, Times;
    if n == 0 {
      BandStart(c, buf, y, x1, x2 + 1, v);
    } else {
      c.PlaceInside(x2, y + n - 1);
      var mid := RowByRow(c, buf, y, n - 1, x1, x2, v);
      RowsPaint(c, buf, y, n - 1, x1, x2, v);
      RowPaints(c.depth, mid, c.Place(x1, y + n - 1), x2 - x1 + 1, v);
      BandMore(c, buf, mid, RowByRow(c, buf, y, n, x1, x2, v), y, y + n - 1, x1, x2 + 1, v);
    }
  }

  /** A filled rectangle is the one that horizontal lines give row by row. */
  lemma FilledIsRows(c: Canvas, was: seq<bv8>, now: seq<bv8>, y1: nat, y2: nat, x1: nat, x2: nat, v: bv8)
    requires c.Valid() && y1 <= y2 && x1 <= x2 && c.Holds(x2, y2) && |was| == c.data.Length && Colour(c.depth, v)
    requires Painted(c.depth, was, now, Band(c, y1, y2 + 1, x1, x2 + 1), v)
    ensures now == RowByRow(c, was, y1, y2 - y1 + 1, x1, x2, v)
  {
    hide Painted, Band, RowByRow;
    RowsPaint(c, was, y1, y2 - y1 + 1, x1, x2, v);
    PaintedOnce(c.depth, was, now, RowByRow(c, was, y1, y2 - y1 + 1, x1, x2, v), Band(c, y1, y2 + 1, x1, x2 + 1), v);
  }
}
