/** 8.3 names: from a path segment to the 11 bytes of a directory entry, and back. Code page 932. */
module ShortNames {
  import opened Words
  import opened Listings

  const NS_LAST: byte := 0x04
  const NS_BODY: byte := 0x08
  const NS_EXT: byte := 0x10

  predicate IsDbcs1(c: byte) {
    0x81 <= c <= 0x9F || 0xE0 <= c <= 0xFC
  }

  predicate IsDbcs2(c: byte) {
    0x40 <= c <= 0x7E || 0x80 <= c <= 0xFC
  }

  predicate IsUpper(c: byte) {
    0x41 <= c <= 0x5A
  }

  predicate IsLower(c: byte) {
    0x61 <= c <= 0x7A
  }

  /** The end of a path segment: a control character or a separator. */
  predicate IsEnd(c: byte) {
    c < 0x20 || c == 0x2F || c == 0x5C
  }

  /** chk_chr: space, quote, asterisk, plus, comma, brackets, equals, bar and DEL may not be in a name. */
  predicate Illegal(c: byte) {
    c in [0x20, 0x22, 0x2A, 0x2B, 0x2C, 0x5B, 0x3D, 0x5D, 0x7C, 0x7F]
  }

  const DOT: byte := 0x2E
  const SPACE: byte := 0x20

  function Upper(c: byte): byte {
    if IsLower(c) then c - 0x20 else c
  }

  // ----- one part of a name: body or extension -----

  /** The case bits collected in b: 1 a lower-case letter, 2 an upper-case one, 3 an extended character. */
  type Bits = x: nat | x < 4

  function Or(x: Bits, y: Bits): Bits {
    (if x % 2 == 1 || y % 2 == 1 then 1 else 0) + (if x >= 2 || y >= 2 then 2 else 0)
  }

  function BitsOf(c: byte): Bits {
    if c >= 0x80 then 3 else if IsUpper(c) then 2 else if IsLower(c) then 1 else 0
  }

  datatype Piece = Bad | Piece(end: nat, text: seq<byte>, bits: Bits)

  function Put(t: seq<byte>, bits: Bits, rest: Piece): Piece {
    if rest.Bad? then Bad else Piece(rest.end, t + rest.text, Or(bits, rest.bits))
  }

  /** A path ends with a NUL. */
  predicate Terminated(p: seq<byte>) {
    p != [] && p[|p| - 1] == 0
  }

  /** The characters from si on, until the segment ends, a dot comes, or room bytes are stored. */
  function Text(p: seq<byte>, si: nat, room: nat): (r: Piece)
    requires Terminated(p) && si < |p|
    ensures r.Piece? ==> si <= r.end < |p| && |r.text| <= room
    ensures r.Piece? ==> IsEnd(p[r.end]) || p[r.end] == DOT || |r.text| == room
    decreases |p| - si
  {
    var c := p[si];
    if IsEnd(c) || c == DOT || room == 0 then Piece(si, [], 0)
    else if IsDbcs1(c) then
      if IsDbcs2(p[si + 1]) && room >= 2 then Put([c, p[si + 1]], 3, Text(p, si + 2, room - 2)) else Bad
    else if Illegal(c) then Bad
    else Put([Upper(c)], BitsOf(c), Text(p, si + 1, room - 1))
  }

  /** A byte that is stored for a character of its own. */
  predicate SingleByte(c: byte) {
    !IsEnd(c) && c != DOT && !IsDbcs1(c) && !Illegal(c) && !IsLower(c)
  }

  /** What create_name stores for a part: legal single bytes without lower case, and double-byte characters. */
  predicate Stored(t: seq<byte>) {
    t == []
    || (SingleByte(t[0]) && Stored(t[1..]))
    || (|t| >= 2 && IsDbcs1(t[0]) && IsDbcs2(t[1]) && Stored(t[2..]))
  }

  predicate Ascii(t: seq<byte>) {
    forall i :: 0 <= i < |t| ==> t[i] < 0x80
  }

  predicate HasLetter(t: seq<byte>) {
    exists i :: 0 <= i < |t| && IsUpper(t[i])
  }

  lemma OrOne(x: Bits, y: Bits)
    ensures Or(x, y) == 1 <==> x <= 1 && y <= 1 && x + y > 0
    ensures Or(x, y) <= 1 <==> x <= 1 && y <= 1
    ensures Or(x, 0) == x
  {
  }

  lemma StoredSingle(c: byte, t: seq<byte>)
    ensures SingleByte(c) && Stored(t) ==> Stored([c] + t)
  {
    hide SingleByte;
    assert ([c] + t)[1..] == t;
  }

  lemma StoredPair(c: byte, d: byte, t: seq<byte>)
    ensures IsDbcs1(c) && IsDbcs2(d) && Stored(t) ==> Stored([c, d] + t)
  {
    hide IsDbcs1, IsDbcs2;
    assert ([c, d] + t)[2..] == t;
  }

  lemma UpperSingle(c: byte)
    ensures !IsEnd(c) && c != DOT && !IsDbcs1(c) && !Illegal(c) ==> SingleByte(Upper(c))
    ensures BitsOf(c) <= 1 ==> Upper(c) < 0x80 && (BitsOf(c) == 1 ==> IsUpper(Upper(c)))
  {
  }

  /** Only lower-case letters were seen: the part is ASCII, so no second byte of a pair can look like a letter. */
  lemma {:induction false} TextShape(p: seq<byte>, si: nat, room: nat)
    requires Terminated(p) && si < |p|
    ensures var r := Text(p, si, room); r.Piece? ==>
              Stored(r.text)
              && (r.bits <= 1 ==> Ascii(r.text))
              && (r.bits == 1 ==> HasLetter(r.text))
    decreases |p| - si
  {
    hide Stored, Or, Upper, BitsOf, IsDbcs1, IsDbcs2, Illegal, SingleByte, Ascii, HasLetter;
    var c := p[si];
    NothingStored();
    if !(IsEnd(c) || c == DOT || room == 0) {
      if IsDbcs1(c) {
        if IsDbcs2(p[si + 1]) && room >= 2 {
          PairNotLast(p, si);
          TextShape(p, si + 2, room - 2);
          var r := Text(p, si + 2, room - 2);
          if r.Piece? {
            StoredPair(c, p[si + 1], r.text);
            OrOne(3, r.bits);
          }
        }
      } else if !Illegal(c) {
        TextShape(p, si + 1, room - 1);
        var r := Text(p, si + 1, room - 1);
        if r.Piece? {
          UpperSingle(c);
          StoredSingle(Upper(c), r.text);
          OrOne(BitsOf(c), r.bits);
          LetterIn(Upper(c), r.text);
        }
      }
    }
  }

  lemma NothingStored()
    ensures Stored([]) && Ascii([])
  {
  }

  lemma PairNotLast(p: seq<byte>, si: nat)
    requires Terminated(p) && si + 1 < |p|
    ensures IsDbcs2(p[si + 1]) ==> si + 2 < |p|
  {
  }

  lemma LetterIn(c: byte, t: seq<byte>)
    ensures HasLetter([c] + t) <==> IsUpper(c) || HasLetter(t)
    ensures Ascii([c] + t) <==> c < 0x80 && Ascii(t)
  {
    hide IsUpper;
    var s := [c] + t;
    assert s[0] == c && s[1..] == t;
    assert forall i :: 0 <= i < |t| ==> s[i + 1] == t[i];
    FirstOrRest(s);
  }

  lemma FirstOrRest(s: seq<byte>)
    requires s != []
    ensures HasLetter(s) <==> IsUpper(s[0]) || HasLetter(s[1..])
  {
    hide IsUpper;
    if HasLetter(s[1..]) {
      var i :| 0 <= i < |s[1..]| && IsUpper(s[1..][i]);
      assert IsUpper(s[i + 1]);
    }
  }

  // ----- printing a part and parsing it again -----

  function LowerIf(c: byte, low: bool): byte {
    if low && IsUpper(c) then c + 0x20 else c
  }

  function LowerAll(t: seq<byte>, low: bool): (s: seq<byte>)
    ensures |s| == |t|
    ensures forall i :: 0 <= i < |t| ==> s[i] == LowerIf(t[i], low)
  {
    seq(|t|, i requires 0 <= i < |t| => LowerIf(t[i], low))
  }

  /** Position si of p shows the printed part t, followed by something that ends it. */
  ghost predicate Shows(p: seq<byte>, si: nat, t: seq<byte>, low: bool, room: nat) {
    && Terminated(p) && si + |t| < |p| && |t| <= room
    && (forall i :: 0 <= i < |t| ==> p[si + i] == LowerIf(t[i], low))
    && (IsEnd(p[si + |t|]) || p[si + |t|] == DOT || |t| == room)
  }

  lemma StoredFirst(t: seq<byte>)
    requires Stored(t) && t != []
    ensures !IsDbcs1(t[0]) ==> SingleByte(t[0]) && Stored(t[1..])
    ensures IsDbcs1(t[0]) ==> |t| >= 2 && IsDbcs2(t[1]) && Stored(t[2..])
  {
  }

  /** A printed single byte is parsed as itself. */
  lemma SingleAgain(c: byte, low: bool)
    requires SingleByte(c) && (low ==> c < 0x80)
    ensures var d := LowerIf(c, low);
            && !IsEnd(d) && d != DOT && !IsDbcs1(d) && !Illegal(d) && Upper(d) == c
            && (low ==> BitsOf(d) == if IsUpper(c) then 1 else 0)
            && (!low ==> BitsOf(d) != 1)
  {
  }

  lemma PairAgain(c: byte)
    requires IsDbcs1(c)
    ensures c >= 0x80 && !IsEnd(c) && c != DOT && !IsUpper(c)
  {
  }

  lemma OrNotOne(x: Bits, y: Bits)
    ensures x != 1 && y != 1 ==> Or(x, y) != 1
    ensures x <= 1 && y <= 1 ==> Or(x, y) == if x == 1 || y == 1 then 1 else 0
    ensures Or(3, y) == 3
  {
  }

  lemma ShowsRest(p: seq<byte>, si: nat, t: seq<byte>, low: bool, room: nat, n: nat)
    requires Shows(p, si, t, low, room) && n <= |t|
    ensures Shows(p, si + n, t[n..], low, room - n)
    ensures forall i :: 0 <= i < n ==> p[si + i] == LowerIf(t[i], low)
    ensures n < |t| ==> si + n < |p|
  {
    hide IsEnd, LowerIf;
    assert si + n + |t[n..]| == si + |t|;
    forall i | 0 <= i < |t[n..]|
      ensures p[si + n + i] == LowerIf(t[n..][i], low)
    {
      assert p[si + (n + i)] == LowerIf(t[n + i], low);
    }
  }

  lemma AsciiRest(t: seq<byte>, n: nat)
    requires n <= |t|
    ensures Ascii(t) ==> Ascii(t[n..])
  {
  }

  /** Parsing a printed part gives the stored bytes back; lower case is seen again exactly where it was printed. */
  lemma {:induction false} TextAgain(p: seq<byte>, si: nat, t: seq<byte>, low: bool, room: nat)
    requires Stored(t) && (low ==> Ascii(t)) && Shows(p, si, t, low, room)
    ensures si < |p|
    ensures var r := Text(p, si, room);
            && r.Piece? && r.end == si + |t| && r.text == t
            && (low ==> r.bits == if HasLetter(t) then 1 else 0)
            && (!low ==> r.bits != 1)
    decreases |t|
  {
    hide Stored, Or, Upper, BitsOf, IsDbcs1, IsDbcs2, Illegal, SingleByte, HasLetter, LowerIf, IsEnd, Put;
    ShowsBounds(p, si, t, low, room);
    if t == [] {
      NoLetter();
    } else {
      StoredFirst(t);
      if IsDbcs1(t[0]) {
        PairAgain(t[0]);
        ShowsRest(p, si, t, low, room, 2);
        NotLowered(t[0]);
        NotLowered(t[1]);
        TextAgain(p, si + 2, t[2..], low, room - 2);
        PairSplit(t);
        OrNotOne(3, Text(p, si + 2, room - 2).bits);
        PutIs([t[0], t[1]], 3, Text(p, si + 2, room - 2));
      } else {
        ShowsRest(p, si, t, low, room, 1);
        assert p[si + 0] == LowerIf(t[0], low);
        AsciiRest(t, 1);
        SingleAgain(t[0], low);
        TextAgain(p, si + 1, t[1..], low, room - 1);
        SingleSplit(t);
        LetterIn(t[0], t[1..]);
        OrNotOne(BitsOf(p[si]), Text(p, si + 1, room - 1).bits);
        PutIs([t[0]], BitsOf(p[si]), Text(p, si + 1, room - 1));
      }
    }
  }

  lemma PairSplit(t: seq<byte>)
    requires |t| >= 2
    ensures t == [t[0], t[1]] + t[2..]
  {
  }

  lemma SingleSplit(t: seq<byte>)
    requires |t| >= 1
    ensures t == [t[0]] + t[1..]
  {
  }

  lemma NotLowered(c: byte)
    ensures LowerIf(c, false) == c
  {
  }

  lemma NoLetter()
    ensures !HasLetter([])
  {
  }

  lemma PutIs(t: seq<byte>, bits: Bits, r: Piece)
    requires r.Piece?
    ensures Put(t, bits, r) == Piece(r.end, t + r.text, Or(bits, r.bits))
  {
  }

  lemma ShowsBounds(p: seq<byte>, si: nat, t: seq<byte>, low: bool, room: nat)
    requires Shows(p, si, t, low, room)
    ensures Terminated(p) && si + |t| < |p| && |t| <= room
    ensures t == [] ==> IsEnd(p[si]) || p[si] == DOT || room == 0
  {
    hide IsEnd, LowerIf;
    assert p[si + |t|] == p[|t| + si];
  }

  // ----- the whole name -----

  function Spaces(n: nat): (s: seq<byte>)
    ensures |s| == n && forall i :: 0 <= i < n ==> s[i] == SPACE
  {
    seq(n, i => SPACE)
  }

  function Pad(t: seq<byte>, n: nat): (s: seq<byte>)
    requires |t| <= n
    ensures |s| == n
  {
    t + Spaces(n - |t|)
  }

  /** A leading byte E5, which would look like a deleted entry, is stored as 05. */
  function Fixed(fn: Name): Name {
    if fn[0] == DELETED then fn[0 := 5] else fn
  }

  function Flags(last: bool, body: Bits, ext: Bits): byte {
    (if last then NS_LAST else 0) as int + (if ext == 1 then NS_EXT else 0) as int + (if body == 1 then NS_BODY else 0) as int
  }

  datatype Parsed = Rejected | Accepted(fn: seq<byte>, next: nat)

  function Accept(p: seq<byte>, body: Piece, ext: Piece): (r: Parsed)
    requires body.Piece? && ext.Piece? && ext.end < |p| && |body.text| <= 8 && |ext.text| <= 3
    ensures r.Accepted? && |r.fn| == 12
  {
    Accepted(Fixed(Pad(body.text, 8) + Pad(ext.text, 3)) + [Flags(p[ext.end] < 0x20, body.bits, ext.bits)], ext.end + 1)
  }

  /** The name, given its body: it ends here, or an extension of at most 3 bytes follows a dot. */
  function FinishBody(p: seq<byte>, body: Piece): (r: Parsed)
    requires Terminated(p) && (body.Piece? ==> body.end < |p| && |body.text| <= 8)
    ensures r.Accepted? ==> |r.fn| == 12
  {
    if body.Bad? then Rejected
    else if IsEnd(p[body.end]) then
      if body.text == [] then Rejected else Accept(p, body, Piece(body.end, [], 0))
    else if p[body.end] == DOT then FinishExt(p, body, Text(p, body.end + 1, 3))
    else Rejected
  }

  function FinishExt(p: seq<byte>, body: Piece, ext: Piece): (r: Parsed)
    requires body.Piece? && |body.text| <= 8 && (ext.Piece? ==> ext.end < |p| && |ext.text| <= 3)
    ensures r.Accepted? ==> |r.fn| == 12
  {
    if ext.Bad? || !IsEnd(p[ext.end]) then Rejected else Accept(p, body, ext)
  }

  /** create_name, as a function of the path from the segment on. */
  function Parse(p: seq<byte>): (r: Parsed)
    requires Terminated(p)
    ensures r.Accepted? ==> |r.fn| == 12
  {
    FinishBody(p, Text(p, 0, 8))
  }

  // ----- printing -----

  function PrintPart(s: seq<byte>, low: bool, body: bool): seq<byte> {
    if s == [] || s[0] == SPACE then []
    else [LowerIf(if body && s[0] == 5 then DELETED else s[0], low)] + PrintPart(s[1..], low, body)
  }

  predicate LowBody(nt: byte) {
    nt as int / 8 % 2 == 1
  }

  predicate LowExt(nt: byte) {
    nt as int / 16 % 2 == 1
  }

  /** The name get_fileinfo makes of an entry. */
  function Printed(e: Entry): seq<byte> {
    PrintPart(e[..8], LowBody(e[12]), true)
    + if e[8] == SPACE then [] else [DOT] + PrintPart(e[8..11], LowExt(e[12]), false)
  }

  /** Stored bytes are neither blanks nor control characters. */
  lemma {:induction false} StoredVisible(t: seq<byte>)
    requires Stored(t)
    ensures forall i :: 0 <= i < |t| ==> t[i] > SPACE
    decreases |t|
  {
    if t != [] {
      StoredFirst(t);
      hide Stored, Illegal;
      if IsDbcs1(t[0]) {
        StoredVisible(t[2..]);
        assert forall i :: 2 <= i < |t| ==> t[i] == t[2..][i - 2];
      } else {
        SingleVisible(t[0]);
        StoredVisible(t[1..]);
        assert forall i :: 1 <= i < |t| ==> t[i] == t[1..][i - 1];
      }
    }
  }

  lemma SingleVisible(c: byte)
    ensures SingleByte(c) ==> c > SPACE
  {
  }

  /** Printing a padded part gives the part, in the case the flag says. */
  lemma {:induction false} PrintPadded(t: seq<byte>, n: nat, low: bool, body: bool)
    requires |t| <= n && forall i :: 0 <= i < |t| ==> t[i] > SPACE
    ensures PrintPart(Pad(t, n), low, body) == LowerAll(t, low)
    decreases n
  {
    var s := Pad(t, n);
    if t != [] {
      assert s[1..] == Pad(t[1..], n - 1);
      PrintPadded(t[1..], n - 1, low, body);
      assert LowerAll(t, low) == [LowerIf(t[0], low)] + LowerAll(t[1..], low);
    }
  }

  /** The body is printed with its leading byte restored. */
  lemma PrintBody(t: seq<byte>, low: bool)
    requires |t| <= 8 && forall i :: 0 <= i < |t| ==> t[i] > SPACE
    ensures var s := Pad(t, 8); PrintPart(if s[0] == DELETED then s[0 := 5] else s, low, true) == LowerAll(t, low)
  {
    var s := Pad(t, 8);
    PrintPadded(t, 8, low, true);
    if s[0] == DELETED {
      assert s[0 := 5][1..] == s[1..];
      assert LowerIf(DELETED, low) == DELETED;
    }
  }

  /** The bytes and flags that create_name put in an entry, taken apart again. */
  lemma EntryParts(body: seq<byte>, ext: seq<byte>, last: bool, bb: Bits, eb: Bits)
    requires |body| <= 8 && |ext| <= 3
    ensures var fn := Fixed(Pad(body, 8) + Pad(ext, 3)) + [Flags(last, bb, eb)];
            var e := NewEntry(fn);
            var s := Pad(body, 8);
            && e[..8] == (if s[0] == DELETED then s[0 := 5] else s)
            && e[8..11] == Pad(ext, 3) && (e[8] == SPACE <==> Pad(ext, 3)[0] == SPACE)
            && LowBody(e[12]) == (bb == 1) && LowExt(e[12]) == (eb == 1)
  {
    hide Pad, LowBody, LowExt, NtFlags, Flags;
    FlagBits(last, bb, eb);
    var q := Pad(body, 8) + Pad(ext, 3);
    var fn := Fixed(q) + [Flags(last, bb, eb)];
    var e := NewEntry(fn);
    assert e[12] == NtFlags(fn[11]) by {
      EntryByte12(fn);
    }
    assert forall i :: 0 <= i < 11 ==> e[i] == e[..11][i] == fn[..11][i] == fn[i];
  }

  lemma FlagBits(last: bool, bb: Bits, eb: Bits)
    ensures LowBody(NtFlags(Flags(last, bb, eb))) == (bb == 1)
    ensures LowExt(NtFlags(Flags(last, bb, eb))) == (eb == 1)
  {
  }

  lemma EntryByte12(fn: seq<byte>)
    requires |fn| == 12
    ensures NewEntry(fn)[12] == NtFlags(fn[11])
  {
  }

  // ----- round trips -----

  /** A parsed part: legal stored bytes, and single lower case only on an ASCII part with a letter. */
  ghost predicate Part(t: seq<byte>, bits: Bits, n: nat) {
    |t| <= n && Stored(t) && (bits == 1 ==> Ascii(t) && HasLetter(t))
  }

  /** What an accepted name was made of. */
  lemma Parts(p: seq<byte>) returns (body: Piece, ext: Piece)
    requires Terminated(p) && Parse(p).Accepted?
    ensures body.Piece? && ext.Piece? && ext.end < |p| && IsEnd(p[ext.end])
    ensures Part(body.text, body.bits, 8) && Part(ext.text, ext.bits, 3)
    ensures Parse(p) == Accept(p, body, ext)
    ensures body == Text(p, 0, 8)
    ensures p[body.end] == DOT ==> body.end + 1 < |p| && ext == Text(p, body.end + 1, 3)
    ensures p[body.end] != DOT ==> ext == Piece(body.end, [], 0)
  {
    hide Stored, Ascii, HasLetter, Accept;
    TextShape(p, 0, 8);
    body := Text(p, 0, 8);
    NothingStored();
    hide IsEnd;
    if p[body.end] == DOT {
      DotNoEnd(p, body.end);
      TextShape(p, body.end + 1, 3);
      ext := Text(p, body.end + 1, 3);
    } else {
      ext := Piece(body.end, [], 0);
    }
  }

  lemma DotNoEnd(p: seq<byte>, i: nat)
    requires Terminated(p) && i < |p| && p[i] == DOT
    ensures i + 1 < |p| && !IsEnd(p[i])
  {
  }

  function NameBytes(body: seq<byte>, ext: seq<byte>, bits: Bits, eits: Bits): (s: seq<byte>)
  {
    LowerAll(body, bits == 1) + if ext == [] then [] else [DOT] + LowerAll(ext, eits == 1)
  }

  /** The printed name of an entry made of two parts. */
  lemma PrintedParts(body: seq<byte>, ext: seq<byte>, last: bool, bb: Bits, eb: Bits)
    requires Part(body, bb, 8) && Part(ext, eb, 3)
    ensures Printed(NewEntry(Fixed(Pad(body, 8) + Pad(ext, 3)) + [Flags(last, bb, eb)])) == NameBytes(body, ext, bb, eb)
  {
    EntryParts(body, ext, last, bb, eb);
    hide Stored, LowBody, LowExt, Flags, PrintPart, Fixed, NewEntry;
    StoredVisible(body);
    StoredVisible(ext);
    PrintBody(body, bb == 1);
    PrintPadded(ext, 3, eb == 1, false);
    if ext != [] {
      assert Pad(ext, 3)[0] == ext[0];
    }
  }

  lemma BodyShows(body: seq<byte>, ext: seq<byte>, bb: Bits, eb: Bits, q: seq<byte>)
    requires q == NameBytes(body, ext, bb, eb) + [0] && |body| <= 8
    ensures Terminated(q) && |body| < |q| && q[|body|] == (if ext == [] then 0 else DOT)
    ensures Shows(q, 0, body, bb == 1, 8)
  {
    hide LowerIf;
    assert q[|q| - 1] == 0;
  }

  lemma ExtShows(body: seq<byte>, ext: seq<byte>, bb: Bits, eb: Bits, q: seq<byte>)
    requires q == NameBytes(body, ext, bb, eb) + [0] && |ext| <= 3 && ext != []
    ensures |q| == |body| + 1 + |ext| + 1 && Terminated(q) && q[|q| - 1] == 0
    ensures Shows(q, |body| + 1, ext, eb == 1, 3)
  {
    hide LowerIf;
    var n := |body| + 1;
    var x := LowerAll(ext, eb == 1);
    assert q == (LowerAll(body, bb == 1) + [DOT]) + x + [0];
    forall i | 0 <= i < |ext|
      ensures q[n + i] == LowerIf(ext[i], eb == 1)
    {
      assert q[n + i] == x[i];
    }
  }

  /** A printed name parses to the same parts. */
  lemma NameAgain(body: seq<byte>, ext: seq<byte>, bb: Bits, eb: Bits) returns (b: Bits, e: Bits)
    requires Part(body, bb, 8) && Part(ext, eb, 3) && (body != [] || ext != [])
    ensures (b == 1 <==> bb == 1) && (e == 1 <==> eb == 1)
    ensures var q := NameBytes(body, ext, bb, eb) + [0];
            Parse(q) == Accepted(Fixed(Pad(body, 8) + Pad(ext, 3)) + [Flags(true, b, e)], |q|)
  {
    hide Stored, Ascii, LowerIf, Flags, Pad, Fixed, Text, Shows, HasLetter, NameBytes;
    var q := NameBytes(body, ext, bb, eb) + [0];
    BodyShows(body, ext, bb, eb, q);
    TextAgain(q, 0, body, bb == 1, 8);
    b := Text(q, 0, 8).bits;
    if ext == [] {
      e := 0;
      NoLetter();
      BodyEnd(body, bb, eb, q);
    } else {
      ExtShows(body, ext, bb, eb, q);
      TextAgain(q, |body| + 1, ext, eb == 1, 3);
      e := Text(q, |body| + 1, 3).bits;
    }
  }

  lemma BodyEnd(body: seq<byte>, bb: Bits, eb: Bits, q: seq<byte>)
    requires q == NameBytes(body, [], bb, eb) + [0]
    ensures |q| == |body| + 1
  {
  }

  /** The stored name is not blank: some byte is no space. */
  predicate NonBlank(fn: seq<byte>)
    requires |fn| >= 11
  {
    exists i :: 0 <= i < 11 && fn[i] != SPACE
  }

  lemma BlankParts(body: seq<byte>, ext: seq<byte>, last: bool, bb: Bits, eb: Bits)
    requires |body| <= 8 && |ext| <= 3
    ensures NonBlank(Fixed(Pad(body, 8) + Pad(ext, 3)) + [Flags(last, bb, eb)]) ==> body != [] || ext != []
  {
    hide Flags;
  }

  /**
    Names round-trip: an accepted segment, stored as dir_register stores it, printed by get_fileinfo and
    parsed again, gives the same 11 bytes and the same NT case flags.
   */
  lemma RoundTrip(p: seq<byte>)
    requires Terminated(p) && Parse(p).Accepted? && NonBlank(Parse(p).fn)
    ensures var fn := Parse(p).fn;
            var q := Printed(NewEntry(fn)) + [0];
            && Parse(q).Accepted? && Parse(q).next == |q|
            && Parse(q).fn[..11] == fn[..11] && NtFlags(Parse(q).fn[11]) == NtFlags(fn[11])
  {
    hide Parse, NonBlank, Printed, NewEntry, Stored, Ascii, HasLetter, Pad, Fixed, Flags, NtFlags, IsEnd, NameBytes;
    var body, ext := Parts(p);
    var last := p[ext.end] < 0x20;
    BlankParts(body.text, ext.text, last, body.bits, ext.bits);
    PrintedParts(body.text, ext.text, last, body.bits, ext.bits);
    var b, e := NameAgain(body.text, ext.text, body.bits, ext.bits);
    SameFlags(last, body.bits, ext.bits, b, e);
  }

  lemma SameFlags(last: bool, bb: Bits, eb: Bits, b: Bits, e: Bits)
    requires (b == 1 <==> bb == 1) && (e == 1 <==> eb == 1)
    ensures NtFlags(Flags(true, b, e)) == NtFlags(Flags(last, bb, eb))
  {
  }

  /** No name is stored with a first byte that marks a deleted or an unused entry. */
  lemma NeverDeleted(p: seq<byte>)
    requires Terminated(p) && Parse(p).Accepted?
    ensures Storable(Parse(p).fn[..11])
  {
    hide Parse, Stored, Ascii, HasLetter, Flags;
    var body, ext := Parts(p);
    StoredVisible(body.text);
    assert Parse(p).fn[..11][0] == Parse(p).fn[0];
  }

  /** A case flag is set on an ASCII part only, so get_fileinfo never changes a byte of a double-byte character. */
  lemma FlagsAsciiOnly(p: seq<byte>)
    requires Terminated(p) && Parse(p).Accepted?
    ensures LowBody(NtFlags(Parse(p).fn[11])) ==> Ascii(Parse(p).fn[..8])
    ensures LowExt(NtFlags(Parse(p).fn[11])) ==> Ascii(Parse(p).fn[8..11])
  {
    hide Parse, Stored, HasLetter, Flags, LowBody, LowExt, NtFlags, IsEnd;
    var body, ext := Parts(p);
    FlagBits(p[ext.end] < 0x20, body.bits, ext.bits);
    PadAscii(body.text, 8);
    PadAscii(ext.text, 3);
    var fn := Parse(p).fn;
    assert fn[8..11] == Pad(ext.text, 3);
    if body.bits == 1 {
      assert fn[..8] == Pad(body.text, 8);
    }
  }

  lemma PadAscii(t: seq<byte>, n: nat)
    requires |t| <= n
    ensures Ascii(t) ==> Ascii(Pad(t, n))
  {
  }

  // ----- names that print as they were typed -----

  /** ASCII, with letters of one case at most. */
  ghost predicate OneCase(s: seq<byte>) {
    Ascii(s) && !((exists i :: 0 <= i < |s| && IsUpper(s[i])) && (exists j :: 0 <= j < |s| && IsLower(s[j])))
  }

  ghost predicate SawLower(p: seq<byte>, from: nat, to: nat)
    requires to <= |p|
  {
    exists j :: from <= j < to && IsLower(p[j])
  }

  ghost predicate SawUpper(p: seq<byte>, from: nat, to: nat)
    requires to <= |p|
  {
    exists j :: from <= j < to && IsUpper(p[j])
  }

  lemma SawStep(p: seq<byte>, from: nat, to: nat)
    requires from < to <= |p|
    ensures SawLower(p, from, to) <==> IsLower(p[from]) || SawLower(p, from + 1, to)
    ensures SawUpper(p, from, to) <==> IsUpper(p[from]) || SawUpper(p, from + 1, to)
  {
    hide IsLower, IsUpper;
  }

  lemma SawNothing(p: seq<byte>, from: nat)
    requires from <= |p|
    ensures !SawLower(p, from, from) && !SawUpper(p, from, from)
  {
  }

  /** On ASCII a part is its characters in upper case, and the bits say which cases were seen. */
  lemma {:induction false} TextCase(p: seq<byte>, si: nat, room: nat)
    requires Terminated(p) && si < |p| && Text(p, si, room).Piece?
    requires Ascii(p[si..Text(p, si, room).end])
    ensures var r := Text(p, si, room);
            && |r.text| == r.end - si
            && (forall i :: 0 <= i < |r.text| ==> r.text[i] == Upper(p[si + i]))
            && (r.bits % 2 == 1 <==> SawLower(p, si, r.end))
            && (r.bits >= 2 <==> SawUpper(p, si, r.end))
    decreases |p| - si
  {
    hide IsEnd, Illegal, Stored, SawLower, SawUpper, IsUpper, IsLower, Upper, Or, BitsOf, IsDbcs1, IsDbcs2;
    var c := p[si];
    SawNothing(p, si);
    if !(IsEnd(c) || c == DOT || room == 0) {
      var end := Text(p, si, room).end;
      PairNotLast(p, si);
      AsciiPart(p, si, end);
      AsciiSingle(c);
      TextCase(p, si + 1, room - 1);
      var r := Text(p, si + 1, room - 1);
      CaseStep(c, r.bits);
      SawStep(p, si, end);
      forall i | 0 < i < |r.text| + 1
        ensures ([Upper(c)] + r.text)[i] == Upper(p[si + i])
      {
        assert r.text[i - 1] == Upper(p[si + 1 + (i - 1)]);
      }
    }
  }

  lemma AsciiPart(p: seq<byte>, si: nat, end: nat)
    requires si <= end <= |p| && Ascii(p[si..end])
    ensures si < end ==> p[si] < 0x80 && Ascii(p[si + 1..end])
  {
    if si < end {
      assert p[si..end][0] == p[si];
      assert p[si + 1..end] == p[si..end][1..];
    }
  }

  lemma AsciiSingle(c: byte)
    ensures c < 0x80 ==> !IsDbcs1(c)
  {
  }

  lemma CaseStep(c: byte, y: Bits)
    requires c < 0x80
    ensures Or(BitsOf(c), y) % 2 == 1 <==> IsLower(c) || y % 2 == 1
    ensures Or(BitsOf(c), y) >= 2 <==> IsUpper(c) || y >= 2
  {
  }

  lemma NotBoth(p: seq<byte>, si: nat, end: nat)
    requires si <= end <= |p| && OneCase(p[si..end])
    ensures Ascii(p[si..end])
    ensures !(SawUpper(p, si, end) && SawLower(p, si, end))
    ensures forall j :: si <= j < end ==>
              (IsUpper(p[j]) ==> SawUpper(p, si, end)) && (IsLower(p[j]) ==> SawLower(p, si, end))
  {
    var s := p[si..end];
    assert forall j :: si <= j < end ==> p[j] == s[j - si];
  }

  lemma CaseBack(c: byte, low: bool)
    requires (IsLower(c) ==> low) && (IsUpper(c) ==> !low)
    ensures LowerIf(Upper(c), low) == c
  {
  }

  /** A part typed in one case prints as it was typed. */
  lemma PartPrints(p: seq<byte>, si: nat, room: nat)
    requires Terminated(p) && si < |p| && Text(p, si, room).Piece?
    requires OneCase(p[si..Text(p, si, room).end])
    ensures var r := Text(p, si, room); LowerAll(r.text, r.bits == 1) == p[si..r.end]
  {
    hide Text, OneCase, IsUpper, IsLower, Upper, LowerIf, SawLower, SawUpper;
    var r := Text(p, si, room);
    NotBoth(p, si, r.end);
    TextCase(p, si, room);
    forall i | 0 <= i < r.end - si
      ensures LowerIf(r.text[i], r.bits == 1) == p[si + i]
    {
      CaseBack(p[si + i], r.bits == 1);
    }
    assert forall i :: 0 <= i < r.end - si ==> p[si..r.end][i] == p[si + i];
  }

  /** The typed segment is single-case ASCII in its body and in its extension, and does not end with its dot. */
  ghost predicate TypedPlainly(p: seq<byte>)
    requires Terminated(p)
  {
    var body := Text(p, 0, 8);
    && body.Piece? && OneCase(p[..body.end])
    && (p[body.end] == DOT ==>
      && body.end + 1 < |p|
      && var ext := Text(p, body.end + 1, 3);
         ext.Piece? && ext.end > body.end + 1 && OneCase(p[body.end + 1..ext.end]))
  }

  /** A segment whose body and extension each are single-case ASCII prints as typed, unless it ends with its dot. */
  lemma PrintsAsTyped(p: seq<byte>)
    requires Terminated(p) && Parse(p).Accepted? && TypedPlainly(p)
    ensures 0 < Parse(p).next <= |p|
    ensures Printed(NewEntry(Parse(p).fn)) == p[..Parse(p).next - 1]
  {
    hide Parse, Printed, NewEntry, Stored, Ascii, HasLetter, Pad, Fixed, Flags, IsEnd, OneCase, Text, NameBytes;
    var body, ext := Parts(p);
    PrintedParts(body.text, ext.text, p[ext.end] < 0x20, body.bits, ext.bits);
    assert p[0..body.end] == p[..body.end];
    PartPrints(p, 0, 8);
    if p[body.end] == DOT {
      PartPrints(p, body.end + 1, 3);
    }
    TypedBytes(p, body, ext);
  }

  lemma TypedBytes(p: seq<byte>, body: Piece, ext: Piece)
    requires body.Piece? && ext.Piece? && body.end <= ext.end < |p|
    requires LowerAll(body.text, body.bits == 1) == p[..body.end]
    requires p[body.end] == DOT ==>
               body.end + 1 < ext.end && LowerAll(ext.text, ext.bits == 1) == p[body.end + 1..ext.end]
    requires p[body.end] != DOT ==> ext.text == [] && ext.end == body.end
    ensures NameBytes(body.text, ext.text, body.bits, ext.bits) == p[..ext.end]
  {
    if p[body.end] == DOT {
      assert |ext.text| == |p[body.end + 1..ext.end]|;
      assert p[..ext.end] == p[..body.end] + [DOT] + p[body.end + 1..ext.end];
    }
  }
}
