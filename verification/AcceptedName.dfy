/** Which path segments create_name accepts, what it stores for them, and what get_fileinfo prints, byte for byte. */
module AcceptedNames {
  import opened Words
  import opened Listings
  import opened ShortNames

  /** A byte that may stand on its own: no control character, blank, dot, separator or refused character, no first half of a pair. */
  predicate Plain(c: byte) {
    && c > 0x20 && c !in [0x22, 0x2A, 0x2B, 0x2C, 0x2E, 0x2F, 0x3D, 0x5B, 0x5C, 0x5D, 0x7C, 0x7F]
    && !(0x81 <= c <= 0x9F) && !(0xE0 <= c <= 0xFC)
  }

  /** A double-byte character of code page 932. */
  predicate Pair(c: byte, d: byte) {
    (0x81 <= c <= 0x9F || 0xE0 <= c <= 0xFC) && (0x40 <= d <= 0x7E || 0x80 <= d <= 0xFC)
  }

  predicate Legal(t: seq<byte>) {
    t == [] || (Plain(t[0]) && Legal(t[1..])) || (|t| >= 2 && Pair(t[0], t[1]) && Legal(t[2..]))
  }

  /** Letters of their own in upper case; pairs stay. */
  function Folded(t: seq<byte>): (r: seq<byte>)
    ensures |r| == |t|
  {
    if t == [] then []
    else if |t| >= 2 && Pair(t[0], t[1]) then [t[0], t[1]] + Folded(t[2..])
    else [if 0x61 <= t[0] <= 0x7A then t[0] - 0x20 else t[0]] + Folded(t[1..])
  }

  /** ASCII with letters, all of them small. */
  ghost predicate Small(t: seq<byte>) {
    && (forall i :: 0 <= i < |t| ==> t[i] < 0x80 && !(0x41 <= t[i] <= 0x5A))
    && exists i :: 0 <= i < |t| && 0x61 <= t[i] <= 0x7A
  }

  /** The segment in front of p[n] is a body of at most 8 bytes and, behind a dot, an extension of at most 3; without a dot the body is not empty. */
  ghost predicate Spelled(p: seq<byte>, body: seq<byte>, dot: bool, ext: seq<byte>, n: nat) {
    && n < |p| && p[..n] == body + (if dot then [0x2E] else []) + ext
    && (p[n] < 0x20 || p[n] == 0x2F || p[n] == 0x5C)
    && Legal(body) && Legal(ext) && |body| <= 8 && |ext| <= 3
    && (dot || (body != [] && ext == []))
  }

  // ----- one part -----

  lemma Ways(c: byte, d: byte)
    ensures Plain(c) <==> !IsEnd(c) && c != DOT && !IsDbcs1(c) && !Illegal(c)
    ensures Pair(c, d) <==> IsDbcs1(c) && IsDbcs2(d)
    ensures IsDbcs1(c) ==> !IsEnd(c) && c != DOT
    ensures Upper(c) == if 0x61 <= c <= 0x7A then c - 0x20 else c
  {
  }

  /** What the parser takes for a part is legal, and it stores the part folded. */
  lemma {:induction false} TextLegal(p: seq<byte>, si: nat, room: nat)
    requires Terminated(p) && si < |p| && Text(p, si, room).Piece?
    ensures var r := Text(p, si, room); si <= r.end < |p| && Legal(p[si..r.end]) && r.text == Folded(p[si..r.end])
    decreases |p| - si
  {
    hide IsEnd, Illegal, IsDbcs1, IsDbcs2, Upper, Plain, Pair, Or, BitsOf;
    var c, end := p[si], Text(p, si, room).end;
    if IsEnd(c) || c == DOT || room == 0 {
      assert p[si..end] == [];
    } else if IsDbcs1(c) {
      PairNotLast(p, si);
      Ways(c, p[si + 1]);
      TextLegal(p, si + 2, room - 2);
      var t := p[si..end];
      assert t[0] == c && t[1] == p[si + 1] && t[2..] == p[si + 2..end];
    } else {
      Ways(c, 0);
      NextInside(p, si);
      TextLegal(p, si + 1, room - 1);
      var t := p[si..end];
      assert t[0] == c && t[1..] == p[si + 1..end];
      if |t| >= 2 {
        Ways(c, t[1]);
      }
    }
  }

  lemma NextInside(p: seq<byte>, si: nat)
    requires Terminated(p) && si < |p|
    ensures !IsEnd(p[si]) ==> si + 1 < |p|
  {
  }

  /** A legal part that fits is taken up to its end. */
  lemma {:induction false} TextTakes(p: seq<byte>, si: nat, n: nat, room: nat)
    requires Terminated(p) && si <= n < |p| && Legal(p[si..n]) && n - si <= room
    requires IsEnd(p[n]) || p[n] == DOT || n - si == room
    ensures Text(p, si, room).Piece? && Text(p, si, room).end == n
    decreases n - si
  {
    hide IsEnd, Illegal, IsDbcs1, IsDbcs2, Upper, Plain, Pair, Or, BitsOf;
    if si < n {
      var t := p[si..n];
      assert t[0] == p[si] && t[1..] == p[si + 1..n];
      if Plain(t[0]) && Legal(t[1..]) {
        Ways(t[0], 0);
        TextTakes(p, si + 1, n, room - 1);
      } else {
        assert t[1] == p[si + 1] && t[2..] == p[si + 2..n];
        Ways(t[0], t[1]);
        TextTakes(p, si + 2, n, room - 2);
      }
    }
  }

  // ----- the whole name -----

  lemma PartsOf(p: seq<byte>, body: seq<byte>, dot: bool, ext: seq<byte>, n: nat)
    requires Spelled(p, body, dot, ext, n)
    ensures IsEnd(p[n])
    ensures |body| <= n && p[..|body|] == body && (!dot ==> n == |body|)
    ensures dot ==> n == |body| + 1 + |ext| && p[|body|] == DOT && p[|body| + 1..n] == ext
  {
    hide Legal;
    assert p[..|body|] == p[..n][..|body|];
    if dot {
      assert p[|body|] == p[..n][|body|];
      assert p[|body| + 1..n] == p[..n][|body| + 1..];
    }
  }

  /** The parser's view of a spelled name. */
  lemma SpelledParts(p: seq<byte>, body: seq<byte>, dot: bool, ext: seq<byte>, n: nat) returns (b: Piece, e: Piece)
    requires Terminated(p) && Spelled(p, body, dot, ext, n)
    ensures b == Text(p, 0, 8) && b.Piece? && b.end == |body| && b.text == Folded(body)
    ensures dot ==> |body| + 1 < |p| && e == Text(p, |body| + 1, 3) && e.Piece? && e.end == n && e.text == Folded(ext)
    ensures !dot ==> e == Piece(n, [], 0)
    ensures Parse(p) == Accept(p, b, e)
  {
    PartsOf(p, body, dot, ext, n);
    assert p[0..|body|] == body;
    TextTakes(p, 0, |body|, 8);
    TextLegal(p, 0, 8);
    b := Text(p, 0, 8);
    if dot {
      TextTakes(p, |body| + 1, n, 3);
      TextLegal(p, |body| + 1, 3);
      e := Text(p, |body| + 1, 3);
      DotNoEnd(p, |body|);
    } else {
      e := Piece(n, [], 0);
    }
    hide IsEnd, Text, Folded, Legal, Accept;
    FoldedEmpty(body);
  }

  lemma FoldedEmpty(t: seq<byte>)
    ensures Folded(t) == [] <==> t == []
  {
  }

  /** create_name accepts a segment if and only if it is spelled so. */
  lemma AcceptedExactly(p: seq<byte>)
    requires Terminated(p)
    ensures Parse(p).Accepted? <==> exists body, dot, ext, n :: Spelled(p, body, dot, ext, n)
  {
    if Parse(p).Accepted? {
      var body, dot, ext, n := Spelling(p);
    }
    if body, dot, ext, n :| Spelled(p, body, dot, ext, n) {
      var b, e := SpelledParts(p, body, dot, ext, n);
    }
  }

  lemma Spelling(p: seq<byte>) returns (body: seq<byte>, dot: bool, ext: seq<byte>, n: nat)
    requires Terminated(p) && Parse(p).Accepted?
    ensures Spelled(p, body, dot, ext, n)
  {
    hide Stored, Ascii, HasLetter, Spelled;
    var b, e := Parts(p);
    TextLegal(p, 0, 8);
    assert p[0..b.end] == p[..b.end];
    FoldedEmpty(p[..b.end]);
    body, dot, ext, n := p[..b.end], p[b.end] == DOT, [], e.end;
    if dot {
      TextLegal(p, b.end + 1, 3);
      hide Text, Parse, Accept, Folded, Legal, IsEnd;
      ext := p[b.end + 1..n];
      SpelledDot(p, b.end, n);
    } else {
      SpelledAlone(p, n);
    }
  }

  lemma SpelledDot(p: seq<byte>, m: nat, n: nat)
    requires m < n < |p| && m <= 8 && n - m <= 4 && p[m] == DOT && IsEnd(p[n])
    requires Legal(p[..m]) && Legal(p[m + 1..n])
    ensures Spelled(p, p[..m], true, p[m + 1..n], n)
  {
    hide Legal;
    assert p[..n] == p[..m] + [0x2E] + p[m + 1..n];
  }

  lemma SpelledAlone(p: seq<byte>, n: nat)
    requires 1 <= n < |p| && n <= 8 && IsEnd(p[n]) && Legal(p[..n])
    ensures Spelled(p, p[..n], false, [], n)
  {
    LegalEmpty();
    hide Legal;
    assert p[..n] == p[..n] + [] + [];
  }

  lemma LegalEmpty()
    ensures Legal([])
  {
  }

  /** Byte i of a part that is blank-padded. */
  function Padded(t: seq<byte>, i: nat): byte {
    if i < |t| then t[i] else 0x20
  }

  /**
    What is stored: the parts folded and padded with blanks, a first byte E5 as 05, and a flag byte that says
    whether the path ends here (4) and whether body (8) and extension (16) are all in small letters.
   */
  lemma AcceptedStores(p: seq<byte>, body: seq<byte>, dot: bool, ext: seq<byte>, n: nat, i: nat)
    requires Terminated(p) && Spelled(p, body, dot, ext, n) && i < 11
    ensures Parse(p).Accepted? && Parse(p).next == n + 1
    ensures var c := if i < 8 then Padded(Folded(body), i) else Padded(Folded(ext), i - 8);
            Parse(p).fn[i] == if i == 0 && c == 0xE5 then 5 else c
    ensures Parse(p).fn[11] == (if p[n] < 0x20 then 4 else 0) + (if Small(body) then 8 else 0) + (if Small(ext) then 16 else 0)
  {
    var b, e := SpelledParts(p, body, dot, ext, n);
    PartsOf(p, body, dot, ext, n);
    PartSmall(p, 0, 8, body);
    if dot {
      PartSmall(p, |body| + 1, 3, ext);
    }
    hide Text, Folded, Legal, Small, Parse;
    NothingFolded();
    NameByte(b.text, e.text, Flags(p[n] < 0x20, b.bits, e.bits), i);
  }

  lemma NothingFolded()
    ensures Folded([]) == [] && !Small([])
  {
  }

  lemma NameByte(body: seq<byte>, ext: seq<byte>, flags: byte, i: nat)
    requires |body| <= 8 && |ext| <= 3 && i < 11
    ensures var fn := Fixed(Pad(body, 8) + Pad(ext, 3)) + [flags];
            var c := if i < 8 then Padded(body, i) else Padded(ext, i - 8);
            fn[i] == (if i == 0 && c == 0xE5 then 5 else c) && fn[11] == flags
  {
  }

  /** The case bits of a part are 1 exactly for small letters. */
  lemma PartSmall(p: seq<byte>, si: nat, room: nat, t: seq<byte>)
    requires Terminated(p) && si < |p| && Text(p, si, room).Piece? && t == p[si..Text(p, si, room).end]
    ensures Text(p, si, room).bits == 1 <==> Small(t)
  {
    TextLegal(p, si, room);
    TextShape(p, si, room);
    var r := Text(p, si, room);
    FoldedAscii(t);
    hide Text, Folded, Legal, Stored, HasLetter;
    if Ascii(t) {
      TextCase(p, si, room);
      CasesIn(p, si, r.end);
    }
  }

  lemma CasesIn(p: seq<byte>, si: nat, end: nat)
    requires si <= end <= |p|
    ensures SawLower(p, si, end) <==> exists i :: 0 <= i < end - si && 0x61 <= p[si..end][i] <= 0x7A
    ensures SawUpper(p, si, end) <==> exists i :: 0 <= i < end - si && 0x41 <= p[si..end][i] <= 0x5A
  {
    var t := p[si..end];
    assert forall j :: si <= j < end ==> p[j] == t[j - si];
  }

  lemma AsciiJoin(s: seq<byte>, t: seq<byte>)
    ensures Ascii(s + t) <==> Ascii(s) && Ascii(t)
  {
    assert forall i :: 0 <= i < |s| ==> (s + t)[i] == s[i];
    assert forall i :: 0 <= i < |t| ==> (s + t)[|s| + i] == t[i];
  }

  lemma {:induction false} FoldedAscii(t: seq<byte>)
    ensures Ascii(Folded(t)) <==> Ascii(t)
  {
    if t != [] {
      var k := if |t| >= 2 && Pair(t[0], t[1]) then 2 else 1;
      var f := if k == 2 then [t[0], t[1]] else [if 0x61 <= t[0] <= 0x7A then t[0] - 0x20 else t[0]];
      hide Pair;
      FoldedAscii(t[k..]);
      assert Folded(t) == f + Folded(t[k..]);
      assert t == t[..k] + t[k..];
      AsciiJoin(t[..k], t[k..]);
      AsciiJoin(f, Folded(t[k..]));
    }
  }

  // ----- what is printed -----

  /** Byte c of a name, a capital letter small if the bit is set. */
  function Shown(c: byte, small: bool): byte {
    if small && 0x41 <= c <= 0x5A then c + 0x20 else c
  }

  lemma {:induction false} PartBytes(s: seq<byte>, low: bool, body: bool, n: nat)
    requires n <= |s| && (forall k :: 0 <= k < n ==> s[k] != 0x20) && (n == |s| || s[n] == 0x20)
    ensures |PrintPart(s, low, body)| == n
    ensures forall k :: 0 <= k < n ==> PrintPart(s, low, body)[k] == Shown(if body && s[k] == 5 then 0xE5 else s[k], low)
  {
    if n > 0 {
      PartBytes(s[1..], low, body, n - 1);
    }
  }

  /**
    Any entry whose body has n bytes and whose extension has m in front of the first blank is printed as these,
    05 as E5 in the body, with a dot between them if m is not 0, and capitals small in the body if bit 3 of
    byte 12 is set, in the extension if bit 4 is.
   */
  lemma PrintedBytes(e: Entry, n: nat, m: nat)
    requires n <= 8 && (forall k :: 0 <= k < n ==> e[k] != 0x20) && (n == 8 || e[n] == 0x20)
    requires m <= 3 && (forall k :: 8 <= k < 8 + m ==> e[k] != 0x20) && (m == 3 || e[8 + m] == 0x20)
    ensures |Printed(e)| == if m == 0 then n else n + 1 + m
    ensures forall k :: 0 <= k < n ==> Printed(e)[k] == Shown(if e[k] == 5 then 0xE5 else e[k], e[12] as int / 8 % 2 == 1)
    ensures m > 0 ==> Printed(e)[n] == 0x2E
    ensures forall k :: n < k <= n + m ==> Printed(e)[k] == Shown(e[k - n + 7], e[12] as int / 16 % 2 == 1)
  {
    hide PrintPart, Shown;
    PartBytes(e[..8], LowBody(e[12]), true, n);
    PartBytes(e[8..11], LowExt(e[12]), false, m);
  }
}
