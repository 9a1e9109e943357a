/** create_name and get_fileinfo, on their buffers. */
module NameOps {
  import opened Words
  import opened Disk
  import opened Entries
  import opened Listings
  import opened ShortNames

  /** b | x for a value below 4. */
  function OrBits(b: byte, x: Bits): byte {
    b as int / 4 * 4 + Or(b as int % 4, x)
  }

  lemma OrBitsSplit(b: byte, x: Bits)
    ensures OrBits(b, x) as int / 4 == b as int / 4 && OrBits(b, x) as int % 4 == Or(b as int % 4, x)
    ensures OrBits(b, 0) == b
  {
  }

  lemma PutPut(t: seq<byte>, x: Bits, u: seq<byte>, y: Bits, r: Piece)
    ensures Put(t, x, Put(u, y, r)) == Put(t + u, Or(x, y), r)
  {
    if r.Piece? {
      assert t + u + r.text == t + (u + r.text);
    }
  }

  /** One stored character of create_name: a double-byte pair, or a legal single byte in upper case. */
  method StoreChar(p: seq<byte>, c: byte, next: nat, sfn: array<byte>, at: nat, ni: nat, bits: byte)
    returns (ok: bool, si: nat, i: nat, b: byte, ghost x: Bits)
    requires Terminated(p) && 0 < next <= |p| && p[next - 1] == c && !IsEnd(c) && c != DOT
    requires sfn.Length == 12 && at < ni <= 11
    modifies sfn
    ensures ok ==> next <= si < |p| && at < i <= ni && b == OrBits(bits, x)
    ensures ok ==> sfn[..at] == old(sfn[..at]) && sfn[i..] == old(sfn[i..])
    ensures ok ==> Text(p, next - 1, ni - at) == Put(sfn[at..i], x, Text(p, si, ni - i))
    ensures !ok ==> Text(p, next - 1, ni - at) == Bad
  {
    hide Illegal, Or, Put, Text;
    TextStep(p, next - 1, ni - at);
    ok, si, i, b, x := true, next, at, bits, BitsOf(c);
    OrBitsSplit(bits, 0);
    NotLast(p, next);
    if c >= 0x80 {
      b := OrBits(b, 3);
    }
    if IsDbcs1(c) {
      var d := p[si];
      si := si + 1;
      if !IsDbcs2(d) || i >= ni - 1 {
        ok := false;
        return;
      }
      PairNotLast(p, next - 1);
      sfn[i] := c;
      i := i + 1;
      sfn[i] := d;
      i := i + 1;
      assert sfn[at..i] == [c, d];
    } else {
      if Illegal(c) {
        ok := false;
        return;
      }
      var e := c;
      if IsUpper(c) {
        b := OrBits(b, 2);
      } else if IsLower(c) {
        b := OrBits(b, 1);
        e := c - 0x20;
      }
      sfn[i] := e;
      i := i + 1;
      assert sfn[at..i] == [Upper(c)];
    }
  }

  /** What the parse function makes of one stored character. */
  lemma TextStep(p: seq<byte>, si: nat, room: nat)
    requires Terminated(p) && si < |p| && !IsEnd(p[si]) && p[si] != DOT && room > 0
    ensures si + 1 < |p|
    ensures IsDbcs1(p[si]) && !(IsDbcs2(p[si + 1]) && room >= 2) ==> Text(p, si, room) == Bad
    ensures IsDbcs1(p[si]) && IsDbcs2(p[si + 1]) && room >= 2 ==>
              si + 2 < |p| && Text(p, si, room) == Put([p[si], p[si + 1]], 3, Text(p, si + 2, room - 2))
    ensures !IsDbcs1(p[si]) && Illegal(p[si]) ==> Text(p, si, room) == Bad
    ensures !IsDbcs1(p[si]) && !Illegal(p[si]) ==>
              Text(p, si, room) == Put([Upper(p[si])], BitsOf(p[si]), Text(p, si + 1, room - 1))
  {
    NotLast(p, si + 1);
    if IsDbcs1(p[si]) && IsDbcs2(p[si + 1]) {
      PairNotLast(p, si);
    }
    hide Illegal, Put;
  }

  lemma NotLast(p: seq<byte>, next: nat)
    requires Terminated(p) && 0 < next <= |p| && !IsEnd(p[next - 1])
    ensures next < |p|
  {
  }

  /** The state of create_name's loop: what is stored, and what the rest of the path will make of it. */
  ghost predicate Midname(p: seq<byte>, s: seq<byte>, body: Piece, si: nat, i: nat, ni: nat, b: byte) {
    && Terminated(p) && si < |p| && |s| == 12 && i <= ni
    && (forall k :: i <= k < 11 ==> s[k] == SPACE)
    && if ni == 8 then b < 4 && Parse(p) == FinishBody(p, Put(s[..i], b as int, Text(p, si, 8 - i)))
       else
         && ni == 11 && i >= 8 && body.Piece? && |body.text| <= 8 && b as int / 4 == body.bits
         && s[..8] == Pad(body.text, 8)
         && Parse(p) == FinishExt(p, body, Put(s[8..i], b as int % 4, Text(p, si, 11 - i)))
  }

  /** create_name: the segment at the start of p, as 11 bytes and the flag byte; next is behind its terminator. */
  method CreateName(p: seq<byte>, sfn: array<byte>) returns (res: FResult, next: nat)
    requires Terminated(p) && sfn.Length == 12
    modifies sfn
    ensures res == Ok || res == InvalidName
    ensures res == InvalidName <==> Parse(p) == Rejected
    ensures res == Ok ==> Parse(p) == Accepted(sfn[..], next)
  {
    hide Text, Illegal, Or, Put, Pad, Parse, FinishBody, FinishExt, Terminated, Midname, Flags, Fixed;
    MemSet(sfn, 0, SPACE, 11);
    var si: nat, i: nat, ni: nat := 0, 0, 8;
    var b: byte := 0;
    ghost var body := Bad;
    NameStarts(p, sfn[..]);
    var c: byte;
    next := 0;
    while true
      invariant Midname(p, sfn[..], body, si, i, ni, b)
      decreases |p| - si
    {
      MidnameBounds(p, sfn[..], body, si, i, ni, b);
      c := p[si];
      si := si + 1;
      if c < 0x20 || c == 0x2F || c == 0x5C {
        break;
      }
      if c == DOT || i >= ni {
        NameTurns(p, sfn[..], body, si - 1, i, ni, b);
        if ni != 8 || c != DOT {
          return InvalidName, next;
        }
        body := Piece(si - 1, sfn[..i], b as int);
        i := 8;
        ni := 11;
        b := b as int * 4 % 0x100;
        continue;
      }
      ghost var s := sfn[..];
      ghost var x: Bits;
      var ok: bool;
      ghost var si0, i0, b0 := si - 1, i, b;
      ok, si, i, b, x := StoreChar(p, c, si, sfn, i, ni, b);
      if !ok {
        NameFails(p, s, body, si0, i0, ni, b0);
        return InvalidName, next;
      }
      NameGoesOn(p, s, body, si0, i0, ni, b0, sfn[..], si, i, x);
    }
    NameEnds(p, sfn[..], body, si - 1, i, ni, b);
    ghost var s := sfn[..];
    next := si;
    if i == 0 {
      return InvalidName, next;
    }
    if sfn[0] == DELETED {
      sfn[0] := 5;
    }
    assert sfn[..11] == Fixed(s[..11]) by {
      FixedStore(s);
    }
    sfn[11] := NameFlags(c, ni, b);
    assert sfn[..] == sfn[..11] + [sfn[11]];
    return Ok, next;
  }

  /** The flag byte, from the character that ended the segment and the case bits collected. */
  method NameFlags(end: byte, ni: nat, bits: byte) returns (c: byte)
    requires ni == 8 ==> bits < 4
    ensures c == Flags(end < 0x20, BodyBits(ni, bits), ExtBits(ni, bits))
  {
    FlagSteps(ni, bits);
    FlagsAre(end < 0x20, BodyBits(ni, bits), ExtBits(ni, bits));
    hide Flags;
    var b := bits;
    c := if end < 0x20 then NS_LAST else 0;
    if ni == 8 {
      b := b as int * 4 % 0x100;
    }
    if b as int % 4 == 1 {
      c := c + NS_EXT;
    }
    if b as int / 4 % 4 == 1 {
      c := c + NS_BODY;
    }
  }

  function BodyBits(ni: nat, b: byte): Bits {
    if ni == 8 then b as int % 4 else b as int / 4 % 4
  }

  function ExtBits(ni: nat, b: byte): Bits {
    if ni == 8 then 0 else b as int % 4
  }

  /** The final shift leaves the body's bits above the extension's. */
  lemma FlagSteps(ni: nat, b: byte)
    requires ni == 8 ==> b < 4
    ensures ni == 8 ==> b as int * 4 % 0x100 % 4 == 0 && b as int * 4 % 0x100 / 4 % 4 == b
    ensures ni == 8 ==> BodyBits(ni, b) == b
  {
  }

  lemma FlagsAre(last: bool, bb: Bits, eb: Bits)
    ensures Flags(last, bb, eb) as int
            == (if last then 4 else 0) + (if eb == 1 then 0x10 else 0) + (if bb == 1 then 8 else 0)
  {
  }

  lemma FixedStore(s: seq<byte>)
    requires |s| == 12
    ensures s[0] == DELETED ==> s[0 := 5][..11] == Fixed(s[..11])
    ensures s[0] != DELETED ==> s[..11] == Fixed(s[..11])
  {
    assert s[..11][0] == s[0];
  }

  lemma MidnameBounds(p: seq<byte>, s: seq<byte>, body: Piece, si: nat, i: nat, ni: nat, b: byte)
    requires Midname(p, s, body, si, i, ni, b)
    ensures Terminated(p) && si < |p| && |s| == 12 && i <= ni && (ni == 8 || (ni == 11 && i >= 8))
    ensures ni == 8 ==> b < 4
    ensures ni == 11 ==> b as int / 4 < 4
  {
    hide Text, Put, Pad, Parse, FinishBody, FinishExt;
  }

  lemma NameStarts(p: seq<byte>, s: seq<byte>)
    requires Terminated(p) && |s| == 12 && forall k :: 0 <= k < 11 ==> s[k] == SPACE
    ensures Midname(p, s, Bad, 0, 0, 8, 0)
  {
    hide Text, FinishBody, Or;
    var r := Text(p, 0, 8);
    assert s[..0] == [];
    PutNothing(r);
  }

  lemma PutNothing(r: Piece)
    ensures Put([], 0, r) == r
  {
    if r.Piece? {
      assert [] + r.text == r.text;
    }
  }

  lemma StopText(p: seq<byte>, si: nat, room: nat)
    requires Terminated(p) && si < |p| && (IsEnd(p[si]) || p[si] == DOT || room == 0)
    ensures Text(p, si, room) == Piece(si, [], 0)
  {
  }

  lemma PutStop(t: seq<byte>, b: Bits, si: nat)
    ensures Put(t, b, Piece(si, [], 0)) == Piece(si, t, b)
  {
    assert t + [] == t;
  }

  /** A dot, or no room: the name is refused, or its extension starts. */
  lemma NameTurns(p: seq<byte>, s: seq<byte>, body: Piece, si: nat, i: nat, ni: nat, b: byte)
    requires Midname(p, s, body, si, i, ni, b) && !IsEnd(p[si]) && (p[si] == DOT || i >= ni)
    ensures ni != 8 || p[si] != DOT ==> Parse(p) == Rejected
    ensures ni == 8 && p[si] == DOT ==>
              si + 1 < |p| && i <= 8 <= |s| && b < 4
              && Midname(p, s, Piece(si, s[..i], b as int), si + 1, 8, 11, b as int * 4 % 0x100)
  {
    hide Text, Put, Parse, IsEnd, Or;
    StopText(p, si, ni - i);
    if ni == 8 {
      PutStop(s[..i], b as int, si);
      if p[si] == DOT {
        DotNoEnd(p, si);
        assert s[8..8] == [];
        PutNothing(Text(p, si + 1, 3));
        assert s[..8] == Pad(s[..i], 8);
      }
    } else {
      PutStop(s[8..i], b as int % 4, si);
    }
  }

  /** The segment ends: what is stored is the name. */
  lemma NameEnds(p: seq<byte>, s: seq<byte>, body: Piece, si: nat, i: nat, ni: nat, b: byte)
    requires Midname(p, s, body, si, i, ni, b) && IsEnd(p[si])
    ensures i == 0 ==> Parse(p) == Rejected
    ensures i > 0 ==>
              Parse(p) == Accepted(Fixed(s[..11]) + [Flags(p[si] < 0x20, BodyBits(ni, b), ExtBits(ni, b))], si + 1)
  {
    hide Text, Put, Parse, Or, Fixed, Flags, IsEnd;
    StopText(p, si, ni - i);
    if ni == 8 {
      PutStop(s[..i], b as int, si);
      assert s[..11] == Pad(s[..i], 8) + Pad([], 3);
    } else {
      PutStop(s[8..i], b as int % 4, si);
      PadTail(s, i);
    }
  }

  lemma PadTail(s: seq<byte>, i: nat)
    requires |s| == 12 && 8 <= i <= 11 && forall k :: i <= k < 11 ==> s[k] == SPACE
    ensures s[..11] == s[..8] + Pad(s[8..i], 3)
  {
  }

  lemma NameFails(p: seq<byte>, s: seq<byte>, body: Piece, si: nat, i: nat, ni: nat, b: byte)
    requires Midname(p, s, body, si, i, ni, b) && Text(p, si, ni - i) == Bad
    ensures Parse(p) == Rejected
  {
    hide Text, Parse, Or, Pad;
  }

  /** A stored character moves the state on. */
  lemma NameGoesOn(p: seq<byte>, s: seq<byte>, body: Piece, si: nat, i: nat, ni: nat, b: byte,
                   t: seq<byte>, sj: nat, j: nat, x: Bits)
    requires Midname(p, s, body, si, i, ni, b)
    requires |t| == 12 && si < sj < |p| && i < j <= ni
    requires t[..i] == s[..i] && t[j..] == s[j..]
    requires Text(p, si, ni - i) == Put(t[i..j], x, Text(p, sj, ni - j))
    ensures Midname(p, t, body, sj, j, ni, OrBits(b, x))
  {
    hide Text, Parse, Or, Pad, Put, OrBits, FinishBody, FinishExt;
    OrBitsSplit(b, x);
    var r := Text(p, sj, ni - j);
    assert forall k :: j <= k < 11 ==> t[k] == t[j..][k - j] == s[j..][k - j] == s[k];
    if ni == 8 {
      PutPut(s[..i], b as int, t[i..j], x, r);
      assert s[..i] + t[i..j] == t[..j];
    } else {
      PutPut(s[8..i], b as int % 4, t[i..j], x, r);
      assert s[8..i] == s[..i][8..] == t[..i][8..] == t[8..i];
      assert s[8..i] + t[i..j] == t[8..j];
      assert t[..8] == t[..i][..8] == s[..i][..8] == s[..8];
    }
  }

  /** One of the two copy loops of get_fileinfo: bytes from .. to of the entry, up to a blank. */
  method CopyPart(dir: Entry, from: nat, to: nat, low: bool, body: bool, fname: array<byte>, at: nat) returns (n: nat)
    requires from <= to <= 32 && at + (to - from) <= fname.Length
    modifies fname
    ensures at <= n <= at + (to - from)
    ensures fname[..n] == old(fname[..at]) + PrintPart(dir[from..to], low, body)
  {
    hide PrintPart, LowerIf;
    n := at;
    var i := from;
    while i < to
      invariant from <= i <= to && n == at + (i - from)
      invariant fname[..n] + PrintPart(dir[i..to], low, body) == old(fname[..at]) + PrintPart(dir[from..to], low, body)
    {
      PrintStep(dir[i..to], low, body);
      var c := dir[i];
      if c == SPACE {
        break;
      }
      if body && c == 5 {
        c := DELETED;
      }
      if low && IsUpper(c) {
        c := c + 0x20;
      }
      ghost var was := fname[..n];
      fname[n] := c;
      n := n + 1;
      assert fname[..n] == was + [c];
      assert dir[i..to][1..] == dir[i + 1..to];
      i := i + 1;
    }
    PrintStep(dir[i..to], low, body);
  }

  lemma PrintStep(s: seq<byte>, low: bool, body: bool)
    ensures s == [] || s[0] == SPACE ==> PrintPart(s, low, body) == []
    ensures s != [] && s[0] != SPACE ==>
              PrintPart(s, low, body)
              == [LowerIf(if body && s[0] == 5 then DELETED else s[0], low)] + PrintPart(s[1..], low, body)
    ensures forall c: byte :: LowerIf(c, low) == if low && IsUpper(c) then c + 0x20 else c
  {
  }

  /** get_fileinfo, its name: present tells whether the object stands on an entry. The name is closed by a NUL. */
  method FileName(present: bool, dir: Entry, fname: array<byte>) returns (n: nat)
    requires fname.Length == 13
    modifies fname
    ensures n <= 12 && fname[n] == 0
    ensures fname[..n] == if present then Printed(dir) else []
  {
    hide PrintPart;
    n := 0;
    if present {
      var nt := dir[DIR_NTRES];
      n := CopyPart(dir, 0, 8, LowBody(nt), true, fname, 0);
      assert dir[0..8] == dir[..8];
      if dir[8] != SPACE {
        ghost var was := fname[..n];
        fname[n] := DOT;
        n := n + 1;
        assert fname[..n] == was + [DOT];
        n := CopyPart(dir, 8, 11, LowExt(nt), false, fname, n);
      }
    }
    fname[n] := 0;
  }
}
