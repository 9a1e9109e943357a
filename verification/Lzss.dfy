/** The token stream of a compressed image, decoded with an unbounded history. */
module Lzss {
  import opened Words
  import opened Layout

  /** The size of the ring that the streaming decoder keeps. */
  const RING: nat := 32

  datatype Decoded = Broken | Decoded(bytes: seq<byte>)

  /** Byte i of the output so far; zero in front of its start. */
  function Look(out: seq<byte>, i: int): byte {
    if 0 <= i < |out| then out[i] else 0
  }

  /** A match: each byte repeats the one 32 - m positions back, bytes of the same match included. */
  function Copied(out: seq<byte>, m: nat, size: nat): (r: seq<byte>)
    ensures |r| == |out| + size && out <= r
    decreases size
  {
    if size == 0 then out else Copied(out + [Look(out, |out| - RING + m)], m, size - 1)
  }

  /** The bits of an encoding byte; bit k says whether the token it is for is a match. */
  function FlagsOf(b: byte): (f: seq<bool>)
    ensures |f| == 8
  {
    [b as int % 2 == 1, b as int / 2 % 2 == 1, b as int / 4 % 2 == 1, b as int / 8 % 2 == 1,
     b as int / 16 % 2 == 1, b as int / 32 % 2 == 1, b as int / 64 % 2 == 1, b as int / 128 % 2 == 1]
  }

  /** The size and the offset a match byte encodes. */
  function SizeOf(b: byte): nat {
    b as int % 8 + 2
  }

  function OffsetOf(b: byte): nat {
    b as int / 8
  }

  /**
    The count bytes that the tokens of s, from pos on, append to out; flags and bits are what is left of
    the encoding byte. Broken if the stream ends early or a match runs over the count.
   */
  function Decode(s: seq<byte>, pos: nat, flags: seq<bool>, bits: nat, out: seq<byte>, count: nat): (r: Decoded)
    requires bits <= |flags|
    ensures r.Decoded? ==> |r.bytes| == |out| + count && out <= r.bytes
    decreases count, if bits == 0 then 1 else 0
  {
    if count == 0 then Decoded(out)
    else if pos >= |s| then Broken
    else if bits == 0 then Decode(s, pos + 1, FlagsOf(s[pos]), 8, out, count)
    else if flags[bits - 1] then
      if SizeOf(s[pos]) > count then Broken
      else Decode(s, pos + 1, flags, bits - 1, Copied(out, OffsetOf(s[pos]), SizeOf(s[pos])), count - SizeOf(s[pos]))
    else Decode(s, pos + 1, flags, bits - 1, out + [s[pos]], count - 1)
  }

  /** Bits already used do not matter. */
  lemma {:induction false} UsedFlags(s: seq<byte>, pos: nat, flags: seq<bool>, k: nat, x: bool, bits: nat, out: seq<byte>, count: nat)
    requires bits <= k < |flags|
    ensures Decode(s, pos, flags[k := x], bits, out, count) == Decode(s, pos, flags, bits, out, count)
    decreases bits
  {
    if bits > 0 && pos < |s| && count > 0 {
      if flags[bits - 1] {
        if SizeOf(s[pos]) <= count {
          UsedFlags(s, pos + 1, flags, k, x, bits - 1, Copied(out, OffsetOf(s[pos]), SizeOf(s[pos])), count - SizeOf(s[pos]));
        }
      } else {
        UsedFlags(s, pos + 1, flags, k, x, bits - 1, out + [s[pos]], count - 1);
      }
    }
  }

  /** A fresh encoding byte. */
  lemma DecodeFlags(s: seq<byte>, pos: nat, flags: seq<bool>, out: seq<byte>, count: nat)
    requires count > 0
    ensures Decode(s, pos, flags, 0, out, count) == if pos < |s| then Decode(s, pos + 1, FlagsOf(s[pos]), 8, out, count) else Broken
  {
    hide FlagsOf, Copied;
  }

  /** One token of a good stream: a match that fits the count, or a literal. */
  lemma DecodeToken(s: seq<byte>, pos: nat, flags: seq<bool>, bits: nat, out: seq<byte>, count: nat)
    requires count > 0 && 0 < bits <= |flags| && Decode(s, pos, flags, bits, out, count).Decoded?
    ensures pos < |s|
    ensures flags[bits - 1] ==>
              var m, size := OffsetOf(s[pos]), SizeOf(s[pos]);
              && m < RING && 0 < size <= count
              && Decode(s, pos + 1, flags, bits - 1, Copied(out, m, size), count - size)
                 == Decode(s, pos, flags, bits, out, count)
              && Copied(out, m, size) <= Decode(s, pos, flags, bits, out, count).bytes
    ensures !flags[bits - 1] ==>
              Decode(s, pos + 1, flags, bits - 1, out + [s[pos]], count - 1) == Decode(s, pos, flags, bits, out, count)
              && out + [s[pos]] <= Decode(s, pos, flags, bits, out, count).bytes
  {
    hide FlagsOf, Copied;
  }

  /** What a match means: byte n of the output is byte n - (32 - m). */
  lemma {:induction false} CopiedAt(out: seq<byte>, m: nat, size: nat, i: nat)
    requires i < size && m < RING
    ensures Copied(out, m, size)[|out| + i] == Look(Copied(out, m, size), |out| + i - (RING - m))
    decreases size
  {
    var next := out + [Look(out, |out| - RING + m)];
    var r := Copied(out, m, size);
    if i == 0 {
      assert next <= r;
      assert r[|out|] == next[|out|];
    } else {
      CopiedAt(next, m, size - 1, i - 1);
    }
  }

  // ----- an encoder -----

  /** A token of the format: one byte, or n bytes of the match at m. */
  datatype Token = Literal(b: byte) | Match(m: nat, n: nat)

  predicate Proper(t: Token) {
    t.Match? ==> t.m < RING && 2 <= t.n <= 9
  }

  predicate AllProper(ts: seq<Token>) {
    forall i :: 0 <= i < |ts| ==> Proper(ts[i])
  }

  /** The bytes the tokens append to out. */
  function Meaning(out: seq<byte>, ts: seq<Token>): (r: seq<byte>)
    decreases |ts|
  {
    if ts == [] then out
    else Meaning(match ts[0] case Literal(b) => out + [b] case Match(m, n) => Copied(out, m, n), ts[1..])
  }

  /** How many they are. */
  function Length(ts: seq<Token>): nat {
    if ts == [] then 0 else (if ts[0].Match? then ts[0].n else 1) + Length(ts[1..])
  }

  /** The byte that stands for a token: a match has its place in the upper five bits and its length less two in the lower three. */
  function Packed(t: Token): byte
    requires Proper(t)
  {
    match t
    case Literal(b) => b
    case Match(m, n) => 8 * m + (n - 2)
  }

  /** 1 if token i of the group is a match. */
  function Flag(ts: seq<Token>, i: nat): nat {
    if i < |ts| && ts[i].Match? then 1 else 0
  }

  /** The encoding byte of a group of up to eight tokens: the first one has the highest bit. */
  function FlagByte(ts: seq<Token>): byte {
    128 * Flag(ts, 0) + 64 * Flag(ts, 1) + 32 * Flag(ts, 2) + 16 * Flag(ts, 3)
    + 8 * Flag(ts, 4) + 4 * Flag(ts, 5) + 2 * Flag(ts, 6) + Flag(ts, 7)
  }

  function PackedAll(ts: seq<Token>): (s: seq<byte>)
    requires AllProper(ts)
    ensures |s| == |ts| && forall i :: 0 <= i < |ts| ==> s[i] == Packed(ts[i])
  {
    seq(|ts|, i requires 0 <= i < |ts| => Packed(ts[i]))
  }

  /** The stream: groups of eight tokens, an encoding byte in front of each. */
  function Encode(ts: seq<Token>): seq<byte>
    requires AllProper(ts)
  {
    if ts == [] then []
    else
      var k := if |ts| < 8 then |ts| else 8;
      [FlagByte(ts[..k])] + PackedAll(ts[..k]) + Encode(ts[k..])
  }

  /** Bit 7 - i of the encoding byte is for token i. */
  lemma FlagBits(ts: seq<Token>, i: nat)
    requires i < |ts| <= 8
    ensures FlagsOf(FlagByte(ts))[7 - i] == ts[i].Match?
  {
    hide Flag, FlagsOf;
    FlagBit(ts, i);
    EightBits(Flag(ts, 0), Flag(ts, 1), Flag(ts, 2), Flag(ts, 3), Flag(ts, 4), Flag(ts, 5), Flag(ts, 6), Flag(ts, 7));
    FlagsAre(FlagByte(ts), Flag(ts, 0), Flag(ts, 1), Flag(ts, 2), Flag(ts, 3), Flag(ts, 4), Flag(ts, 5), Flag(ts, 6), Flag(ts, 7));
  }

  lemma FlagsAre(x: byte, a: nat, b: nat, c: nat, d: nat, e: nat, f: nat, g: nat, h: nat)
    requires x as int % 2 == h && x as int / 2 % 2 == g && x as int / 4 % 2 == f && x as int / 8 % 2 == e
    requires x as int / 16 % 2 == d && x as int / 32 % 2 == c && x as int / 64 % 2 == b && x as int / 128 % 2 == a
    ensures FlagsOf(x) == [h == 1, g == 1, f == 1, e == 1, d == 1, c == 1, b == 1, a == 1]
  {
  }

  lemma FlagBit(ts: seq<Token>, i: nat)
    requires i < |ts|
    ensures Flag(ts, i) == if ts[i].Match? then 1 else 0
    ensures forall k: nat :: Flag(ts, k) <= 1
  {
  }

  lemma EightBits(a: nat, b: nat, c: nat, d: nat, e: nat, f: nat, g: nat, h: nat)
    requires a <= 1 && b <= 1 && c <= 1 && d <= 1 && e <= 1 && f <= 1 && g <= 1 && h <= 1
    ensures var x := 128 * a + 64 * b + 32 * c + 16 * d + 8 * e + 4 * f + 2 * g + h;
            && x % 2 == h && x / 2 % 2 == g && x / 4 % 2 == f && x / 8 % 2 == e
            && x / 16 % 2 == d && x / 32 % 2 == c && x / 64 % 2 == b && x / 128 % 2 == a
  {
    Bit(0, a, 128, 64 * b + 32 * c + 16 * d + 8 * e + 4 * f + 2 * g + h);
    Bit(a, b, 64, 32 * c + 16 * d + 8 * e + 4 * f + 2 * g + h);
    Bit(2 * a + b, c, 32, 16 * d + 8 * e + 4 * f + 2 * g + h);
    Bit(4 * a + 2 * b + c, d, 16, 8 * e + 4 * f + 2 * g + h);
    Bit(8 * a + 4 * b + 2 * c + d, e, 8, 4 * f + 2 * g + h);
    Bit(16 * a + 8 * b + 4 * c + 2 * d + e, f, 4, 2 * g + h);
    Bit(32 * a + 16 * b + 8 * c + 4 * d + 2 * e + f, g, 2, h);
    Bit(64 * a + 32 * b + 16 * c + 8 * d + 4 * e + 2 * f + g, h, 1, 0);
  }

  /** One bit, with the bits above it and those below. */
  lemma Bit(above: nat, bit: nat, m: nat, below: nat)
    requires bit <= 1 && below < m
    ensures ((2 * above + bit) * m + below) / m % 2 == bit
  {
    DivUnique((2 * above + bit) * m + below, m, 2 * above + bit, below);
  }

  /** A packed token unpacks. */
  lemma Unpacks(m: nat, n: nat)
    requires m < RING && 2 <= n <= 9
    ensures OffsetOf(8 * m + (n - 2)) == m && SizeOf(8 * m + (n - 2)) == n
  {
  }

  /** The tokens of a group, decoded one after the other. */
  lemma {:induction false} DecodeGroup(s: seq<byte>, pos: nat, flags: seq<bool>, bits: nat, out: seq<byte>, ts: seq<Token>, rest: nat)
    requires AllProper(ts) && |ts| <= bits <= |flags| && pos + |ts| <= |s|
    requires forall i :: 0 <= i < |ts| ==> s[pos + i] == Packed(ts[i]) && flags[bits - 1 - i] == ts[i].Match?
    ensures Decode(s, pos, flags, bits, out, Length(ts) + rest)
            == Decode(s, pos + |ts|, flags, bits - |ts|, Meaning(out, ts), rest)
    decreases |ts|
  {
    hide SizeOf, OffsetOf, Copied, Decode, Packed, Proper;
    if ts == [] {
    } else {
      var t, us := ts[0], ts[1..];
      assert s[pos] == Packed(t) && flags[bits - 1] == t.Match?;
      forall i | 0 <= i < |us|
        ensures s[pos + 1 + i] == Packed(us[i]) && flags[bits - 1 - 1 - i] == us[i].Match?
      {
        assert us[i] == ts[i + 1];
      }
      DecodeOne(s, pos, flags, bits, out, t, Length(us) + rest);
      DecodeGroup(s, pos + 1, flags, bits - 1, match t case Literal(b) => out + [b] case Match(m, n) => Copied(out, m, n), us, rest);
    }
  }

  /** One token, decoded. */
  lemma DecodeOne(s: seq<byte>, pos: nat, flags: seq<bool>, bits: nat, out: seq<byte>, t: Token, rest: nat)
    requires Proper(t) && 0 < bits <= |flags| && pos < |s| && s[pos] == Packed(t) && flags[bits - 1] == t.Match?
    ensures Decode(s, pos, flags, bits, out, (if t.Match? then t.n else 1) + rest)
            == Decode(s, pos + 1, flags, bits - 1,
                      match t case Literal(b) => out + [b] case Match(m, n) => Copied(out, m, n), rest)
  {
    hide Copied;
    if t.Match? {
      Unpacks(t.m, t.n);
    }
  }

  lemma {:induction false} Joined(out: seq<byte>, ts: seq<Token>, us: seq<Token>)
    ensures Meaning(out, ts + us) == Meaning(Meaning(out, ts), us)
    ensures Length(ts + us) == Length(ts) + Length(us)
    decreases |ts|
  {
    if ts == [] {
      assert ts + us == us;
    } else {
      assert (ts + us)[1..] == ts[1..] + us;
      Joined(match ts[0] case Literal(b) => out + [b] case Match(m, n) => Copied(out, m, n), ts[1..], us);
    }
  }

  /** An encoding byte and its group. */
  lemma DecodeStep(front: seq<byte>, us: seq<Token>, tail: seq<byte>, flags: seq<bool>, out: seq<byte>, rest: nat)
    requires AllProper(us) && 0 < |us| <= 8
    ensures Decode(front + [FlagByte(us)] + PackedAll(us) + tail, |front|, flags, 0, out, Length(us) + rest)
            == Decode(front + [FlagByte(us)] + PackedAll(us) + tail, |front| + 1 + |us|, FlagsOf(FlagByte(us)), 8 - |us|,
                      Meaning(out, us), rest)
  {
    hide FlagsOf, FlagByte, Packed, Copied, Proper, Meaning, Length, Decode;
    var s := front + [FlagByte(us)] + PackedAll(us) + tail;
    GroupAt(front, FlagByte(us), PackedAll(us), tail);
    forall i | 0 <= i < |us|
      ensures s[|front| + 1 + i] == Packed(us[i]) && FlagsOf(FlagByte(us))[7 - i] == us[i].Match?
    {
      FlagBits(us, i);
    }
    LengthPositive(us);
    DecodeFlags(s, |front|, flags, out, Length(us) + rest);
    DecodeGroup(s, |front| + 1, FlagsOf(FlagByte(us)), 8, out, us, rest);
  }

  lemma GroupAt(front: seq<byte>, x: byte, bs: seq<byte>, tail: seq<byte>)
    ensures var s := front + [x] + bs + tail;
            s[|front|] == x && forall i :: 0 <= i < |bs| ==> s[|front| + 1 + i] == bs[i]
  {
    var s := front + [x] + bs + tail;
    assert s == front + ([x] + (bs + tail));
    assert s[|front|..] == [x] + (bs + tail);
  }

  /** Decoding undoes encoding: what comes out are the bytes the tokens mean. */
  lemma {:induction false} DecodeEncode(front: seq<byte>, ts: seq<Token>, flags: seq<bool>, out: seq<byte>)
    requires AllProper(ts)
    ensures Decode(front + Encode(ts), |front|, flags, 0, out, Length(ts)) == Decoded(Meaning(out, ts))
    decreases |ts|
  {
    hide FlagsOf, FlagByte, Packed, Copied, Proper, Meaning, Length, Decode, Encode, PackedAll;
    if ts == [] {
      NoTokens(front, flags, out);
    } else {
      var k := if |ts| < 8 then |ts| else 8;
      var us, vs := ts[..k], ts[k..];
      assert ts == us + vs;
      EncodeStep(front, ts, us, vs);
      Joined(out, us, vs);
      DecodeStep(front, us, Encode(vs), flags, out, Length(vs));
      if vs == [] {
        LastToken(front + Encode(ts), |front| + 1 + k, FlagsOf(FlagByte(us)), 8 - k, Meaning(out, us));
      } else {
        DecodeEncode(front + [FlagByte(us)] + PackedAll(us), vs, FlagsOf(FlagByte(us)), Meaning(out, us));
      }
    }
  }

  lemma EncodeStep(front: seq<byte>, ts: seq<Token>, us: seq<Token>, vs: seq<Token>)
    requires AllProper(ts) && ts != [] && us == ts[..if |ts| < 8 then |ts| else 8] && vs == ts[|us|..]
    ensures front + Encode(ts) == front + [FlagByte(us)] + PackedAll(us) + Encode(vs)
  {
    hide FlagByte, Proper, PackedAll, Packed;
    assert Encode(ts) == [FlagByte(us)] + PackedAll(us) + Encode(vs);
    Regroup(front, [FlagByte(us)], PackedAll(us), Encode(vs));
  }

  lemma Regroup(a: seq<byte>, b: seq<byte>, c: seq<byte>, d: seq<byte>)
    ensures a + (b + c + d) == a + b + c + d
  {
  }

  lemma NoTokens(front: seq<byte>, flags: seq<bool>, out: seq<byte>)
    ensures Decode(front + Encode([]), |front|, flags, 0, out, Length([])) == Decoded(Meaning(out, []))
  {
  }

  lemma LastToken(s: seq<byte>, pos: nat, flags: seq<bool>, bits: nat, out: seq<byte>)
    requires bits <= |flags|
    ensures Decode(s, pos, flags, bits, out, Length([])) == Decoded(Meaning(out, []))
  {
  }

  lemma LengthPositive(ts: seq<Token>)
    requires AllProper(ts)
    ensures ts != [] ==> Length(ts) > 0
  {
  }

  // ----- the ring -----

  /**
    The ring of 32 bytes behind base bytes already drawn and idx more: the newest bytes in front of idx,
    behind it those of the round before.
   */
  ghost predicate RingOk(ring: seq<byte>, out: seq<byte>, base: nat, idx: nat) {
    && |ring| == RING && idx <= RING && base + idx == |out|
    && (forall j :: 0 <= j < idx ==> ring[j] == Look(out, base + j))
    && (forall j :: idx <= j < RING ==> ring[j] == Look(out, base + j - RING))
  }

  lemma RingStart(ring: seq<byte>)
    requires |ring| == RING && forall j :: 0 <= j < RING ==> ring[j] == 0
    ensures RingOk(ring, [], 0, 0)
  {
  }

  /** Storing the next byte keeps the ring. */
  lemma RingPut(ring: seq<byte>, out: seq<byte>, base: nat, idx: nat, b: byte)
    requires RingOk(ring, out, base, idx) && idx < RING
    ensures RingOk(ring[idx := b], out + [b], base, idx + 1)
  {
  }

  /** The ring entry m behind the write position is the byte 32 - m back. */
  lemma RingLook(ring: seq<byte>, out: seq<byte>, base: nat, idx: nat, m: nat)
    requires RingOk(ring, out, base, idx) && idx < RING && m < RING
    ensures ring[(idx + m) % RING] == Look(out, |out| - RING + m)
  {
    if idx + m < RING {
      assert (idx + m) % RING == idx + m;
    } else {
      assert (idx + m) % RING == idx + m - RING;
    }
  }

  /** A full ring starts over. */
  lemma RingWrap(ring: seq<byte>, out: seq<byte>, base: nat)
    requires RingOk(ring, out, base, RING)
    ensures RingOk(ring, out, base + RING, 0)
    ensures base + RING == |out| && ring == out[base..base + RING]
  {
  }
}
