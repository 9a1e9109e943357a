/** Machine words, sectors and the little-endian access macros of `ff.h`. */
module Words {

  type byte = x: int | 0 <= x < 0x100
  type word = x: int | 0 <= x < 0x1_0000
  type dword = x: int | 0 <= x < 0x1_0000_0000

  /** The difference of two DWORDs. */
  function DwordSub(a: nat, b: nat): dword {
    (a - b) % 0x1_0000_0000
  }

  type Sector = s: seq<byte> | |s| == 512 witness seq(512, i => 0)

  function Blank(): (s: Sector)
    ensures forall i :: 0 <= i < 512 ==> s[i] == 0
  {
    seq(512, i => 0)
  }

  /** The value of LD_WORD at offset i. */
  function LdWord(s: seq<byte>, i: nat): word
    requires i + 1 < |s|
  {
    Join(s[i], s[i + 1])
  }

  /** The value of LD_DWORD at offset i. */
  function LdDword(s: seq<byte>, i: nat): dword
    requires i + 3 < |s|
  {
    Join(s[i], s[i + 1]) as int + 0x1_0000 * Join(s[i + 2], s[i + 3]) as int
  }

  /** The number that bytes stand for, the lowest one first. */
  function Number(bytes: seq<byte>): nat {
    if bytes == [] then 0 else bytes[0] as int + 0x100 * Number(bytes[1..])
  }

  lemma NumberPair(lo: byte, hi: byte)
    ensures Number([lo, hi]) == lo as int + 0x100 * hi as int
  {
    assert [lo, hi][1..] == [hi];
    assert Number([hi]) == hi as int;
  }

  function Join(lo: byte, hi: byte): word {
    NumberPair(lo, hi);
    Number([lo, hi])
  }

  /** Words and double words have their lowest byte first. */
  lemma DwordBytes(s: seq<byte>, i: nat)
    requires i + 3 < |s|
    ensures LdWord(s, i) == s[i] as int + 0x100 * s[i + 1] as int
    ensures LdDword(s, i) == s[i] as int + 0x100 * s[i + 1] as int + 0x1_0000 * s[i + 2] as int + 0x100_0000 * s[i + 3] as int
  {
    NumberPair(s[i], s[i + 1]);
    NumberPair(s[i + 2], s[i + 3]);
  }

  /** The buffer after ST_WORD(p + i, v); the macro cuts its argument to a WORD. */
  function StWord(s: seq<byte>, i: nat, v: word): (t: seq<byte>)
    requires i + 1 < |s|
    ensures |t| == |s|
    ensures LdWord(t, i) == v
    ensures forall k :: 0 <= k < |s| && !(i <= k < i + 2) ==> t[k] == s[k]
  {
    NumberPair(v % 0x100, v / 0x100);
    s[i := v % 0x100][i + 1 := v / 0x100]
  }

  /** The buffer after ST_DWORD(p + i, v): two words, low word first. */
  function StDword(s: seq<byte>, i: nat, v: dword): (t: seq<byte>)
    requires i + 3 < |s|
    ensures |t| == |s|
    ensures LdDword(t, i) == v
    ensures forall k :: 0 <= k < |s| && !(i <= k < i + 4) ==> t[k] == s[k]
  {
    var t := StWord(s, i, v % 0x1_0000);
    var u := StWord(t, i + 2, v / 0x1_0000);
    assert LdWord(u, i) == LdWord(t, i);
    u
  }
}
