/** Where the entries of the file allocation table lie: the table read as one number. */
module TableNumbers {
  import opened Words
  import opened Layout
  import opened Codec
  import opened Disk

  /** Hexadecimal digit n of x, the lowest one being digit 0. */
  function Digit(x: nat, n: nat): nat {
    if n == 0 then x % 16 else Digit(x / 16, n - 1)
  }

  /** The number that n digits of x from digit i on stand for. */
  function Digits(x: nat, i: nat, n: nat): nat
    decreases n
  {
    if n == 0 then 0 else Digit(x, i) + 16 * Digits(x, i + 1, n - 1)
  }

  /** The first FAT copy, all its bytes as one little-endian number. */
  ghost function TableNumber(g: Geometry, v: seq<Sector>): nat
    requires Fits(g, v)
  {
    Number(Run(v, g.fatbase, g.sectsFat))
  }

  lemma {:induction false} NumberDigits(s: seq<byte>, k: nat)
    requires k < |s|
    ensures Digit(Number(s), 2 * k) == s[k] % 16 && Digit(Number(s), 2 * k + 1) == s[k] / 16
  {
    var x := Number(s);
    assert x == s[0] + 0x100 * Number(s[1..]);
    LowByte(s[0], Number(s[1..]));
    if k == 0 {
      assert Digit(x, 1) == Digit(x / 16, 0);
    } else {
      NumberDigits(s[1..], k - 1);
      assert Digit(x, 2 * k) == Digit(x / 16, 2 * k - 1) == Digit(x / 16 / 16, 2 * (k - 1));
      assert Digit(x, 2 * k + 1) == Digit(x / 16, 2 * k) == Digit(x / 16 / 16, 2 * (k - 1) + 1);
    }
  }

  lemma LowByte(b: byte, y: nat)
    ensures (b + 0x100 * y) % 16 == b % 16 && (b + 0x100 * y) / 16 % 16 == b / 16 && (b + 0x100 * y) / 16 / 16 == y
  {
  }

  /** The digits of byte o of the table. */
  lemma ByteDigits(g: Geometry, v: seq<Sector>, o: nat)
    requires Fits(g, v) && o < 512 * g.sectsFat
    ensures FatByte(g, v, o) == Digit(TableNumber(g, v), 2 * o) + 16 * Digit(TableNumber(g, v), 2 * o + 1)
    ensures Digit(TableNumber(g, v), 2 * o) < 16 && Digit(TableNumber(g, v), 2 * o + 1) < 16
  {
    hide Times, Digit, Number;
    RunAt(v, g.fatbase, g.sectsFat, o);
    NumberDigits(Run(v, g.fatbase, g.sectsFat), o);
  }

  lemma ThreeDigits(x: nat, i: nat)
    ensures Digits(x, i, 3) == Digit(x, i) + 16 * Digit(x, i + 1) + 0x100 * Digit(x, i + 2)
  {
    hide Digit;
    assert Digits(x, i + 2, 1) == Digit(x, i + 2);
    assert Digits(x, i + 1, 2) == Digit(x, i + 1) + 16 * Digits(x, i + 2, 1);
  }

  lemma FourDigits(x: nat, i: nat)
    ensures Digits(x, i, 4) == Digit(x, i) + 16 * Digit(x, i + 1) + 0x100 * Digit(x, i + 2) + 0x1000 * Digit(x, i + 3)
  {
    hide Digit;
    ThreeDigits(x, i + 1);
  }

  lemma SevenDigits(x: nat, i: nat)
    ensures Digits(x, i, 7)
            == Digit(x, i) + 16 * Digit(x, i + 1) + 0x100 * Digit(x, i + 2) + 0x1000 * Digit(x, i + 3)
               + 0x1_0000 * Digit(x, i + 4) + 0x10_0000 * Digit(x, i + 5) + 0x100_0000 * Digit(x, i + 6)
  {
    hide Digit;
    FourDigits(x, i + 3);
    assert Digits(x, i + 2, 5) == Digit(x, i + 2) + 16 * Digits(x, i + 3, 4);
    assert Digits(x, i + 1, 6) == Digit(x, i + 1) + 16 * Digits(x, i + 2, 5);
  }

  lemma TwoBytes(c: nat, d: nat, e: nat, f: nat, h: nat)
    requires d < 16 && e < 16 && f < 16 && h < 16
    ensures Unpack12(c, d + 16 * e, f + 16 * h) == if c % 2 == 0 then d + 16 * e + 0x100 * f else e + 16 * f + 0x100 * h
  {
  }

  /** FAT12: entry c is the three digits from digit 3c on. */
  lemma Entry12Digits(g: Geometry, v: seq<Sector>, c: nat)
    requires Fits(g, v) && g.fsType == FAT12 && c < g.maxClust
    ensures FatMap(g, v)[c] == Digits(TableNumber(g, v), 3 * c, 3)
  {
    hide Times, FatByte, FatMap, Digit, Digits, TableNumber, Unpack12;
    var o, n := c + c / 2, TableNumber(g, v);
    FatMapAt(g, v, c);
    ByteDigits(g, v, o);
    ByteDigits(g, v, o + 1);
    ThreeDigits(n, 3 * c);
    TwoBytes(c, Digit(n, 2 * o), Digit(n, 2 * o + 1), Digit(n, 2 * o + 2), Digit(n, 2 * o + 3));
    if c % 2 == 0 {
      assert 3 * c == 2 * o;
    } else {
      assert 3 * c == 2 * o + 1;
    }
  }

  /** FAT16: entry c is the four digits from digit 4c on. */
  lemma Entry16Digits(g: Geometry, v: seq<Sector>, c: nat)
    requires Fits(g, v) && g.fsType == FAT16 && c < g.maxClust
    ensures FatMap(g, v)[c] == Digits(TableNumber(g, v), 4 * c, 4)
  {
    hide Times, FatByte, FatMap, Digit, Digits, TableNumber, Number;
    FatMapAt(g, v, c);
    ByteDigits(g, v, 2 * c);
    ByteDigits(g, v, 2 * c + 1);
    NumberPair(FatByte(g, v, 2 * c), FatByte(g, v, 2 * c + 1));
    FourDigits(TableNumber(g, v), 4 * c);
  }

  /** FAT32: entry c is the seven digits from digit 8c on; the eighth is reserved. */
  lemma Entry32Digits(g: Geometry, v: seq<Sector>, c: nat)
    requires Fits(g, v) && g.fsType == FAT32 && c < g.maxClust
    ensures FatMap(g, v)[c] == Digits(TableNumber(g, v), 8 * c, 7)
  {
    hide Times, FatByte, FatMap, Digit, Digits, TableNumber, Number;
    FatMapAt(g, v, c);
    var n := TableNumber(g, v);
    ByteDigits(g, v, 4 * c);
    ByteDigits(g, v, 4 * c + 1);
    ByteDigits(g, v, 4 * c + 2);
    ByteDigits(g, v, 4 * c + 3);
    NumberPair(FatByte(g, v, 4 * c), FatByte(g, v, 4 * c + 1));
    NumberPair(FatByte(g, v, 4 * c + 2), FatByte(g, v, 4 * c + 3));
    SevenDigits(n, 8 * c);
    Reserved(Digits(n, 8 * c, 7), Digit(n, 8 * c + 7), Raw(g, v, c));
  }

  lemma Reserved(low: nat, top: nat, x: nat)
    requires low < 0x1000_0000 && x == low + 0x1000_0000 * top
    ensures x % 0x1000_0000 == low
  {
  }
}
