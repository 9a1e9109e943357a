/** The packed 12, 16 and 32-bit file allocation table, as bytes of the logical volume. */
module Codec {
  import opened Words
  import opened Layout

  ghost predicate Fits(g: Geometry, v: seq<Sector>) {
    g.Valid() && End(g) <= |v| <= 0x1_0000_0000
  }

  /** Byte o of the first FAT copy. */
  ghost function FatByte(g: Geometry, v: seq<Sector>, o: nat): byte
    requires Fits(g, v) && o < 512 * g.sectsFat
  {
    v[g.fatbase + o / 512][o % 512]
  }

  ghost function SetFatByte(g: Geometry, v: seq<Sector>, o: nat, b: byte): (w: seq<Sector>)
    requires Fits(g, v) && o < 512 * g.sectsFat
    ensures |w| == |v|
    ensures forall p :: 0 <= p < 512 * g.sectsFat ==> FatByte(g, w, p) == if p == o then b else FatByte(g, v, p)
    ensures forall s :: 0 <= s < |v| && s != g.fatbase + o / 512 ==> w[s] == v[s]
  {
    var s := g.fatbase + o / 512;
    v[s := v[s][o % 512 := b]]
  }

  /** Byte offset and byte length of the entry of cluster c. */
  function EntryOfs(g: Geometry, c: nat): nat {
    match g.fsType
    case FAT12 => c + c / 2
    case FAT16 => 2 * c
    case FAT32 => 4 * c
  }

  /** The 12-bit entry held by two neighbouring bytes. */
  function Unpack12(c: nat, b0: byte, b1: byte): dword {
    if c % 2 == 1 then b0 as int / 16 + 16 * b1 as int else b0 as int + 0x100 * (b1 as int % 16)
  }

  /** The byte stores of the FAT12 branch of put_fat. */
  function FirstByte12(c: nat, was: byte, x: dword): byte {
    if c % 2 == 1 then was as int % 16 + x as int % 16 * 16 else x % 0x100
  }

  function SecondByte12(c: nat, was: byte, x: dword): byte {
    if c % 2 == 1 then x / 16 % 0x100 else was as int / 16 * 16 + x as int / 0x100 % 16
  }

  function NewByte12(c: nat, was: byte, x: dword, second: bool): byte {
    if second then SecondByte12(c, was, x) else FirstByte12(c, was, x)
  }

  /** The word stored for cluster c, reserved bits included. */
  ghost function Raw(g: Geometry, v: seq<Sector>, c: nat): dword
    requires Fits(g, v) && c < g.maxClust
  {
    var o := EntryOfs(g, c);
    match g.fsType
    case FAT12 => Unpack12(c, FatByte(g, v, o), FatByte(g, v, o + 1))
    case FAT16 => Join(FatByte(g, v, o), FatByte(g, v, o + 1))
    case FAT32 => Join(FatByte(g, v, o), FatByte(g, v, o + 1)) as int
                  + 0x1_0000 * Join(FatByte(g, v, o + 2), FatByte(g, v, o + 3)) as int
  }

  /** What fits in an entry: 12, 16 or 28 bits. */
  function Cut(g: Geometry, x: dword): dword {
    match g.fsType
    case FAT12 => x % 0x1000
    case FAT16 => x % 0x1_0000
    case FAT32 => x % 0x1000_0000
  }

  /** The whole table, one number per cluster. */
  ghost function FatMap(g: Geometry, v: seq<Sector>): (fat: seq<dword>)
    requires Fits(g, v)
    ensures |fat| == g.maxClust
  {
    EntriesFrom(g, v, 0)
  }

  ghost function EntriesFrom(g: Geometry, v: seq<Sector>, c: nat): (fat: seq<dword>)
    requires Fits(g, v) && c <= g.maxClust
    ensures |fat| == g.maxClust - c
    decreases g.maxClust - c, 1
  {
    if c == g.maxClust then [] else EntryAndRest(g, v, c)
  }

  /** A step of its own, so that the bytes of an entry are looked at only where FatMapAt asks for them. */
  ghost function EntryAndRest(g: Geometry, v: seq<Sector>, c: nat): (fat: seq<dword>)
    requires Fits(g, v) && c < g.maxClust
    ensures |fat| == g.maxClust - c
    decreases g.maxClust - c, 0
  {
    [Cut(g, Raw(g, v, c))] + EntriesFrom(g, v, c + 1)
  }

  lemma {:induction false} EntriesFromAt(g: Geometry, v: seq<Sector>, c: nat, d: nat)
    requires Fits(g, v) && c <= d < g.maxClust
    ensures EntriesFrom(g, v, c)[d - c] == Cut(g, Raw(g, v, d))
    decreases d - c
  {
    hide Cut, Raw;
    assert EntriesFrom(g, v, c) == EntryAndRest(g, v, c);
    if c < d {
      EntriesFromAt(g, v, c + 1, d);
    }
  }

  lemma FatMapAt(g: Geometry, v: seq<Sector>, c: nat)
    requires Fits(g, v) && c < g.maxClust
    ensures FatMap(g, v)[c] == Cut(g, Raw(g, v, c))
  {
    hide Cut, Raw, EntriesFrom;
    EntriesFromAt(g, v, 0, c);
  }

  /** The volume after put_fat stores x for cluster c, store by store. */
  ghost function PutEntry(g: Geometry, v: seq<Sector>, c: nat, x: dword): (w: seq<Sector>)
    requires Fits(g, v) && c < g.maxClust
    ensures |w| == |v|
  {
    var o := EntryOfs(g, c);
    match g.fsType
    case FAT12 => Put12(g, v, c, x)
    case FAT16 => PutWord(g, v, o, x % 0x1_0000)
    case FAT32 => PutDword(g, v, o, x)
  }

  ghost function Put12(g: Geometry, v: seq<Sector>, c: nat, x: dword): (w: seq<Sector>)
    requires Fits(g, v) && c + c / 2 + 1 < 512 * g.sectsFat
    ensures |w| == |v|
  {
    var o := c + c / 2;
    var v1 := SetFatByte(g, v, o, FirstByte12(c, FatByte(g, v, o), x));
    SetFatByte(g, v1, o + 1, SecondByte12(c, FatByte(g, v1, o + 1), x))
  }

  /** A word store; the two bytes of an even offset never straddle two sectors. */
  ghost function PutWord(g: Geometry, v: seq<Sector>, o: nat, x: word): (w: seq<Sector>)
    requires Fits(g, v) && o + 2 <= 512 * g.sectsFat
    ensures |w| == |v|
    ensures Join(FatByte(g, w, o), FatByte(g, w, o + 1)) == x
    ensures forall p :: 0 <= p < 512 * g.sectsFat && !(o <= p < o + 2) ==> FatByte(g, w, p) == FatByte(g, v, p)
    ensures forall s :: 0 <= s < |v| && !g.InFat(s) ==> w[s] == v[s]
  {
    NumberPair(x % 0x100, x / 0x100);
    SetFatByte(g, SetFatByte(g, v, o, x % 0x100), o + 1, x / 0x100)
  }

  ghost function PutDword(g: Geometry, v: seq<Sector>, o: nat, x: dword): (w: seq<Sector>)
    requires Fits(g, v) && o + 4 <= 512 * g.sectsFat
    ensures |w| == |v|
    ensures Join(FatByte(g, w, o), FatByte(g, w, o + 1)) as int
            + 0x1_0000 * Join(FatByte(g, w, o + 2), FatByte(g, w, o + 3)) as int == x
    ensures forall p :: 0 <= p < 512 * g.sectsFat && !(o <= p < o + 4) ==> FatByte(g, w, p) == FatByte(g, v, p)
    ensures forall s :: 0 <= s < |v| && !g.InFat(s) ==> w[s] == v[s]
  {
    PutWord(g, PutWord(g, v, o, x % 0x1_0000), o + 2, x / 0x1_0000)
  }

  lemma SameSector(o: nat, n: nat, i: nat)
    requires n == 2 || n == 4
    requires o % n == 0 && i < n
    ensures (o + i) / 512 == o / 512 && (o + i) % 512 == o % 512 + i
  {
    var q, r := o / 512, o % 512;
    if n == 2 {
      assert r == 2 * (o / 2 - 256 * q);
    } else {
      assert r == 4 * (o / 4 - 128 * q);
    }
    DivUnique(o + i, 512, q, r + i);
  }

  /** LD_WORD and LD_DWORD in the sector that holds an aligned offset read neighbouring bytes of the table. */
  lemma LoadWord(g: Geometry, v: seq<Sector>, o: nat)
    requires Fits(g, v) && o + 2 <= 512 * g.sectsFat && o % 2 == 0
    ensures o % 512 <= 510
    ensures LdWord(v[g.fatbase + o / 512], o % 512) == Join(FatByte(g, v, o), FatByte(g, v, o + 1))
  {
    hide Times;
    SameSector(o, 2, 1);
  }

  lemma LoadDword(g: Geometry, v: seq<Sector>, o: nat)
    requires Fits(g, v) && o + 4 <= 512 * g.sectsFat && o % 4 == 0
    ensures o % 512 <= 508
    ensures LdDword(v[g.fatbase + o / 512], o % 512)
            == Join(FatByte(g, v, o), FatByte(g, v, o + 1)) as int
               + 0x1_0000 * Join(FatByte(g, v, o + 2), FatByte(g, v, o + 3)) as int
  {
    hide Times;
    SameSector(o, 4, 1);
    SameSector(o, 4, 2);
    SameSector(o, 4, 3);
  }

  /** ST_WORD in the sector that holds an even offset is the word store on the volume. */
  lemma StoreWord(g: Geometry, v: seq<Sector>, o: nat, x: word)
    requires Fits(g, v) && o + 2 <= 512 * g.sectsFat && o % 2 == 0
    ensures var s := g.fatbase + o / 512;
            o % 512 <= 510 && v[s := StWord(v[s], o % 512, x)] == PutWord(g, v, o, x)
  {
    hide Times;
    SameSector(o, 2, 1);
  }

  lemma StoreDword(g: Geometry, v: seq<Sector>, o: nat, x: dword)
    requires Fits(g, v) && o + 4 <= 512 * g.sectsFat && o % 4 == 0
    ensures var s := g.fatbase + o / 512;
            o % 512 <= 508 && v[s := StDword(v[s], o % 512, x)] == PutDword(g, v, o, x)
  {
    hide FatByte, SetFatByte, PutWord, StWord, LdWord, LdDword, Times;
    SameSector(o, 4, 2);
    var s, i := g.fatbase + o / 512, o % 512;
    var lo: word, hi: word := x % 0x1_0000, x / 0x1_0000;
    var t: Sector := StWord(v[s], i, lo);
    var u: Sector := StWord(t, i + 2, hi);
    var w := v[s := t];
    StoreWord(g, v, o, lo);
    StoreWord(g, w, o + 2, hi);
    assert w[s := u] == v[s := u];
  }

  lemma PutEntryOutside(g: Geometry, v: seq<Sector>, c: nat, x: dword, s: nat)
    requires Fits(g, v) && c < g.maxClust && s < |v| && !g.InFat(s)
    ensures PutEntry(g, v, c, x)[s] == v[s]
  {
  }

  lemma SplitLow(x: nat)
    ensures x % 0x1000 == x % 16 + 16 * (x / 16 % 0x100)
  {
    var a := x / 16;
    DivUnique(x, 0x1000, a / 0x100, 16 * (a % 0x100) + x % 16);
  }

  lemma SplitHigh(x: nat)
    ensures x % 0x1000 == x % 0x100 + 0x100 * (x / 0x100 % 16)
  {
    var a := x / 0x100;
    DivUnique(x, 0x1000, a / 16, 0x100 * (a % 16) + x % 0x100);
  }

  /** Two volumes that may differ in the file allocation table only. */
  ghost predicate SameOutsideFat(g: Geometry, v: seq<Sector>, w: seq<Sector>) {
    |w| == |v| && forall s :: 0 <= s < |v| && !g.InFat(s) ==> w[s] == v[s]
  }

  lemma PutEntrySameOutside(g: Geometry, v: seq<Sector>, c: nat, x: dword)
    requires Fits(g, v) && c < g.maxClust
    ensures SameOutsideFat(g, v, PutEntry(g, v, c, x))
  {
    forall s | 0 <= s < |v| && !g.InFat(s)
      ensures PutEntry(g, v, c, x)[s] == v[s]
    {
      PutEntryOutside(g, v, c, x, s);
    }
  }

  /** Two stores pack a 12-bit value, whatever the bytes held before. */
  lemma Pack12(c: nat, b0: byte, b1: byte, x: dword)
    ensures Unpack12(c, FirstByte12(c, b0, x), SecondByte12(c, b1, x)) == x % 0x1000
  {
    if c % 2 == 1 {
      SplitLow(x);
    } else {
      SplitHigh(x);
    }
  }

  /** Two entries share a byte only when they are an even cluster and its successor. */
  lemma Apart12(c: nat, d: nat)
    requires c < d
    ensures var o, p := c + c / 2, d + d / 2;
            o + 1 < p || (p == o + 1 && c % 2 == 0 && d % 2 == 1)
  {
  }

  /** Every other cluster keeps its nibbles, those of a shared byte included. */
  lemma Neighbour12(g: Geometry, v: seq<Sector>, c: nat, x: dword, d: nat)
    requires Fits(g, v) && g.fsType == FAT12 && c < g.maxClust && d < g.maxClust && d != c
    ensures Raw(g, Put12(g, v, c, x), d) == Raw(g, v, d)
  {
    hide Times, FatByte, FirstByte12, SecondByte12;
    var o, p := c + c / 2, d + d / 2;
    var b0, b1 := FatByte(g, v, o), FatByte(g, v, o + 1);
    var w := Put12(g, v, c, x);
    assert FatByte(g, w, o) == FirstByte12(c, b0, x);
    assert FatByte(g, w, o + 1) == SecondByte12(c, b1, x);
    if c < d {
      Apart12(c, d);
      if p == o + 1 {
        KeepHigh(c, b1, x);
        assert FatByte(g, w, p + 1) == FatByte(g, v, p + 1);
      }
    } else {
      Apart12(d, c);
      if o == p + 1 {
        KeepLow(c, b0, x);
        assert FatByte(g, w, p) == FatByte(g, v, p);
      }
    }
  }

  lemma KeepHigh(c: nat, b: byte, x: dword)
    requires c % 2 == 0
    ensures SecondByte12(c, b, x) as int / 16 == b as int / 16
  {
  }

  lemma KeepLow(c: nat, b: byte, x: dword)
    requires c % 2 == 1
    ensures FirstByte12(c, b, x) as int % 16 == b as int % 16
  {
  }

  /** Reading an entry back gives the stored value; FAT32 keeps all 32 bits of it. */
  lemma PutEntrySame(g: Geometry, v: seq<Sector>, c: nat, x: dword)
    requires Fits(g, v) && c < g.maxClust
    ensures Raw(g, PutEntry(g, v, c, x), c) == if g.fsType == FAT32 then x else Cut(g, x)
  {
    if g.fsType == FAT12 {
      var o := c + c / 2;
      Pack12(c, FatByte(g, v, o), FatByte(g, v, o + 1), x);
    }
  }

  lemma PutEntryOther(g: Geometry, v: seq<Sector>, c: nat, x: dword, d: nat)
    requires Fits(g, v) && c < g.maxClust && d < g.maxClust && d != c
    ensures Raw(g, PutEntry(g, v, c, x), d) == Raw(g, v, d)
  {
    if g.fsType == FAT12 {
      Neighbour12(g, v, c, x, d);
    }
  }

  lemma CutCut(g: Geometry, x: dword)
    ensures Cut(g, Cut(g, x)) == Cut(g, x)
    ensures Cut(g, if g.fsType == FAT32 then x else Cut(g, x)) == Cut(g, x)
  {
  }

  /** put_fat on the packed table is an update of one element of the table. */
  lemma PutEntryMap(g: Geometry, v: seq<Sector>, c: nat, x: dword)
    requires Fits(g, v) && c < g.maxClust
    ensures FatMap(g, PutEntry(g, v, c, x)) == FatMap(g, v)[c := Cut(g, x)]
  {
    hide Raw, PutEntry, Cut, Times, FatMap;
    var w := PutEntry(g, v, c, x);
    forall d | 0 <= d < g.maxClust
      ensures FatMap(g, w)[d] == FatMap(g, v)[c := Cut(g, x)][d]
    {
      FatMapAt(g, v, d);
      FatMapAt(g, w, d);
      if d == c {
        PutEntrySame(g, v, c, x);
        CutCut(g, x);
      } else {
        PutEntryOther(g, v, c, x, d);
      }
    }
  }

  /** The table depends on the sectors of the first FAT copy only. */
  lemma FatMapAgree(g: Geometry, v: seq<Sector>, w: seq<Sector>)
    requires Fits(g, v) && |w| == |v|
    requires forall s :: 0 <= s < |v| && g.InFat(s) ==> w[s] == v[s]
    ensures FatMap(g, w) == FatMap(g, v)
  {
    forall o | 0 <= o < 512 * g.sectsFat
      ensures FatByte(g, w, o) == FatByte(g, v, o)
    {
    }
    hide FatByte, FatMap, Cut;
    forall d | 0 <= d < g.maxClust
      ensures FatMap(g, w)[d] == FatMap(g, v)[d]
    {
      FatMapAt(g, v, d);
      FatMapAt(g, w, d);
      assert Raw(g, w, d) == Raw(g, v, d);
    }
  }
}
