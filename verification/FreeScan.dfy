/** f_getfree: the number of free clusters, remembered or counted. */
module FreeScan {
  import opened Words
  import opened Layout
  import opened Codec
  import opened Disk
  import opened Chains
  import opened FileSystem
  import opened Allocation

  /** The stored words of the table, reserved bits included. */
  ghost function RawMap(g: Geometry, v: seq<Sector>): (raw: seq<dword>)
    requires Fits(g, v)
    ensures |raw| == g.maxClust
    ensures forall c :: 0 <= c < g.maxClust ==> raw[c] == Raw(g, v, c)
  {
    seq(g.maxClust, c requires 0 <= c < g.maxClust => Raw(g, v, c))
  }

  /** How many elements are 0. */
  ghost function Zeros(s: seq<dword>): (n: nat)
    ensures n <= |s|
  {
    if s == [] then 0 else Zeros(s[..|s| - 1]) + (if s[|s| - 1] == 0 then 1 else 0)
  }

  /** How many clusters are free although their stored word is not 0: only the FAT32 reserved bits are set. */
  ghost function Masked(g: Geometry, raw: seq<dword>): (n: nat)
    ensures n <= |raw|
  {
    if |raw| <= 2 then 0
    else
      var w := raw[|raw| - 1];
      Masked(g, raw[..|raw| - 1]) + (if w != 0 && Cut(g, w) == 0 then 1 else 0)
  }

  ghost function CutAll(g: Geometry, raw: seq<dword>): (fat: seq<dword>)
    ensures |fat| == |raw|
    ensures forall c :: 0 <= c < |raw| ==> fat[c] == Cut(g, raw[c])
  {
    seq(|raw|, c requires 0 <= c < |raw| => Cut(g, raw[c]))
  }

  /**
    Exactly how the raw scan of f_getfree differs from the number of free clusters: it adds the
    reserved entries 0 and 1 when they read 0, and misses clusters whose reserved bits are set.
   */
  lemma {:induction false} ScanDifference(g: Geometry, raw: seq<dword>)
    requires |raw| >= 2
    ensures Zeros(raw) + Masked(g, raw) == FreeCount(CutAll(g, raw)) + Zeros(raw[..2])
  {
    hide Cut;
    CutZero(g);
    var n := |raw| - 1;
    if n >= 2 {
      ScanDifference(g, raw[..n]);
      assert CutAll(g, raw)[..n] == CutAll(g, raw[..n]);
      assert raw[..n][..2] == raw[..2];
    } else {
      assert raw[..2] == raw;
    }
  }

  /** The scan is right exactly when the reserved entries that read 0 are as many as the clusters hidden by reserved bits. */
  lemma ScanExact(g: Geometry, v: seq<Sector>)
    requires Fits(g, v)
    ensures Zeros(RawMap(g, v)) == FreeCount(FatMap(g, v))
            <==> Zeros(RawMap(g, v)[..2]) == Masked(g, RawMap(g, v))
  {
    hide Cut, Raw, FatMap;
    forall c | 0 <= c < g.maxClust
      ensures FatMap(g, v)[c] == CutAll(g, RawMap(g, v))[c]
    {
      FatMapAt(g, v, c);
    }
    assert FatMap(g, v) == CutAll(g, RawMap(g, v));
    ScanDifference(g, RawMap(g, v));
  }

  /** In particular it is right when entries 0 and 1 are not 0 and no reserved bit is set. */
  lemma {:induction false} ScanClean(g: Geometry, raw: seq<dword>)
    requires |raw| >= 2 && raw[0] != 0 && raw[1] != 0
    requires forall c :: 2 <= c < |raw| ==> raw[c] == Cut(g, raw[c])
    ensures Masked(g, raw) == 0 == Zeros(raw[..2])
  {
    hide Cut;
    if |raw| > 2 {
      ScanClean(g, raw[..|raw| - 1]);
      assert raw[..|raw| - 1][..2] == raw[..2];
    } else {
      assert raw[..2][..1] == [raw[0]];
    }
  }

  lemma FreeCountNext(fat: seq<dword>, c: nat)
    requires 2 <= c < |fat|
    ensures FreeCount(fat[..c + 1]) == FreeCount(fat[..c]) + (if fat[c] == 0 then 1 else 0)
  {
    assert fat[..c + 1][..c] == fat[..c];
  }

  lemma ZerosNext(s: seq<dword>, c: nat)
    requires c < |s|
    ensures Zeros(s[..c + 1]) == Zeros(s[..c]) + (if s[c] == 0 then 1 else 0)
  {
    assert s[..c + 1][..c] == s[..c];
  }

  /** The FAT12 branch: ask get_fat about every cluster. */
  method Count12(fs: FatFs) returns (res: FResult, n: dword)
    requires fs.Valid()
    modifies fs`winsect, fs`wflag, fs.win, fs.drive
    ensures fs.Shape() && fs.Vol() == old(fs.Vol())
    ensures |fs.drive.sectors| == old(|fs.drive.sectors|)
    ensures res == Ok || res == DiskErr || res == IntErr
    ensures res != DiskErr ==> fs.Valid()
    ensures res == Ok ==> n == FreeCount(fs.Fat())
    ensures res == IntErr ==> fs.g.maxClust == 2 || HasBadEntry(fs.Fat())
    ensures fs.drive.reliable ==> res != DiskErr
    ensures fs.drive.reliable && old(fs.Mirrored()) ==> fs.Mirrored()
  {
    hide FatMap, Fits, FreeCount, HasBadEntry;
    hide FatFs.Mirrored, FatFs.Valid, FatFs.Shape, FatFs.Vol, FatFs.Fat;
    ghost var fat := fs.Fat();
    NoneCounted(fat[..2]);
    n := 0;
    var clst: dword := 2;
    var more := true;
    while more
      invariant fs.Valid() && fs.Vol() == old(fs.Vol())
      invariant |fs.drive.sectors| == old(|fs.drive.sectors|)
      invariant fs.drive.reliable && old(fs.Mirrored()) ==> fs.Mirrored()
      invariant 2 <= clst <= fs.g.maxClust && n <= clst
      invariant clst > 2 ==> more == (clst < fs.g.maxClust)
      invariant clst == 2 ==> more
      invariant n == FreeCount(fat[..clst])
      decreases fs.g.maxClust - clst, more
    {
      var stat := fs.GetFat(clst);
      if stat == DISK_ERROR {
        return DiskErr, n;
      }
      if stat == 1 {
        if clst < fs.g.maxClust {
          BadEntry(fat, clst);
        }
        return IntErr, n;
      }
      FreeCountNext(fat, clst);
      if stat == 0 {
        n := n + 1;
      }
      clst := clst + 1;
      more := clst < fs.g.maxClust;
    }
    assert fat[..clst] == fat;
    return Ok, n;
  }

  lemma NoneCounted(s: seq<dword>)
    requires |s| <= 2
    ensures FreeCount(s) == 0
  {
  }

  function Width(g: Geometry): nat {
    if g.fsType == FAT16 then 2 else 4
  }

  /** The scan pointer p in sector k of the table is at entry e. */
  lemma ScanEntry(g: Geometry, v: seq<Sector>, e: nat, k: nat, p: nat)
    requires Fits(g, v) && e < g.maxClust && g.fsType != FAT12
    requires e * Width(g) == 512 * k + p && p < 512
    ensures k < g.sectsFat && p + Width(g) <= 512
    ensures g.fsType == FAT16 ==> LdWord(v[g.fatbase + k], p) == Raw(g, v, e)
    ensures g.fsType == FAT32 ==> LdDword(v[g.fatbase + k], p) == Raw(g, v, e)
  {
    hide Times, FatByte, LdWord, LdDword, Join, Raw;
    EntryInFat(g, e);
    var o := EntryOfs(g, e);
    QuotientRest(o, k, p);
    if g.fsType == FAT16 {
      Aligned2(e);
      LoadWord(g, v, o);
      Raw16(g, v, e);
    } else {
      Aligned4(e);
      LoadDword(g, v, o);
      Raw32(g, v, e);
    }
  }

  lemma Aligned2(e: nat)
    ensures 2 * e % 2 == 0
  {
  }

  lemma Aligned4(e: nat)
    ensures 4 * e % 4 == 0
  {
  }

  lemma Raw16(g: Geometry, v: seq<Sector>, e: nat)
    requires Fits(g, v) && e < g.maxClust && g.fsType == FAT16 && 2 * e + 2 <= 512 * g.sectsFat
    ensures Raw(g, v, e) == Join(FatByte(g, v, 2 * e), FatByte(g, v, 2 * e + 1))
  {
    hide Times, FatByte, Join;
  }

  lemma Raw32(g: Geometry, v: seq<Sector>, e: nat)
    requires Fits(g, v) && e < g.maxClust && g.fsType == FAT32 && 4 * e + 4 <= 512 * g.sectsFat
    ensures Raw(g, v, e) == Join(FatByte(g, v, 4 * e), FatByte(g, v, 4 * e + 1)) as int
                            + 0x1_0000 * Join(FatByte(g, v, 4 * e + 2), FatByte(g, v, 4 * e + 3)) as int
  {
    hide Times, FatByte, Join;
  }

  lemma EntryInFat(g: Geometry, e: nat)
    requires g.Valid() && e < g.maxClust && g.fsType != FAT12
    ensures EntryOfs(g, e) + Width(g) <= 512 * g.sectsFat
  {
    hide Times;
  }

  lemma QuotientRest(o: nat, k: nat, p: nat)
    requires o == 512 * k + p && p < 512
    ensures o / 512 == k && o % 512 == p
  {
  }

  /** The position of the scan: i bytes of the last loaded sector are left, behind e entries. */
  ghost predicate At(g: Geometry, e: nat, sect: nat, i: nat) {
    g.fatbase <= sect && i <= 512 && e * Width(g) + i == 512 * (sect - g.fatbase)
  }

  /** The FAT16 and FAT32 branch: walk the raw sectors of the table, one word or double word at a time. */
  method CountRaw(fs: FatFs) returns (res: FResult, n: dword)
    requires fs.Valid() && fs.g.fsType != FAT12
    modifies fs`winsect, fs`wflag, fs.win, fs.drive
    ensures fs.Shape() && fs.Vol() == old(fs.Vol())
    ensures |fs.drive.sectors| == old(|fs.drive.sectors|)
    ensures res == Ok || res == DiskErr
    ensures res == Ok ==> fs.Valid()
    ensures res == Ok ==> n == Zeros(RawMap(fs.g, fs.Vol()))
    ensures fs.drive.reliable ==> res == Ok
    ensures fs.drive.reliable && old(fs.Mirrored()) ==> fs.Mirrored()
  {
    hide Zeros, Raw, At, LdWord, LdDword;
    hide FatFs.Mirrored, FatFs.Valid, FatFs.Shape, FatFs.Vol, FatFs.Fat;
    ghost var raw := RawMap(fs.g, fs.Vol());
    var g := fs.g;
    n := 0;
    var clst: dword := g.maxClust;
    var sect := g.fatbase;
    var i: nat := 0;
    var p: nat := 0;
    NoZeros();
    AtStart(g);
    while clst != 0
      invariant fs.Valid() && fs.Vol() == old(fs.Vol())
      invariant |fs.drive.sectors| == old(|fs.drive.sectors|)
      invariant fs.drive.reliable && old(fs.Mirrored()) ==> fs.Mirrored()
      invariant clst <= g.maxClust && n <= g.maxClust - clst
      invariant At(g, g.maxClust - clst, sect, i)
      invariant i > 0 ==> p + i == 512 && fs.win[..] == LastLoaded(fs, sect)
      invariant n == Zeros(raw[..g.maxClust - clst])
      decreases clst
    {
      ghost var e: nat := g.maxClust - clst;
      if i == 0 {
        AtNext(g, e, sect);
        res := fs.MoveWindow(sect);
        sect := sect + 1;
        if res != Ok {
          return;
        }
        p := 0;
        i := 512;
      }
      AtHere(g, fs.Vol(), e, sect, i);
      ZerosNext(raw, e);
      if g.fsType == FAT16 {
        if LdWord(fs.win[..], p) == 0 {
          n := n + 1;
        }
        p := p + 2;
        i := i - 2;
      } else {
        if LdDword(fs.win[..], p) == 0 {
          n := n + 1;
        }
        p := p + 4;
        i := i - 4;
      }
      clst := clst - 1;
    }
    assert raw[..g.maxClust] == raw;
    return Ok, n;
  }

  ghost function LastLoaded(fs: FatFs, sect: nat): seq<byte>
    requires fs.Shape()
    reads fs`winsect, fs`wflag, fs.win, fs.drive
  {
    if 0 < sect <= |fs.Vol()| then fs.Vol()[sect - 1] else []
  }

  lemma NoZeros()
    ensures Zeros([]) == 0
  {
  }

  lemma AtStart(g: Geometry)
    ensures At(g, 0, g.fatbase, 0)
  {
  }

  /** The next sector to load still belongs to the first FAT copy. */
  lemma AtNext(g: Geometry, e: nat, sect: nat)
    requires g.Valid() && e < g.maxClust && g.fsType != FAT12 && At(g, e, sect, 0)
    ensures g.InFat(sect) && At(g, e, sect + 1, 512)
  {
    hide Times;
    EntryInFat(g, e);
  }

  lemma AtHere(g: Geometry, v: seq<Sector>, e: nat, sect: nat, i: nat)
    requires Fits(g, v) && e < g.maxClust && g.fsType != FAT12 && At(g, e, sect, i) && i > 0
    ensures g.fatbase < sect <= |v| && Width(g) <= i
    ensures At(g, e + 1, sect, i - Width(g))
    ensures g.fsType == FAT16 ==> LdWord(v[sect - 1], 512 - i) == Raw(g, v, e)
    ensures g.fsType == FAT32 ==> LdDword(v[sect - 1], 512 - i) == Raw(g, v, e)
  {
    hide Times, Raw, LdWord, LdDword;
    ScanEntry(g, v, e, sect - 1 - g.fatbase, 512 - i);
  }

  /** f_getfree behind the mount check: the remembered count when it is plausible, else a count of the table. */
  method GetFree(fs: FatFs) returns (res: FResult, nclst: dword)
    requires fs.Valid()
    modifies fs`winsect, fs`wflag, fs`fsiFlag, fs`freeClust, fs.win, fs.drive
    ensures fs.Shape() && fs.Vol() == old(fs.Vol())
    ensures res == Ok ==> fs.Valid() && fs.freeClust == nclst
    ensures res == Ok && old(fs.freeClust) <= fs.g.maxClust - 2 ==> nclst == old(fs.freeClust)
    ensures res == Ok && old(fs.freeClust) > fs.g.maxClust - 2 ==>
              nclst == if fs.g.fsType == FAT12 then FreeCount(fs.Fat()) else Zeros(RawMap(fs.g, fs.Vol()))
    ensures fs.drive.reliable ==> res != DiskErr
    ensures fs.drive.reliable && old(fs.Mirrored()) ==> fs.Mirrored()
  {
    hide Zeros, Raw, FreeCount, RawMap, FatMap, Fits;
    hide FatFs.Mirrored, IsFsInfo, Volume, FatFs.Shape, FatFs.Vol, FatFs.Fat;
    nclst := 0;
    if fs.freeClust <= fs.g.maxClust - 2 {
      return Ok, fs.freeClust;
    }
    var n: dword;
    if fs.g.fsType == FAT12 {
      res, n := Count12(fs);
    } else {
      res, n := CountRaw(fs);
    }
    if res == Ok {
      fs.freeClust := n;
      if fs.g.fsType == FAT32 {
        fs.fsiFlag := true;
      }
      nclst := n;
    }
  }

  /** A count that was unknown or right is right afterwards, on every table the scan reads exactly. */
  lemma GetFreeCounts(g: Geometry, v: seq<Sector>, was: dword, n: nat)
    requires Fits(g, v) && g.maxClust <= 0x0FFF_FFFF
    requires was == UNKNOWN || was == FreeCount(FatMap(g, v))
    requires n == if was <= g.maxClust - 2 then was
                  else if g.fsType == FAT12 then FreeCount(FatMap(g, v)) else Zeros(RawMap(g, v))
    ensures n == FreeCount(FatMap(g, v)) <==>
            was <= g.maxClust - 2 || g.fsType == FAT12
            || Zeros(RawMap(g, v)[..2]) == Masked(g, RawMap(g, v))
  {
    hide FatMap, RawMap;
    ScanExact(g, v);
  }
}
