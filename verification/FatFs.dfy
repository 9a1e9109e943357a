/** The FATFS object: one write-back sector window over FAT and directory sectors. */
module FileSystem {
  import opened Words
  import opened Layout
  import opened Codec
  import opened Disk
  import opened Mirror

  const DISK_ERROR: dword := 0xFFFF_FFFF

  /** FATFS.free_clust when the number of free clusters is not known. */
  const UNKNOWN: dword := 0xFFFF_FFFF

  /** A sector auto_mount accepts as FSInfo, with the two allocation hints it loads. */
  ghost predicate IsFsInfo(s: Sector, lastClust: dword, freeClust: dword) {
    && LdWord(s, 510) == 0xAA55
    && LdDword(s, 0) == 0x4161_5252
    && LdDword(s, 484) == 0x6141_7272
    && LdDword(s, 488) == freeClust
    && LdDword(s, 492) == lastClust
  }

  /** The sector sync builds: all else is zero. */
  ghost predicate FreshFsInfo(s: Sector, lastClust: dword, freeClust: dword) {
    && IsFsInfo(s, lastClust, freeClust)
    && forall k :: 0 <= k < 512 && !(k < 4 || 484 <= k < 496 || 510 <= k) ==> s[k] == 0
  }

  /** Its bytes: "RRaA", "rrAa", the two hints lowest byte first, and the boot signature. */
  lemma FsInfoBytes(s: Sector, lastClust: dword, freeClust: dword)
    requires IsFsInfo(s, lastClust, freeClust)
    ensures s[0] == 0x52 && s[1] == 0x52 && s[2] == 0x61 && s[3] == 0x41
    ensures s[484] == 0x72 && s[485] == 0x72 && s[486] == 0x41 && s[487] == 0x61
    ensures freeClust == s[488] as int + 0x100 * s[489] as int + 0x1_0000 * s[490] as int + 0x100_0000 * s[491] as int
    ensures lastClust == s[492] as int + 0x100 * s[493] as int + 0x1_0000 * s[494] as int + 0x100_0000 * s[495] as int
    ensures s[510] == 0x55 && s[511] == 0xAA
  {
    hide IsFsInfo;
    FsInfoMarks(s, lastClust, freeClust);
    DwordBytes(s, 0);
    DwordBytes(s, 484);
    DwordBytes(s, 488);
    DwordBytes(s, 492);
    NumberPair(s[510], s[511]);
  }

  lemma FsInfoMarks(s: Sector, lastClust: dword, freeClust: dword)
    requires IsFsInfo(s, lastClust, freeClust)
    ensures LdWord(s, 510) == 0xAA55 && LdDword(s, 0) == 0x4161_5252 && LdDword(s, 484) == 0x6141_7272
    ensures LdDword(s, 488) == freeClust && LdDword(s, 492) == lastClust
  {
  }

  class FatFs {
    const g: Geometry
    const drive: Drive
    const win: array<byte>
    var winsect: nat
    var wflag: bool
    var fsiFlag: bool
    var lastClust: dword
    var freeClust: dword

    /**
      The end of auto_mount. On FAT32 the two hints are loaded from a proper FSInfo sector; otherwise the
      number of free clusters is unknown, and the last allocated cluster is whatever the object held.
     */
    constructor (g: Geometry, drive: Drive, held: dword)
      requires Fits(g, drive.sectors)
      ensures Valid() && this.g == g && this.drive == drive
      ensures !wflag && !fsiFlag && winsect == 0
      ensures g.fsType != FAT32 ==> freeClust == 0xFFFF_FFFF && lastClust == held
      ensures g.fsType == FAT32 ==>
                IsFsInfo(drive.sectors[g.fsiSector], lastClust, freeClust) || (freeClust == 0xFFFF_FFFF && lastClust == held)
      ensures drive.reliable && g.fsType == FAT32 ==>
                forall l: dword, f: dword :: IsFsInfo(drive.sectors[g.fsiSector], l, f) ==> lastClust == l && freeClust == f
      ensures fresh(win)
      ensures Vol() == Volume(g, drive.sectors)
    {
      hide LdWord, LdDword;
      this.g, this.drive := g, drive;
      this.win := new byte[512](i => 0);
      this.winsect, this.wflag, this.fsiFlag := 0, false, false;
      this.lastClust, this.freeClust := held, UNKNOWN;
      new;
      if g.fsType == FAT32 {
        var ok := drive.ReadSector(win, g.fsiSector);
        if ok && LdWord(win[..], 510) == 0xAA55 && LdDword(win[..], 0) == 0x4161_5252 && LdDword(win[..], 484) == 0x6141_7272 {
          lastClust, freeClust := LdDword(win[..], 492), LdDword(win[..], 488);
        }
      }
    }

    /** What every operation keeps, even after a disk failure. */
    ghost predicate Shape()
      reads `winsect, `wflag, win, drive
      ensures Shape() ==> win.Length == 512 && Fits(g, drive.sectors)
                           && g.Valid() && 2 <= g.maxClust <= 0x0FFF_FFFF && 1 <= g.csize <= 128
    {
      && win.Length == 512
      && Fits(g, drive.sectors)
      && winsect < |drive.sectors|
      && (winsect == 0 || g.Live(winsect))
      && (wflag ==> winsect != 0)
    }

    /** On FAT32 a known free count and the last cluster are those in FSInfo, unless they are marked changed. */
    ghost predicate Hinted()
      reads `fsiFlag, `lastClust, `freeClust, drive
    {
      drive.reliable && g.fsType == FAT32 && freeClust != UNKNOWN && !fsiFlag ==>
        g.fsiSector < |drive.sectors| && IsFsInfo(drive.sectors[g.fsiSector], lastClust, freeClust)
    }

    /** The disk itself, at offsets 488 and 492 of FSInfo, has the free count, if it is known, and the last cluster. */
    ghost predicate CountOnDisk()
      reads `lastClust, `freeClust, drive
    {
      drive.reliable && g.fsType == FAT32 && freeClust != UNKNOWN ==>
        && g.fsiSector < |drive.sectors|
        && LdDword(drive.sectors[g.fsiSector], 488) == freeClust
        && LdDword(drive.sectors[g.fsiSector], 492) == lastClust
    }

    /** The invariant: a clean window shows its sector, and the disk has the hints that are not marked changed. */
    ghost predicate Valid()
      reads `winsect, `wflag, `fsiFlag, `lastClust, `freeClust, win, drive
      ensures Valid() ==> Shape() && Hinted()
    {
      Shape() && (!wflag && winsect != 0 ==> win[..] == drive.sectors[winsect]) && Hinted()
    }

    /** The disk overlaid by the dirty window. */
    ghost function Image(): (i: seq<Sector>)
      requires Shape()
      reads `winsect, `wflag, win, drive
      ensures |i| == |drive.sectors|
    {
      if wflag then drive.sectors[winsect := win[..]] else drive.sectors
    }

    /** The logical volume. */
    ghost function Vol(): (v: seq<Sector>)
      requires Shape()
      reads `winsect, `wflag, win, drive
      ensures |v| == |drive.sectors| && Fits(g, v)
    {
      Volume(g, Image())
    }

    /** The logical file allocation table. */
    ghost function Fat(): (fat: seq<dword>)
      requires Shape()
      reads `winsect, `wflag, win, drive
      ensures |fat| == g.maxClust && fat == FatMap(g, Vol())
    {
      FatMap(g, Vol())
    }

    /** The FAT copies agree, except for a FAT sector that is still dirty in the window. */
    ghost predicate Mirrored()
      requires Shape()
      reads `winsect, `wflag, win, drive
    {
      CopiesAgree(g, drive.sectors, if wflag then winsect else 0)
    }

    /** The loop of move_window over the FAT copies; the write results are ignored. */
    method ReflectCopies(from: nat)
      requires Shape() && g.InFat(from)
      modifies drive
      ensures |drive.sectors| == old(|drive.sectors|)
      ensures forall s :: 0 <= s < |drive.sectors| && (g.Live(s) || s < g.fatbase) ==> drive.sectors[s] == old(drive.sectors)[s]
      ensures drive.reliable ==> drive.sectors == Reflect(g, old(drive.sectors), from, win[..], g.nFats - 1)
    {
      var nf := g.nFats;
      var wsect := from;
      while nf > 1
        invariant 1 <= nf <= g.nFats
        invariant |drive.sectors| == old(|drive.sectors|)
        invariant wsect == CopySector(g, g.nFats - nf, from)
        invariant forall s :: 0 <= s < |drive.sectors| && (g.Live(s) || s < g.fatbase) ==> drive.sectors[s] == old(drive.sectors)[s]
        invariant drive.reliable ==>
                    drive.sectors == Reflect(g, old(drive.sectors), from, win[..], g.nFats - nf)
        decreases nf
      {
        wsect := wsect + g.sectsFat;
        CopyInside(g, g.nFats - nf + 1, from);
        var _ := drive.WriteSector(win[..], wsect);
        nf := nf - 1;
      }
    }

    /** move_window, first half: write a dirty window back, and reflect a FAT sector to all copies. */
    method FlushWindow() returns (res: FResult)
      requires Shape()
      modifies this`wflag, drive
      ensures Shape() && Vol() == old(Vol()) && (old(Valid()) ==> Valid())
      ensures |drive.sectors| == old(|drive.sectors|)
      ensures res == Ok || res == DiskErr
      ensures res == Ok ==> !wflag
      ensures drive.reliable ==> res == Ok
      ensures old(Hinted()) ==> Hinted()
      ensures drive.reliable && old(Mirrored()) ==> Mirrored()
    {
      hide Times, IsFsInfo, Reflect, CopiesAgree;
      res := Ok;
      if wflag {
        ghost var before := drive.sectors;
        var ok := drive.WriteSector(win[..], winsect);
        if !ok {
          VolumeAgree(g, Image(), old(Image()));
          return DiskErr;
        }
        wflag := false;
        if winsect < g.fatbase + g.sectsFat {
          ReflectCopies(winsect);
          ReflectMirrored(before);
        } else {
          OutsideMirrored(before);
        }
        VolumeAgree(g, Image(), old(Image()));
      }
    }

    lemma ReflectMirrored(before: seq<Sector>)
      requires Shape() && g.InFat(winsect) && |before| == |drive.sectors|
      ensures CopiesAgree(g, before, winsect)
              && drive.sectors == Reflect(g, before[winsect := win[..]], winsect, win[..], g.nFats - 1)
              ==> CopiesAgree(g, drive.sectors, 0)
    {
      if CopiesAgree(g, before, winsect) {
        ReflectAgrees(g, before, winsect, win[..]);
      }
    }

    lemma OutsideMirrored(before: seq<Sector>)
      requires Shape() && g.FatEnd() <= winsect && |before| == |drive.sectors|
      ensures CopiesAgree(g, before, winsect) && drive.sectors == before[winsect := win[..]]
              ==> CopiesAgree(g, drive.sectors, 0)
    {
      if CopiesAgree(g, before, winsect) {
        OutsideAgrees(g, before, winsect, win[..]);
      }
    }

    /** move_window: sector 0 only writes a dirty window back. */
    method MoveWindow(sector: nat) returns (res: FResult)
      requires Shape()
      requires sector == 0 || (g.Live(sector) && sector < |drive.sectors|)
      modifies this`winsect, this`wflag, win, drive
      ensures Shape() && Vol() == old(Vol())
      ensures |drive.sectors| == old(|drive.sectors|)
      ensures res == Ok || res == DiskErr
      ensures old(Valid()) && (res == Ok || sector == 0) ==> Valid()
      ensures res == Ok && sector != 0 ==> winsect == sector
      ensures res == Ok && sector != 0 && old(Valid()) ==> win[..] == Vol()[sector]
      ensures res == Ok && sector == 0 ==> !wflag && winsect == old(winsect) && win[..] == old(win[..])
      ensures sector == old(winsect) ==> wflag == old(wflag)
      ensures drive.reliable ==> res == Ok
      ensures old(Hinted()) ==> Hinted()
      ensures drive.reliable && old(Mirrored()) ==> Mirrored()
    {
      hide Times, IsFsInfo, CopiesAgree;
      res := Ok;
      if winsect != sector {
        res := FlushWindow();
        if res != Ok {
          return;
        }
        if sector != 0 {
          var ok := drive.ReadSector(win, sector);
          if !ok {
            return DiskErr;
          }
          winsect := sector;
        }
      }
    }

    /** The volume after a store into the window, given the volume before it. */
    lemma WindowStored(before: seq<Sector>, v: seq<Sector>)
      requires Shape() && wflag && v == Volume(g, before) && |before| == |drive.sectors|
      requires forall s :: 0 <= s < |before| && s != winsect ==> before[s] == drive.sectors[s]
      ensures Vol() == v[winsect := win[..]]
    {
    }

    /** sync: write the window back, then rewrite FSInfo if its hints changed. */
    method Sync() returns (res: FResult)
      requires Valid()
      modifies this`winsect, this`wflag, this`fsiFlag, win, drive
      ensures Valid() && Vol() == old(Vol())
      ensures |drive.sectors| == old(|drive.sectors|)
      ensures res == Ok || res == DiskErr
      ensures res == Ok ==> !wflag && Vol() == Volume(g, drive.sectors)
      ensures res == Ok ==> winsect == old(winsect) || winsect == 0
      ensures drive.reliable ==> res == Ok
      ensures drive.reliable && old(Mirrored()) ==> Mirrored()
      ensures res == Ok && drive.reliable && g.fsType == FAT32 && old(fsiFlag) ==>
                FreshFsInfo(drive.sectors[g.fsiSector], lastClust, freeClust)
      ensures res == Ok && g.fsType == FAT32 ==> !fsiFlag
      ensures res == Ok ==> CountOnDisk()
    {
      hide Times, CopiesAgree, Volume, Geometry.Valid, LdWord, LdDword;
      res := MoveWindow(0);
      if res == Ok {
        if g.fsType == FAT32 && fsiFlag {
          WriteFsInfo();
        }
        var ok := drive.Sync();
        if !ok {
          res := DiskErr;
        }
      }
    }

    /** The FSInfo image is built in the window buffer. */
    method BuildFsInfo()
      requires win.Length == 512
      modifies win
      ensures FreshFsInfo(win[..], lastClust, freeClust)
    {
      MemSet(win, 0, 0, 512);
      StWordAt(win, 510, 0xAA55);
      StDwordAt(win, 0, 0x4161_5252);
      StDwordAt(win, 484, 0x6141_7272);
      StDwordAt(win, 488, freeClust);
      StDwordAt(win, 492, lastClust);
    }

    /** The FSInfo branch of sync; it reuses the window buffer and invalidates the window. */
    method WriteFsInfo()
      requires Valid() && !wflag && g.fsType == FAT32
      modifies this`winsect, this`fsiFlag, win, drive
      ensures Valid() && Vol() == old(Vol()) && winsect == 0 && !fsiFlag
      ensures |drive.sectors| == old(|drive.sectors|)
      ensures drive.reliable ==> FreshFsInfo(drive.sectors[g.fsiSector], lastClust, freeClust)
      ensures drive.reliable && old(Mirrored()) ==> Mirrored()
    {
      hide Times, IsFsInfo, CopiesAgree;
      winsect := 0;
      BuildFsInfo();
      ghost var before := drive.sectors;
      var _ := drive.WriteSector(win[..], g.fsiSector);
      fsiFlag := false;
      VolumeAgree(g, drive.sectors, before);
      ReservedMirrored(before);
    }

    lemma ReservedMirrored(before: seq<Sector>)
      requires Shape() && g.fsType == FAT32 && |before| == |drive.sectors|
      requires forall s :: 0 <= s < |before| && s != g.fsiSector ==> before[s] == drive.sectors[s]
      ensures CopiesAgree(g, before, 0) ==> CopiesAgree(g, drive.sectors, 0)
    {
      forall k: nat, s: nat | CopiesAgree(g, before, 0) && k < g.nFats && g.InFat(s)
        ensures CopySector(g, k, s) < |before| && drive.sectors[CopySector(g, k, s)] == drive.sectors[s]
      {
        CopyInside(g, k, s);
        assert before[CopySector(g, k, s)] == before[s];
      }
    }

    /** Bring the FAT sector that holds byte o of the table into the window. */
    method LoadFatSector(o: nat) returns (res: FResult)
      requires Shape() && o < 512 * g.sectsFat
      modifies this`winsect, this`wflag, win, drive
      ensures Shape() && Vol() == old(Vol())
      ensures |drive.sectors| == old(|drive.sectors|)
      ensures res == Ok || res == DiskErr
      ensures res == Ok ==> g.InFat(winsect) && winsect == g.fatbase + o / 512
      ensures res == Ok && old(Valid()) ==>
                Valid()
                            && win[..] == Vol()[winsect] && win[o % 512] == FatByte(g, Vol(), o)
      ensures drive.reliable ==> res == Ok
      ensures old(Hinted()) ==> Hinted()
      ensures drive.reliable && old(Mirrored()) ==> Mirrored()
    {
      hide Times, IsFsInfo, CopiesAgree;
      res := MoveWindow(g.fatbase + o / 512);
    }

    method GetFat12(clst: dword) returns (r: dword)
      requires Shape() && IsCluster(g, clst) && g.fsType == FAT12
      modifies this`winsect, this`wflag, win, drive
      ensures Shape() && Vol() == old(Vol())
      ensures |drive.sectors| == old(|drive.sectors|)
      ensures r != DISK_ERROR && old(Valid()) ==> Valid() && r == Raw(g, Vol(), clst) && g.InFat(winsect)
      ensures drive.reliable ==> r != DISK_ERROR
      ensures drive.reliable && old(Mirrored()) ==> Mirrored()
    {
      hide Times, IsFsInfo, CopiesAgree, FatByte, Unpack12;
      var bc := clst + clst / 2;
      var res := LoadFatSector(bc);
      if res == Ok {
        var lo := win[bc % 512];
        bc := bc + 1;
        res := LoadFatSector(bc);
        if res == Ok {
          r := Unpack12(clst, lo, win[bc % 512]);
          Below12(clst, lo, win[bc % 512]);
          return;
        }
      }
      return DISK_ERROR;
    }

    method GetFat16(clst: dword) returns (r: dword)
      requires Shape() && IsCluster(g, clst) && g.fsType == FAT16
      modifies this`winsect, this`wflag, win, drive
      ensures Shape() && Vol() == old(Vol())
      ensures |drive.sectors| == old(|drive.sectors|)
      ensures r != DISK_ERROR && old(Valid()) ==> Valid() && r == Raw(g, Vol(), clst) && g.InFat(winsect)
      ensures drive.reliable ==> r != DISK_ERROR
      ensures drive.reliable && old(Mirrored()) ==> Mirrored()
    {
      hide Times, IsFsInfo, CopiesAgree, FatByte, LdWord, Join, Volume, Raw, Sector16, Offset16, Geometry.Valid;
      hide Geometry.Live, Geometry.InFat, End;
      Entry16(g, Vol(), clst, 0);
      var res := MoveWindow(g.fatbase + Sector16(clst));
      if res == Ok {
        return LdWord(win[..], Offset16(clst));
      }
      return DISK_ERROR;
    }

    method GetFat32(clst: dword) returns (r: dword)
      requires Shape() && IsCluster(g, clst) && g.fsType == FAT32
      modifies this`winsect, this`wflag, win, drive
      ensures Shape() && Vol() == old(Vol())
      ensures |drive.sectors| == old(|drive.sectors|)
      ensures r != DISK_ERROR && old(Valid()) ==> Valid() && r == Raw(g, Vol(), clst) % 0x1000_0000 && g.InFat(winsect)
      ensures drive.reliable ==> r != DISK_ERROR
      ensures drive.reliable && old(Mirrored()) ==> Mirrored()
    {
      hide Times, IsFsInfo, CopiesAgree, FatByte, LdDword, Join, Volume, Raw, Sector32, Offset32, Geometry.Valid;
      hide Geometry.Live, Geometry.InFat, End;
      Entry32(g, Vol(), clst, 0);
      var res := MoveWindow(g.fatbase + Sector32(clst));
      if res == Ok {
        return LdDword(win[..], Offset32(clst)) % 0x1000_0000;
      }
      return DISK_ERROR;
    }

    /** get_fat: 1 for a number that is no cluster, DISK_ERROR when a transfer failed. */
    method GetFat(clst: dword) returns (r: dword)
      requires Shape()
      modifies this`winsect, this`wflag, win, drive
      ensures Shape() && Vol() == old(Vol())
      ensures |drive.sectors| == old(|drive.sectors|)
      ensures !IsCluster(g, clst) ==> r == 1 && (old(Valid()) ==> Valid()) && winsect == old(winsect)
      ensures IsCluster(g, clst) && r != DISK_ERROR && old(Valid()) ==> Valid() && r == Fat()[clst] && g.InFat(winsect)
      ensures drive.reliable ==> r != DISK_ERROR
      ensures drive.reliable && old(Mirrored()) ==> Mirrored()
    {
      hide Times, IsFsInfo, CopiesAgree, Raw, FatMap;
      if clst < 2 || clst >= g.maxClust {
        return 1;
      }
      RawFits(g, Vol(), clst);
      match g.fsType {
        case FAT12 => r := GetFat12(clst);
        case FAT16 => r := GetFat16(clst);
        case FAT32 => r := GetFat32(clst);
      }
    }

    /** One byte of the FAT sector in the window is stored, and the window marked dirty. */
    method StoreFatByte(o: nat, b: byte)
      requires Shape() && o < 512 * g.sectsFat && winsect == g.fatbase + o / 512
      modifies this`wflag, win
      ensures Shape() && wflag && (old(Valid()) ==> Valid())
      ensures old(Valid()) ==> Vol() == SetFatByte(g, old(Vol()), o, b)
      ensures old(Mirrored()) ==> Mirrored()
    {
      hide Times, FatMap, FatFs.Hinted, IsFsInfo, CopiesAgree, Geometry.TypeMatches, Geometry.RootMatches, Geometry.FatBytes, PowerOfTwo;
      AgreeExcept(g, drive.sectors, winsect);
      ghost var before := Image();
      ghost var was := win[..];
      win[o % 512] := b;
      wflag := true;
      WindowStored(before, old(Vol()));
      assert win[..] == was[o % 512 := b];
    }

    /** One of the two byte stores of the FAT12 branch: *p = ... after its own move_window. */
    method PatchFatByte(o: nat, clst: dword, val: dword, second: bool) returns (res: FResult)
      requires Shape() && o < 512 * g.sectsFat
      modifies this`winsect, this`wflag, win, drive
      ensures |drive.sectors| == old(|drive.sectors|)
      ensures res == Ok || res == DiskErr
      ensures res == Ok ==> Shape() && wflag
      ensures res == Ok && old(Valid()) ==>
                Valid() && g.InFat(winsect) && Vol() == SetFatByte(g, old(Vol()), o, NewByte12(clst, FatByte(g, old(Vol()), o), val, second))
      ensures drive.reliable ==> res != DiskErr
      ensures drive.reliable && old(Mirrored()) && res == Ok ==> Mirrored()
    {
      hide Times, IsFsInfo, CopiesAgree, FatByte, SetFatByte, NewByte12;
      res := LoadFatSector(o);
      if res == Ok {
        StoreFatByte(o, NewByte12(clst, win[o % 512], val, second));
      }
    }

    /** The FAT12 branch of put_fat: the entry may straddle two sectors, so the window may be swapped between the stores. */
    method PutFat12(clst: dword, val: dword) returns (res: FResult)
      requires Shape() && IsCluster(g, clst) && g.fsType == FAT12
      modifies this`winsect, this`wflag, win, drive
      ensures |drive.sectors| == old(|drive.sectors|)
      ensures res == Ok || res == DiskErr
      ensures res == Ok ==> Shape() && wflag
      ensures res == Ok && old(Valid()) ==>
                Valid() && g.InFat(winsect) && Vol() == Put12(g, old(Vol()), clst, val)
      ensures drive.reliable ==> res != DiskErr
      ensures drive.reliable && old(Mirrored()) && res == Ok ==> Mirrored()
    {
      hide Times, IsFsInfo, CopiesAgree, FatByte, SetFatByte, FirstByte12, SecondByte12;
      var bc := clst + clst / 2;
      res := PatchFatByte(bc, clst, val, false);
      if res == Ok {
        bc := bc + 1;
        res := PatchFatByte(bc, clst, val, true);
      }
    }

    /** The volume and the mirrors after the whole window of a FAT sector is stored. */
    lemma SectorStored(before: seq<Sector>, v: seq<Sector>, wasDirty: bool)
      requires Shape() && wflag && v == Volume(g, before) && |before| == |drive.sectors|
      requires forall s :: 0 <= s < |before| && s != winsect ==> before[s] == drive.sectors[s]
      ensures Vol() == v[winsect := win[..]]
      ensures CopiesAgree(g, drive.sectors, if wasDirty then winsect else 0) ==> Mirrored()
    {
      WindowStored(before, v);
    }

    method PutFat16(clst: dword, val: dword) returns (res: FResult)
      requires Shape() && IsCluster(g, clst) && g.fsType == FAT16
      modifies this`winsect, this`wflag, win, drive
      ensures |drive.sectors| == old(|drive.sectors|)
      ensures res == Ok || res == DiskErr
      ensures res == Ok ==> Shape() && wflag
      ensures res == Ok && old(Valid()) ==>
                Valid() && g.InFat(winsect) && Vol() == PutWord(g, old(Vol()), 2 * clst, val % 0x1_0000)
      ensures drive.reliable ==> res != DiskErr
      ensures drive.reliable && old(Mirrored()) && res == Ok ==> Mirrored()
    {
      hide Times, IsFsInfo, CopiesAgree, StWord, LdWord, PutWord, FatByte, Volume, Sector16, Offset16;
      var x: word := val % 0x1_0000;
      Entry16(g, Vol(), clst, x);
      res := MoveWindow(g.fatbase + Sector16(clst));
      if res == Ok {
        ghost var before, dirty := Image(), wflag;
        StWordAt(win, Offset16(clst), x);
        wflag := true;
        SectorStored(before, old(Vol()), dirty);
      }
    }

    method PutFat32(clst: dword, val: dword) returns (res: FResult)
      requires Shape() && IsCluster(g, clst) && g.fsType == FAT32
      modifies this`winsect, this`wflag, win, drive
      ensures |drive.sectors| == old(|drive.sectors|)
      ensures res == Ok || res == DiskErr
      ensures res == Ok ==> Shape() && wflag
      ensures res == Ok && old(Valid()) ==>
                Valid() && g.InFat(winsect) && Vol() == PutDword(g, old(Vol()), 4 * clst, val)
      ensures drive.reliable ==> res != DiskErr
      ensures drive.reliable && old(Mirrored()) && res == Ok ==> Mirrored()
    {
      hide Times, IsFsInfo, CopiesAgree, StDword, LdDword, PutDword, FatByte, Volume, Sector32, Offset32;
      Entry32(g, Vol(), clst, val);
      res := MoveWindow(g.fatbase + Sector32(clst));
      if res == Ok {
        ghost var before, dirty := Image(), wflag;
        StDwordAt(win, Offset32(clst), val);
        wflag := true;
        SectorStored(before, old(Vol()), dirty);
      }
    }

    /** put_fat. On a disk error the window is marked dirty over a stale buffer: nothing else is promised. */
    method PutFat(clst: dword, val: dword) returns (res: FResult)
      requires Shape()
      modifies this`winsect, this`wflag, win, drive
      ensures |drive.sectors| == old(|drive.sectors|)
      ensures res == Ok || res == DiskErr || res == IntErr
      ensures res == IntErr <==> !IsCluster(g, clst)
      ensures res == IntErr ==> Shape() && Vol() == old(Vol()) && (old(Valid()) ==> Valid())
      ensures res == Ok ==> Shape()
      ensures IsCluster(g, clst) ==> wflag
      ensures res == Ok && old(Valid()) ==> Valid() && g.InFat(winsect) && Vol() == PutEntry(g, old(Vol()), clst, val)
      ensures res == Ok && old(Valid()) ==> Fat() == old(Fat())[clst := Cut(g, val)]
      ensures drive.reliable ==> res != DiskErr
      ensures drive.reliable && old(Mirrored()) && res != DiskErr ==> Mirrored()
    {
      hide Times, IsFsInfo, CopiesAgree, Put12, PutWord, PutDword, Cut, FatMap, Volume, Geometry.Valid;
      if clst < 2 || clst >= g.maxClust {
        return IntErr;
      }
      PutEntryMap(g, Vol(), clst, val);
      match g.fsType {
        case FAT12 => res := PutFat12(clst, val);
        case FAT16 => res := PutFat16(clst, val);
        case FAT32 => res := PutFat32(clst, val);
      }
      wflag := true;
    }

    // ----- direct transfers of file data, past the window -----

    /** Storing data sectors away from the window is storing them in the logical volume. */
    lemma DataStored(before: seq<Sector>, sector: nat, data: seq<byte>)
      requires Shape() && |data| % 512 == 0 && |before| == |drive.sectors|
      requires g.FatEnd() <= sector && sector + |data| / 512 <= |before|
      requires !(sector <= winsect < sector + |data| / 512)
      requires drive.sectors == Overwrite(before, sector, data)
      ensures Vol() == Overwrite(Volume(g, if wflag then before[winsect := win[..]] else before), sector, data)
      ensures CopiesAgree(g, before, if wflag then winsect else 0) ==> Mirrored()
    {
      hide Times, IsFsInfo, CopiesAgree;
      if CopiesAgree(g, before, if wflag then winsect else 0) {
        AgreeBelow(g, before, drive.sectors, if wflag then winsect else 0);
      }
    }

    /** disk_write of one data sector. */
    method WriteData(data: Sector, sector: nat) returns (ok: bool)
      requires Shape()
      modifies drive
      ensures Shape() && |drive.sectors| == old(|drive.sectors|)
      ensures ok && g.FatEnd() <= sector && sector != winsect ==>
                sector < |drive.sectors| && Vol() == old(Vol())[sector := data]
      ensures ok && g.FatEnd() <= sector && sector != winsect && old(Valid()) ==> Valid()
      ensures ok && g.FatEnd() <= sector && sector != winsect && old(Mirrored()) ==> Mirrored()
      ensures drive.reliable && sector < |drive.sectors| ==> ok
    {
      hide Times, IsFsInfo, CopiesAgree, Volume;
      ghost var before := drive.sectors;
      ok := drive.WriteSector(data, sector);
      if ok && g.FatEnd() <= sector && sector != winsect {
        OneSector(before, sector, data);
        OneSector(old(Vol()), sector, data);
        DataStored(before, sector, data);
      }
    }

    /** disk_write of whole data sectors in a row. */
    method WriteDataRun(data: seq<byte>, sector: nat) returns (ok: bool)
      requires Shape() && |data| % 512 == 0
      modifies drive
      ensures Shape() && |drive.sectors| == old(|drive.sectors|)
      ensures ok && g.FatEnd() <= sector && !(sector <= winsect < sector + |data| / 512) ==>
                sector + |data| / 512 <= |drive.sectors| && Vol() == Overwrite(old(Vol()), sector, data)
      ensures ok && g.FatEnd() <= sector && !(sector <= winsect < sector + |data| / 512) && old(Valid()) ==> Valid()
      ensures ok && g.FatEnd() <= sector && !(sector <= winsect < sector + |data| / 512) && old(Mirrored()) ==> Mirrored()
      ensures drive.reliable && sector + |data| / 512 <= |drive.sectors| ==> ok
    {
      hide Times, IsFsInfo, CopiesAgree, Volume;
      ghost var before := drive.sectors;
      ok := drive.WriteRun(data, sector);
      if ok && g.FatEnd() <= sector && !(sector <= winsect < sector + |data| / 512) {
        DataStored(before, sector, data);
      }
    }

    /** disk_read of one data sector. */
    method ReadData(buff: array<byte>, sector: nat) returns (ok: bool)
      requires Shape() && buff != win && buff.Length == 512
      modifies buff
      ensures ok && g.FatEnd() <= sector && sector != winsect ==> sector < |Vol()| && buff[..] == Vol()[sector]
      ensures drive.reliable && sector < |drive.sectors| ==> ok
    {
      hide Times;
      ok := drive.ReadSector(buff, sector);
    }

    /** disk_read of data sectors in a row, into a caller's buffer. */
    method ReadDataRun(buff: array<byte>, at: nat, sector: nat, count: nat) returns (ok: bool)
      requires Shape() && buff != win && at + 512 * count <= buff.Length
      modifies buff
      ensures ok && g.FatEnd() <= sector && !(sector <= winsect < sector + count) ==>
                sector + count <= |Vol()|
                && buff[..] == Splice(old(buff[..]), at, Run(Vol(), sector, count))
      ensures !ok ==> buff[..at] == old(buff[..])[..at] && buff[at + 512 * count..] == old(buff[..])[at + 512 * count..]
      ensures drive.reliable && sector + count <= |drive.sectors| ==> ok
    {
      hide Times, Run, Splice;
      ok := drive.ReadRun(buff, at, sector, count);
      if ok && g.FatEnd() <= sector && !(sector <= winsect < sector + count) {
        RunAgree(drive.sectors, Vol(), sector, count);
      }
    }
  }

  lemma OneSector(v: seq<Sector>, sector: nat, data: Sector)
    requires sector < |v|
    ensures Overwrite(v, sector, data) == v[sector := data]
  {
    assert data[0..512] == data;
  }

  lemma {:induction false} RunAgree(v: seq<Sector>, w: seq<Sector>, sector: nat, count: nat)
    requires sector + count <= |v| && sector + count <= |w|
    requires forall s :: sector <= s < sector + count ==> v[s] == w[s]
    ensures Run(v, sector, count) == Run(w, sector, count)
  {
    if count > 0 {
      RunAgree(v, w, sector, count - 1);
    }
  }

  /** ST_WORD into a buffer. */
  method StWordAt(buff: array<byte>, i: nat, v: word)
    requires i + 1 < buff.Length
    modifies buff
    ensures buff[..] == StWord(old(buff[..]), i, v)
  {
    buff[i] := v % 0x100;
    buff[i + 1] := v / 0x100;
  }

  /** ST_DWORD into a buffer. */
  method StDwordAt(buff: array<byte>, i: nat, v: dword)
    requires i + 3 < buff.Length
    modifies buff
    ensures buff[..] == StDword(old(buff[..]), i, v)
  {
    StWordAt(buff, i, v % 0x1_0000);
    StWordAt(buff, i + 2, v / 0x1_0000);
  }

  lemma Below12(c: nat, lo: byte, hi: byte)
    ensures Unpack12(c, lo, hi) < 0x1000
  {
  }

  lemma RawFits(g: Geometry, v: seq<Sector>, c: nat)
    requires Fits(g, v) && c < g.maxClust
    ensures g.fsType == FAT12 || g.fsType == FAT16 ==> Raw(g, v, c) == FatMap(g, v)[c]
    ensures g.fsType == FAT32 ==> Raw(g, v, c) % 0x1000_0000 == FatMap(g, v)[c]
  {
    hide Times, FatByte, Unpack12, FatMap;
    FatMapAt(g, v, c);
    if g.fsType == FAT12 {
      Below12(c, FatByte(g, v, c + c / 2), FatByte(g, v, c + c / 2 + 1));
    }
  }

  lemma Shift512(k: nat, m: nat)
    ensures (512 * k + m) / 512 == k + m / 512 && (512 * k + m) % 512 == m % 512
  {
  }

  /** The FAT16 branches: the sector of entry c in the FAT, and its offset, computed in 16 bits. */
  function Sector16(c: dword): nat {
    c / 256
  }

  function Offset16(c: dword): nat {
    c % 0x1_0000 * 2 % 512
  }

  /** The FAT32 branches; the offset is computed from the low half of the cluster number. */
  function Sector32(c: dword): nat {
    c / 128
  }

  function Offset32(c: dword): nat {
    c % 0x1_0000 * 4 % 512
  }

  /** The 16-bit arithmetic of the FAT16 branch still addresses entry c. */
  lemma Index16(c: dword)
    ensures Sector16(c) == 2 * c / 512 && Offset16(c) == 2 * c % 512
  {
    Shift512(c / 0x1_0000 * 256, c % 0x1_0000 * 2);
    Shift512(c / 256, c % 256 * 2);
  }

  /** Dropping the high half of a FAT32 cluster number before scaling is harmless: 65536 * 4 is whole sectors. */
  lemma Index32(c: dword)
    ensures Sector32(c) == 4 * c / 512 && Offset32(c) == 4 * c % 512
  {
    Shift512(c / 0x1_0000 * 512, c % 0x1_0000 * 4);
    Shift512(c / 128, c % 128 * 4);
  }

  /** Loading and storing there is loading and storing the entry in the volume. */
  lemma Entry16(g: Geometry, v: seq<Sector>, c: dword, x: word)
    requires g.Valid() && Fits(g, v) && IsCluster(g, c) && g.fsType == FAT16
    ensures Sector16(c) < g.sectsFat && Offset16(c) <= 510
    ensures var s := g.fatbase + Sector16(c); g.InFat(s) && g.Live(s) && 0 < s < |v|
    ensures var s := g.fatbase + Sector16(c);
            && LdWord(v[s], Offset16(c)) == Raw(g, v, c)
            && v[s := StWord(v[s], Offset16(c), x)] == PutWord(g, v, 2 * c, x)
  {
    hide Times, FatByte, LdWord, StWord, Join, PutWord, Sector16, Offset16;
    Index16(c);
    LoadWord(g, v, 2 * c);
    StoreWord(g, v, 2 * c, x);
  }

  lemma Entry32(g: Geometry, v: seq<Sector>, c: dword, x: dword)
    requires g.Valid() && Fits(g, v) && IsCluster(g, c) && g.fsType == FAT32
    ensures Sector32(c) < g.sectsFat && Offset32(c) <= 508
    ensures var s := g.fatbase + Sector32(c); g.InFat(s) && g.Live(s) && 0 < s < |v|
    ensures var s := g.fatbase + Sector32(c);
            && LdDword(v[s], Offset32(c)) == Raw(g, v, c)
            && v[s := StDword(v[s], Offset32(c), x)] == PutDword(g, v, 4 * c, x)
  {
    hide Times, FatByte, LdDword, StDword, Join, PutDword, Sector32, Offset32;
    Index32(c);
    LoadDword(g, v, 4 * c);
    StoreDword(g, v, 4 * c, x);
  }
}
