/** Cluster allocation on the FATFS object: release, allocation and the free-cluster count. */
module Allocation {
  import opened Words
  import opened Layout
  import opened Codec
  import opened Disk
  import opened Chains
  import opened FileSystem

  /** The value stored to close a chain. */
  const END_OF_CHAIN: dword := 0x0FFF_FFFF

  /** Cut to 12, 16 or 28 bits, the end mark is still beyond every cluster number. */
  lemma EndMark(g: Geometry)
    requires g.Valid()
    ensures Cut(g, END_OF_CHAIN) >= g.maxClust
    ensures Cut(g, END_OF_CHAIN) == if g.fsType == FAT12 then 0xFFF else if g.fsType == FAT16 then 0xFFFF else 0x0FFF_FFFF
    ensures forall c: dword :: c < g.maxClust ==> Cut(g, c) == c
  {
    hide Times;
  }

  /** The remembered number of free clusters is the real one. */
  ghost predicate CountRight(fs: FatFs)
    requires fs.Shape()
    reads fs`winsect, fs`wflag, fs`freeClust, fs.win, fs.drive
  {
    fs.freeClust == FreeCount(fs.Fat())
  }

  /** A right count is still right, an unknown one still unknown. */
  twostate predicate CountKept(fs: FatFs)
    requires old(fs.Shape()) && fs.Shape()
    reads fs`winsect, fs`wflag, fs`freeClust, fs.win, fs.drive
  {
    && (old(CountRight(fs)) ==> CountRight(fs))
    && (old(fs.freeClust) == 0xFFFF_FFFF ==> fs.freeClust == 0xFFFF_FFFF)
  }

  lemma CountUp(free: dword, n: nat)
    requires n < UNKNOWN
    ensures free == n ==> (free + 1) % 0x1_0000_0000 == n + 1
  {
  }

  /**
    What every call keeps of the volume's bookkeeping: the agreement of the FAT copies, the count, and that
    FSInfo on the disk has the hints unless they are marked changed.
   */
  twostate predicate Upkeep(fs: FatFs)
    requires old(fs.Shape()) && fs.Shape()
    reads fs`winsect, fs`wflag, fs`fsiFlag, fs`lastClust, fs`freeClust, fs.win, fs.drive
  {
    (old(fs.Mirrored()) ==> fs.Mirrored()) && CountKept(fs) && (old(fs.Hinted()) ==> fs.Hinted())
  }

  /** The hint law: hints that are not marked changed are on the disk. */
  lemma HintsOnDisk(fs: FatFs)
    requires fs.Hinted() && (fs.g.fsType == FAT32 ==> !fs.fsiFlag)
    ensures fs.CountOnDisk()
  {
    hide LdWord, LdDword;
  }

  /** The step of remove_chain that marks one cluster empty and counts it. */
  method MarkEmpty(fs: FatFs, clst: dword) returns (res: FResult)
    requires fs.Valid() && IsCluster(fs.g, clst)
    modifies fs`winsect, fs`wflag, fs`fsiFlag, fs`freeClust, fs.win, fs.drive
    ensures |fs.drive.sectors| == old(|fs.drive.sectors|)
    ensures res == Ok || res == DiskErr
    ensures res == Ok ==> fs.Valid() && fs.g.InFat(fs.winsect)
    ensures res == Ok ==> SameOutsideFat(fs.g, old(fs.Vol()), fs.Vol())
    ensures res == Ok ==> fs.Fat() == old(fs.Fat())[clst := 0]
    ensures res == Ok && old(fs.Fat())[clst] != 0 ==> CountKept(fs)
    ensures fs.drive.reliable ==> res == Ok
    ensures res == Ok && fs.drive.reliable && old(fs.Mirrored()) ==> fs.Mirrored()
  {
    hide FatMap, PutEntry, Cut, FreeCount, Fits, FatFs.Mirrored, IsFsInfo, Volume, FatFs.Shape, FatFs.Vol, FatFs.Fat;
    PutEntrySameOutside(fs.g, fs.Vol(), clst, 0);
    CutZero(fs.g);
    FreeCountUpdate(fs.Fat(), clst, 0);
    CountUp(fs.freeClust, FreeCount(fs.Fat()));
    res := fs.PutFat(clst, 0);
    if res == Ok {
      if fs.freeClust != UNKNOWN {
        fs.freeClust := (fs.freeClust + 1) % 0x1_0000_0000;
        fs.fsiFlag := true;
      }
    }
  }

  /** remove_chain: it terminates on every table because each pass clears a non-zero entry. */
  method RemoveChain(fs: FatFs, first: dword) returns (res: FResult)
    requires fs.Valid()
    modifies fs`winsect, fs`wflag, fs`fsiFlag, fs`freeClust, fs.win, fs.drive
    ensures |fs.drive.sectors| == old(|fs.drive.sectors|)
    ensures res == Ok || res == DiskErr || res == IntErr
    ensures !IsCluster(fs.g, first) ==> res == IntErr
    ensures res != DiskErr ==> fs.Valid() && SameOutsideFat(fs.g, old(fs.Vol()), fs.Vol())
    ensures res != DiskErr && !IsCluster(fs.g, first) ==> fs.Vol() == old(fs.Vol()) && fs.winsect == old(fs.winsect)
    ensures res != DiskErr && IsCluster(fs.g, first) ==>
              (fs.Fat(), res == Ok) == Released(old(fs.Fat()), first) && fs.g.InFat(fs.winsect)
    ensures res != DiskErr ==> CountKept(fs)
    ensures fs.drive.reliable ==> res != DiskErr
    ensures fs.drive.reliable && old(fs.Mirrored()) ==> fs.Mirrored()
  {
    hide FatMap, Fits, FreeCount, NonZero, FatFs.Mirrored, FatFs.Valid, FatFs.Shape, FatFs.Vol, FatFs.Fat;
    var clst: dword := first;
    if clst < 2 || clst >= fs.g.maxClust {
      return IntErr;
    }
    res := Ok;
    while clst < fs.g.maxClust
      invariant |fs.drive.sectors| == old(|fs.drive.sectors|)
      invariant fs.Valid() && clst >= 2 && res == Ok
      invariant SameOutsideFat(fs.g, old(fs.Vol()), fs.Vol())
      invariant Released(fs.Fat(), clst) == Released(old(fs.Fat()), first)
      invariant clst == first || fs.g.InFat(fs.winsect)
      invariant CountKept(fs)
      invariant fs.drive.reliable && old(fs.Mirrored()) ==> fs.Mirrored()
      decreases NonZero(fs.Fat())
    {
      NonZeroUpdate(fs.Fat(), clst, 0);
      var nxt := fs.GetFat(clst);
      if nxt == 0 {
        break;
      }
      if nxt == 1 {
        res := IntErr;
        break;
      }
      if nxt == DISK_ERROR {
        res := DiskErr;
        break;
      }
      res := MarkEmpty(fs, clst);
      if res != Ok {
        break;
      }
      clst := nxt;
    }
  }

  lemma CutZero(g: Geometry)
    ensures Cut(g, 0) == 0
  {
  }

  /** Where the cyclic search of create_chain starts. */
  function StartPoint(fs: FatFs, clst: dword): dword
    reads fs`lastClust
  {
    if clst != 0 then clst
    else if fs.lastClust == 0 || fs.lastClust >= fs.g.maxClust then 1
    else fs.lastClust
  }

  /** Some entry in use holds 1, a value no healthy table has. */
  ghost predicate HasBadEntry(fat: seq<dword>) {
    exists d :: 2 <= d < |fat| && fat[d] == 1
  }

  ghost predicate AllUsed(fat: seq<dword>) {
    forall d :: 2 <= d < |fat| ==> fat[d] >= 2
  }

  /** How far the search has got: nothing is examined while ncl is still the start point. */
  function Examined(m: nat, scl: nat, ncl: nat): int {
    if ncl == scl then 0 else Rank(m, scl, ncl)
  }

  /** Every cluster up to ncl in search order is in use. */
  ghost predicate Seen(fat: seq<dword>, scl: nat, ncl: nat) {
    forall d :: 2 <= d < |fat| && Rank(|fat|, scl, d) <= Examined(|fat|, scl, ncl) ==> fat[d] >= 2
  }

  /** The next candidate, wrapped around. */
  function Next(m: nat, ncl: nat): nat {
    if ncl + 1 >= m then 2 else ncl + 1
  }

  lemma SeenStart(fat: seq<dword>, scl: nat)
    requires 1 <= scl < |fat|
    ensures Seen(fat, scl, scl)
  {
  }

  lemma SeenNext(fat: seq<dword>, scl: nat, ncl: nat)
    requires 1 <= scl < |fat| && (ncl == scl || 2 <= ncl < |fat|)
    requires Seen(fat, scl, ncl)
    ensures var n := Next(|fat|, ncl);
            && (n > scl && ncl + 1 >= |fat| ==> AllUsed(fat))
            && (2 <= n < |fat| && !(n > scl && ncl + 1 >= |fat|) ==>
              && Examined(|fat|, scl, ncl) < Rank(|fat|, scl, n)
              && (fat[n] == 0 ==> FirstFree(fat, scl, n))
              && (fat[n] >= 2 && n == scl ==> AllUsed(fat))
              && (fat[n] >= 2 && n != scl ==> Seen(fat, scl, n)))
  {
  }

  /** The cyclic search loop of create_chain: 0 when every entry is used, 1 on a bad entry. */
  method SearchFree(fs: FatFs, scl: dword) returns (r: dword)
    requires fs.Shape() && 1 <= scl < fs.g.maxClust
    modifies fs`winsect, fs`wflag, fs.win, fs.drive
    ensures fs.Shape() && fs.Vol() == old(fs.Vol())
    ensures |fs.drive.sectors| == old(|fs.drive.sectors|)
    ensures r != DISK_ERROR && r != 1 && r != 0 ==> IsCluster(fs.g, r)
    ensures fs.drive.reliable ==> r != DISK_ERROR
    ensures fs.drive.reliable && old(fs.Mirrored()) ==> fs.Mirrored()
    ensures fs.drive.reliable && old(fs.Valid()) ==> fs.Valid() && (fs.winsect == old(fs.winsect) || fs.g.InFat(fs.winsect))
    ensures fs.drive.reliable && old(fs.Valid()) && r == 0 ==> AllUsed(fs.Fat())
    ensures fs.drive.reliable && old(fs.Valid()) && r == 1 ==> HasBadEntry(fs.Fat())
    ensures fs.drive.reliable && old(fs.Valid()) && r >= 2 ==> FirstFree(fs.Fat(), scl, r)
  {
    hide FatMap, Fits, Seen, AllUsed, FirstFree, HasBadEntry;
    hide FatFs.Mirrored, FatFs.Valid, FatFs.Shape, FatFs.Vol, FatFs.Fat;
    ghost var fat := fs.Fat();
    ghost var good := fs.drive.reliable && fs.Valid();
    var mcl := fs.g.maxClust;
    var ncl: dword := scl;
    SeenStart(fat, scl);
    while true
      invariant fs.Shape() && fs.Vol() == old(fs.Vol())
      invariant |fs.drive.sectors| == old(|fs.drive.sectors|)
      invariant fs.drive.reliable && old(fs.Mirrored()) ==> fs.Mirrored()
      invariant good ==> fs.Valid() && (fs.winsect == old(fs.winsect) || fs.g.InFat(fs.winsect))
      invariant ncl == scl || (2 <= ncl < mcl)
      invariant good ==> Seen(fat, scl, ncl)
      decreases mcl - Examined(mcl, scl, ncl)
    {
      if good {
        SeenNext(fat, scl, ncl);
      }
      ncl := ncl + 1;
      if ncl >= mcl {
        ncl := 2;
        if ncl > scl {
          return 0;
        }
      }
      var cs := fs.GetFat(ncl);
      if cs == 0 {
        return ncl;
      }
      if cs == DISK_ERROR || cs == 1 {
        BadEntry(fat, ncl);
        return cs;
      }
      if ncl == scl {
        return 0;
      }
    }
  }

  lemma BadEntry(fat: seq<dword>, d: nat)
    requires 2 <= d < |fat|
    ensures fat[d] == 1 ==> HasBadEntry(fat)
  {
  }

  ghost predicate Takeable(fat: seq<dword>, clst: nat, ncl: nat)
    requires ncl < |fat| && clst < |fat|
  {
    fat[ncl] == 0 && (clst == 0 || fat[clst] != 0)
  }

  lemma FirstIsTakeable(fat: seq<dword>, scl: nat, clst: nat, ncl: nat)
    requires ncl < |fat| && clst < |fat|
    ensures FirstFree(fat, scl, ncl) && (clst == 0 || fat[clst] != 0) ==> Takeable(fat, clst, ncl)
  {
  }

  /**
    The outcomes of create_chain, r, on a drive without failures: 1 for an invalid cluster or a bad
    entry, the successor when clst is already followed, 0 for a full volume, else the first free
    cluster in cyclic order, closed and linked.
   */
  ghost predicate Created(fat: seq<dword>, clst: nat, scl: nat, eoc: dword, fat': seq<dword>, r: dword)
    requires |fat| <= 0x1_0000_0000
  {
    if clst != 0 && (clst == 1 || clst >= |fat| || fat[clst] < 2) then r == 1 && fat' == fat
    else if clst != 0 && fat[clst] < |fat| then r == fat[clst] && fat' == fat
    else if r == 0 then AllUsed(fat) && fat' == fat
    else if r == 1 then HasBadEntry(fat) && fat' == fat
    else FirstFree(fat, scl, r) && fat' == Linked(fat, clst, r, eoc)
  }

  /** Taking a free cluster lowers the number of free clusters by one. */
  lemma LinkedCount(fat: seq<dword>, clst: nat, ncl: dword, eoc: dword)
    requires 2 <= ncl < |fat| && eoc >= |fat| && (clst == 0 || 2 <= clst < |fat|)
    ensures Takeable(fat, clst, ncl) ==>
              FreeCount(Linked(fat, clst, ncl, eoc)) + 1 == FreeCount(fat)
  {
    FreeCountUpdate(fat, ncl, eoc);
    if clst != 0 {
      FreeCountUpdate(fat[ncl := eoc], clst, ncl);
    }
  }

  /** The two stores of create_chain: close the new cluster, then link the old end to it. */
  method LinkEntries(fs: FatFs, clst: dword, ncl: dword) returns (ok: bool)
    requires fs.Shape() && IsCluster(fs.g, ncl)
    requires clst == 0 || IsCluster(fs.g, clst)
    modifies fs`winsect, fs`wflag, fs.win, fs.drive
    ensures |fs.drive.sectors| == old(|fs.drive.sectors|)
    ensures ok ==> fs.Shape()
    ensures fs.drive.reliable ==> ok
    ensures fs.drive.reliable && old(fs.Valid()) ==>
              fs.Valid() && fs.g.InFat(fs.winsect) && SameOutsideFat(fs.g, old(fs.Vol()), fs.Vol())
    ensures fs.drive.reliable && old(fs.Valid()) ==>
              fs.Fat() == Linked(old(fs.Fat()), clst, ncl, Cut(fs.g, END_OF_CHAIN))
    ensures fs.drive.reliable && old(fs.Mirrored()) ==> fs.Mirrored()
  {
    hide FatMap, PutEntry, Cut, Fits, FreeCount, FatFs.Mirrored, FatFs.Valid, FatFs.Shape, FatFs.Vol, FatFs.Fat;
    EndMark(fs.g);
    PutEntrySameOutside(fs.g, fs.Vol(), ncl, END_OF_CHAIN);
    var res := fs.PutFat(ncl, END_OF_CHAIN);
    if res != Ok {
      return false;
    }
    if clst != 0 {
      PutEntrySameOutside(fs.g, fs.Vol(), clst, ncl);
      res := fs.PutFat(clst, ncl);
      if res != Ok {
        return false;
      }
    }
    return true;
  }

  lemma CountDown(free: dword, n: nat)
    requires n < UNKNOWN
    ensures free == n && n > 0 ==> (free - 1) % 0x1_0000_0000 == n - 1
  {
  }

  /** The hints updated by create_chain. */
  method NoteAllocation(fs: FatFs, ncl: dword)
    modifies fs`fsiFlag, fs`freeClust, fs`lastClust
    ensures fs.lastClust == ncl
    ensures fs.freeClust == if old(fs.freeClust) == UNKNOWN then UNKNOWN else (old(fs.freeClust) - 1) % 0x1_0000_0000
    ensures fs.fsiFlag == (old(fs.fsiFlag) || old(fs.freeClust) != UNKNOWN)
  {
    fs.lastClust := ncl;
    if fs.freeClust != UNKNOWN {
      fs.freeClust := (fs.freeClust - 1) % 0x1_0000_0000;
      fs.fsiFlag := true;
    }
  }

  /** The part of create_chain behind the search. */
  method LinkCluster(fs: FatFs, clst: dword, ncl: dword) returns (r: dword)
    requires fs.Shape() && IsCluster(fs.g, ncl)
    requires clst == 0 || IsCluster(fs.g, clst)
    modifies fs`winsect, fs`wflag, fs`fsiFlag, fs`freeClust, fs`lastClust, fs.win, fs.drive
    ensures |fs.drive.sectors| == old(|fs.drive.sectors|)
    ensures r == DISK_ERROR || (r == ncl && fs.Shape())
    ensures fs.drive.reliable ==> r == ncl && fs.Shape()
    ensures fs.drive.reliable && old(fs.Valid()) ==>
              fs.Valid() && fs.g.InFat(fs.winsect) && SameOutsideFat(fs.g, old(fs.Vol()), fs.Vol())
    ensures fs.drive.reliable && old(fs.Valid()) ==>
              fs.Fat() == Linked(old(fs.Fat()), clst, ncl, Cut(fs.g, END_OF_CHAIN)) && fs.lastClust == ncl
    ensures fs.drive.reliable && old(fs.Valid()) && Takeable(old(fs.Fat()), clst, ncl) ==> CountKept(fs)
    ensures fs.drive.reliable && old(fs.Mirrored()) ==> fs.Mirrored()
  {
    hide FatMap, PutEntry, Cut, Fits, FreeCount, Linked, SameOutsideFat;
    hide FatFs.Mirrored, IsFsInfo, Volume, FatFs.Shape, FatFs.Vol, FatFs.Fat;
    EndMark(fs.g);
    LinkedCount(fs.Fat(), clst, ncl, Cut(fs.g, END_OF_CHAIN));
    CountDown(fs.freeClust, FreeCount(fs.Fat()));
    var ok := LinkEntries(fs, clst, ncl);
    if !ok {
      return DISK_ERROR;
    }
    NoteAllocation(fs, ncl);
    return ncl;
  }

  /** create_chain: stretch the chain that ends in clst, or start a chain when clst is 0. */
  method CreateChain(fs: FatFs, clst: dword) returns (r: dword)
    requires fs.Shape()
    modifies fs`winsect, fs`wflag, fs`fsiFlag, fs`freeClust, fs`lastClust, fs.win, fs.drive
    ensures |fs.drive.sectors| == old(|fs.drive.sectors|)
    ensures r != DISK_ERROR ==> fs.Shape()
    ensures r == DISK_ERROR || r <= 1 || IsCluster(fs.g, r)
    ensures fs.drive.reliable ==> r != DISK_ERROR
    ensures fs.drive.reliable && old(fs.Valid()) ==> fs.Valid() && SameOutsideFat(fs.g, old(fs.Vol()), fs.Vol())
    ensures fs.drive.reliable && old(fs.Valid()) ==>
              Created(old(fs.Fat()), clst, old(StartPoint(fs, clst)), Cut(fs.g, END_OF_CHAIN), fs.Fat(), r)
    ensures fs.drive.reliable && old(fs.Valid()) && clst == 0 && r >= 2 ==>
              FirstFree(old(fs.Fat()), if 1 <= old(fs.lastClust) < fs.g.maxClust then old(fs.lastClust) else 1, r)
    ensures fs.drive.reliable && old(fs.Valid()) && clst == 0 && r >= 2 ==> fs.lastClust == r
    ensures fs.drive.reliable && old(fs.Valid()) && r >= 2 && IsCluster(fs.g, clst) && old(fs.Fat())[clst] >= fs.g.maxClust ==>
              FirstFree(old(fs.Fat()), clst, r) && fs.lastClust == r
    ensures r <= 1 ==> fs.lastClust == old(fs.lastClust)
    ensures fs.drive.reliable && old(fs.Valid()) && r >= 2 ==> fs.g.InFat(fs.winsect)
    ensures fs.drive.reliable && old(fs.Valid()) ==> fs.winsect == old(fs.winsect) || fs.g.InFat(fs.winsect)
    ensures fs.drive.reliable && old(fs.Valid()) ==> CountKept(fs)
    ensures fs.drive.reliable && old(fs.Mirrored()) ==> fs.Mirrored()
  {
    hide FatMap, Cut, Fits, FreeCount, Linked, FirstFree, AllUsed, HasBadEntry;
    hide FatFs.Mirrored, FatFs.Valid, FatFs.Shape, FatFs.Vol, FatFs.Fat;
    var scl: dword;
    if clst == 0 {
      scl := fs.lastClust;
      if scl == 0 || scl >= fs.g.maxClust {
        scl := 1;
      }
    } else {
      var cs := fs.GetFat(clst);
      if cs < 2 {
        return 1;
      }
      if cs < fs.g.maxClust {
        return cs;
      }
      scl := clst;
    }
    r := SearchFree(fs, scl);
    if r == 0 || r == 1 || r == DISK_ERROR {
      return;
    }
    FirstIsTakeable(fs.Fat(), scl, clst, r);
    r := LinkCluster(fs, clst, r);
  }

  /** Closing a cluster that was in use does not change the number of free ones. */
  lemma CloseCount(fat: seq<dword>, c: nat, eoc: dword)
    requires 2 <= c < |fat| && eoc >= |fat|
    ensures fat[c] != 0 ==> FreeCount(fat[c := eoc]) == FreeCount(fat)
  {
    FreeCountUpdate(fat, c, eoc);
  }

  /** The cut of f_truncate behind cluster clst: close it and release what follows it. */
  method CloseAndRelease(fs: FatFs, clst: dword) returns (res: FResult)
    requires fs.Valid() && IsCluster(fs.g, clst)
    modifies fs`winsect, fs`wflag, fs`fsiFlag, fs`freeClust, fs.win, fs.drive
    ensures |fs.drive.sectors| == old(|fs.drive.sectors|)
    ensures res == Ok || res == DiskErr || res == IntErr
    ensures fs.drive.reliable ==> res != DiskErr
    ensures res != DiskErr ==> fs.Valid() && SameOutsideFat(fs.g, old(fs.Vol()), fs.Vol())
    ensures res != DiskErr ==> fs.winsect == old(fs.winsect) || fs.g.InFat(fs.winsect)
    ensures res != DiskErr && old(fs.Fat())[clst] == 1 ==> res == IntErr && fs.Vol() == old(fs.Vol())
    ensures res != DiskErr && old(fs.Fat())[clst] == 0 ==>
              res == IntErr && fs.Fat() == old(fs.Fat())[clst := Cut(fs.g, END_OF_CHAIN)]
    ensures res != DiskErr && old(fs.Fat())[clst] >= fs.g.maxClust ==> res == Ok && fs.Fat() == old(fs.Fat())
    ensures res != DiskErr && 2 <= old(fs.Fat())[clst] < fs.g.maxClust ==>
              (fs.Fat(), res == Ok)
              == Released(old(fs.Fat())[clst := Cut(fs.g, END_OF_CHAIN)], old(fs.Fat())[clst])
    ensures res == Ok ==> CountKept(fs)
    ensures fs.drive.reliable && old(fs.Mirrored()) && res != DiskErr ==> fs.Mirrored()
  {
    hide FatMap, PutEntry, Cut, FreeCount, Released;
    hide FatFs.Mirrored, FatFs.Valid, FatFs.Shape, FatFs.Vol, FatFs.Fat;
    EndMark(fs.g);
    CloseCount(fs.Fat(), clst, Cut(fs.g, END_OF_CHAIN));
    PutEntrySameOutside(fs.g, fs.Vol(), clst, END_OF_CHAIN);
    var ncl := fs.GetFat(clst);
    res := Ok;
    if ncl == DISK_ERROR {
      res := DiskErr;
    }
    if ncl == 1 {
      res := IntErr;
    }
    if res == Ok && ncl < fs.g.maxClust {
      res := fs.PutFat(clst, END_OF_CHAIN);
      if res == Ok {
        res := RemoveChain(fs, ncl);
      }
    }
  }
}
