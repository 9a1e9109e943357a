/** The directory object DIR: random seek, sequential walk, search, registration and removal. */
module Directories {
  import opened Words
  import opened Layout
  import opened Codec
  import opened Disk
  import opened Mirror
  import opened Chains
  import opened Entries
  import opened FileSystem
  import opened Allocation
  import opened FileData
  import opened Listings
  import opened DirTables

  function BlankIf(x: Sector, on: bool): Sector {
    if on then Words.Blank() else x
  }

  /** v with n sectors from s on blanked. */
  ghost function Zeroed(v: seq<Sector>, s: nat, n: nat): (w: seq<Sector>)
    ensures |w| == |v|
    ensures forall i :: 0 <= i < |v| ==> w[i] == if s <= i < s + n then Words.Blank() else v[i]
  {
    seq(|v|, i requires 0 <= i < |v| => BlankIf(v[i], s <= i < s + n))
  }

  lemma ZeroedNext(v: seq<Sector>, s: nat, n: nat)
    requires s + n < |v|
    ensures Zeroed(v, s, n + 1) == Zeroed(v, s, n)[s + n := Words.Blank()]
    ensures Zeroed(v, s, 0) == v
  {
  }

  lemma BlankIs(b: seq<byte>)
    requires |b| == 512 && forall i :: 0 <= i < 512 ==> b[i] == 0
    ensures b == Words.Blank()
  {
  }

  /** The window as dir_next steers it over a new cluster: clean, zeroed, and not yet on a valid sector. */
  ghost predicate Cleaning(fs: FatFs, v: seq<Sector>, from: nat, c: nat)
    reads fs`winsect, fs`wflag, fs.win, fs.drive
    ensures Cleaning(fs, v, from, c) ==>
              fs.win.Length == 512 && fs.winsect == from + c && |fs.drive.sectors| == |v|
              && fs.g.Valid() && fs.g.FatEnd() <= End(fs.g) <= |v|
  {
    && fs.win.Length == 512 && fs.win[..] == Words.Blank()
    && Fits(fs.g, fs.drive.sectors) && |fs.drive.sectors| == |v|
    && !fs.wflag && fs.winsect == from + c
    && Volume(fs.g, fs.drive.sectors) == Zeroed(v, from, c)
  }

  /** One pass of the loop that fills the new cluster with zeros. */
  method CleanSector(fs: FatFs, ghost v: seq<Sector>, ghost from: nat, ghost c: nat) returns (res: FResult)
    requires Cleaning(fs, v, from, c)
    requires from + c < |v| && fs.g.FatEnd() <= from && fs.g.Live(from + c) && !fs.g.InFat(from + c)
    modifies fs`winsect, fs`wflag, fs.win, fs.drive
    ensures res == Ok || res == DiskErr
    ensures res == Ok ==> Cleaning(fs, v, from, c + 1)
    ensures old(fs.Hinted()) ==> fs.Hinted()
    ensures res != Ok ==> fs.Shape() && |fs.drive.sectors| == old(|fs.drive.sectors|)
    ensures fs.drive.reliable ==> res == Ok
    ensures res == Ok && fs.drive.reliable && old(CopiesAgree(fs.g, fs.drive.sectors, 0)) ==>
              CopiesAgree(fs.g, fs.drive.sectors, 0)
  {
    hide Times, CopiesAgree, FatMap, Volume, Zeroed, IsFsInfo;
    fs.wflag := true;
    VolumeUpdate(fs.g, fs.drive.sectors, fs.winsect, fs.win[..]);
    ZeroedNext(v, from, c);
    DirtyOutside(fs.g, fs.drive.sectors, from + c);
    res := fs.MoveWindow(0);
    if res == Ok {
      fs.winsect := fs.winsect + 1;
    }
  }

  /** The clean-up of a stretched table: the new cluster is zeroed sector by sector through the window. */
  method CleanCluster(fs: FatFs, clst: dword) returns (res: FResult)
    requires fs.Shape() && IsCluster(fs.g, clst)
    modifies fs`winsect, fs`wflag, fs.win, fs.drive
    ensures fs.Shape() && |fs.drive.sectors| == old(|fs.drive.sectors|)
    ensures res == Ok || res == DiskErr
    ensures fs.drive.reliable ==> res == Ok
    ensures res == Ok ==> (old(fs.Hinted()) ==> fs.Valid()) && fs.winsect == Clust2Sect(fs.g, clst)
    ensures res == Ok ==> fs.Vol() == Zeroed(old(fs.Vol()), First(fs.g, clst), fs.g.csize)
    ensures res == Ok && fs.drive.reliable && old(fs.Mirrored()) ==> fs.Mirrored()
  {
    hide Times, CopiesAgree, FatMap, Volume, Zeroed, IsFsInfo, Clust2Sect, Cleaning, First;
    ghost var v, from := fs.Vol(), First(fs.g, clst);
    ClusterSectors(fs.g, clst);
    ClusterPlace(fs.g, clst);
    res := fs.MoveWindow(0);
    if res != Ok {
      return;
    }
    ghost var mirrored := CopiesAgree(fs.g, fs.drive.sectors, 0);
    MemSet(fs.win, 0, 0, 512);
    fs.winsect := Clust2Sect(fs.g, clst);
    CleaningStarts(fs, v, from);
    var c := 0;
    while c < fs.g.csize
      invariant 0 <= c <= fs.g.csize && res == Ok
      invariant Cleaning(fs, v, from, c) && (old(fs.Hinted()) ==> fs.Hinted())
      invariant fs.drive.reliable && mirrored ==> CopiesAgree(fs.g, fs.drive.sectors, 0)
      invariant |fs.drive.sectors| == |v|
    {
      ClusterSector(fs.g, clst, c);
      res := CleanSector(fs, v, from, c);
      if res != Ok {
        return DiskErr;
      }
      c := c + 1;
    }
    CleaningEnds(fs, v, from, c);
    fs.winsect := fs.winsect - c;
  }

  lemma ClusterPlace(g: Geometry, c: dword)
    requires g.Valid() && IsCluster(g, c)
    ensures g.FatEnd() <= First(g, c) && First(g, c) + g.csize <= End(g)
    ensures g.Live(First(g, c)) && !g.InFat(First(g, c)) && First(g, c) > 0
  {
    ClusterSectors(g, c);
    hide Times;
  }

  lemma ClusterSector(g: Geometry, c: dword, i: nat)
    requires g.Valid() && IsCluster(g, c) && i < g.csize
    ensures g.Live(First(g, c) + i) && !g.InFat(First(g, c) + i) && First(g, c) + i < End(g)
  {
    ClusterPlace(g, c);
    hide Times, First;
  }

  lemma CleaningStarts(fs: FatFs, v: seq<Sector>, from: nat)
    requires fs.win.Length == 512 && forall i :: 0 <= i < 512 ==> fs.win[i] == 0
    requires Fits(fs.g, fs.drive.sectors) && !fs.wflag && fs.winsect == from
    requires Volume(fs.g, fs.drive.sectors) == v
    ensures Cleaning(fs, v, from, 0)
  {
    hide Volume, Fits;
    BlankIs(fs.win[..]);
    assert Zeroed(v, from, 0) == v;
  }

  lemma CleaningEnds(fs: FatFs, v: seq<Sector>, from: nat, c: nat)
    requires Cleaning(fs, v, from, c) && c > 0
    ensures fs.winsect == from + c && fs.win.Length == 512 && !fs.wflag && Fits(fs.g, fs.drive.sectors)
    ensures fs.win[..] == Words.Blank()
    ensures Volume(fs.g, fs.drive.sectors) == Zeroed(v, from, c)
    ensures from < |v| && fs.g.Live(from) ==> fs.drive.sectors[from] == Words.Blank()
  {
    hide Times, Fits;
    if from < |v| && fs.g.Live(from) {
      assert Volume(fs.g, fs.drive.sectors)[from] == Zeroed(v, from, c)[from];
    }
  }

  /** The chain was lengthened by the first free cluster behind its end, and the table changed by nothing else. */
  ghost predicate ChainGrew(g: Geometry, v: seq<Sector>, cs: seq<nat>, v': seq<Sector>, cs': seq<nat>)
    requires Fits(g, v) && Fits(g, v')
  {
    && cs != [] && |cs'| == |cs| + 1 && cs' == cs + [cs'[|cs|]]
    && var r := cs'[|cs|];
    && IsCluster(g, r) && cs[|cs| - 1] < g.maxClust
    && FirstFree(FatMap(g, v), cs[|cs| - 1], r)
    && FatMap(g, v') == Linked(FatMap(g, v), cs[|cs| - 1], r, Cut(g, END_OF_CHAIN))
  }

  /** One more, zeroed, cluster behind the chain; nothing else but the table changed. */
  ghost predicate TableGrew(g: Geometry, v: seq<Sector>, cs: seq<nat>, v': seq<Sector>, cs': seq<nat>)
    requires Fits(g, v) && Fits(g, v')
  {
    && ChainGrew(g, v, cs, v', cs')
    && |v'| == |v|
    && var r := cs'[|cs|];
    && (forall s :: 0 <= s < |v| && !g.InFat(s) ==>
      v'[s] == if First(g, r) <= s < First(g, r) + g.csize then Words.Blank() else v[s])
  }

  /** The window is where it was, or on nothing, on the table of clusters, or on a sector of the directory. */
  ghost predicate Windowed(g: Geometry, w: nat, w': nat, ss: seq<nat>) {
    w' == w || w' == 0 || g.InFat(w') || w' in ss
  }

  lemma FirstInTable(g: Geometry, cs: seq<nat>, c: nat)
    requires g.Valid() && Clusters(g, cs) && IsCluster(g, c) && c < 0x1_0000_0000
    ensures Clusters(g, cs + [c]) && Clust2Sect(g, c) in TableSectors(g, cs + [c])
  {
    hide Sectors, Times, Clust2Sect;
    CsizePositive(g);
    ClusterSectors(g, c);
    SectorAt(g, cs + [c], |cs|, 0);
  }

  lemma CsizePositive(g: Geometry)
    requires g.Valid()
    ensures g.csize > 0
  {
    hide Times;
  }

  /** What stretching the chain cs of a table came to; c is the new cluster. */
  ghost predicate Stretching(g: Geometry, v: seq<Sector>, start: nat, cs: seq<nat>, res: FResult, v': seq<Sector>, c: nat) {
    && Fits(g, v) && Fits(g, v')
    && match res
       case Ok => TableGrew(g, v, cs, v', cs + [c]) && TableOk(g, v', start, cs + [c])
       case Denied => AllUsed(FatMap(g, v)) && SameOutsideFat(g, v, v') && FatMap(g, v') == FatMap(g, v) && TableOk(g, v', start, cs)
       case IntErr => HasBadEntry(FatMap(g, v))
       case _ => false
  }

  /** create_chain and the clean-up, as dir_next combines them. */
  method StretchChain(fs: FatFs, clst: dword, ghost start: nat, ghost cs: seq<nat>) returns (res: FResult, c: dword)
    requires fs.Shape()
    modifies fs`winsect, fs`wflag, fs`fsiFlag, fs`freeClust, fs`lastClust, fs.win, fs.drive
    ensures |fs.drive.sectors| == old(|fs.drive.sectors|)
    ensures res == Ok || res == Denied || res == IntErr || res == DiskErr
    ensures res != DiskErr ==> fs.Shape()
    ensures old(LastOf(fs, start, cs, clst)) ==>
              res != DiskErr && fs.Valid() && Stretching(fs.g, old(fs.Vol()), start, cs, res, fs.Vol(), c)
    ensures res != DiskErr && old(LastOf(fs, start, cs, clst)) ==> Upkeep(fs)
    ensures old(LastOf(fs, start, cs, clst)) && res == Ok ==> IsCluster(fs.g, c) && fs.winsect == Clust2Sect(fs.g, c)
    ensures old(LastOf(fs, start, cs, clst)) && res == Denied ==> fs.winsect == old(fs.winsect) || fs.g.InFat(fs.winsect)
  {
    hide FatMap, Times, Sectors, Clust2Sect, IsChain, Created, Zeroed, TableOk, Cut, FreeCount, TableGrew, AllUsed, HasBadEntry;
    hide SameOutsideFat;
    hide FatFs.Mirrored, FatFs.Valid, FatFs.Shape, FatFs.Vol, FatFs.Fat;
    ghost var good := LastOf(fs, start, cs, clst);
    ghost var v, scl := fs.Vol(), StartPoint(fs, clst);
    c := CreateChain(fs, clst);
    ghost var v1 := if good then fs.Vol() else v;
    if good {
      StretchFails(fs.g, v, v1, start, cs, c, scl);
    }
    if c == 0 {
      return Denied, c;
    }
    if c == 1 {
      return IntErr, c;
    }
    if c == DISK_ERROR {
      return DiskErr, c;
    }
    res := CleanCluster(fs, c);
    if good && res == Ok {
      GrowTable(fs.g, v, v1, fs.Vol(), start, cs, c, scl);
    }
  }

  /** clst ends the chain cs of the table, on a drive without failures. */
  ghost predicate LastOf(fs: FatFs, start: nat, cs: seq<nat>, clst: dword)
    reads fs`winsect, fs`wflag, fs`fsiFlag, fs`lastClust, fs`freeClust, fs.win, fs.drive
  {
    && fs.drive.reliable && fs.Valid() && TableOk(fs.g, fs.Vol(), start, cs)
    && cs != [] && clst == cs[|cs| - 1] && IsCluster(fs.g, clst) && fs.Fat()[clst] >= fs.g.maxClust
  }

  /** The cluster-following loop of dir_seek: rem entries behind the start of cluster c. */
  method FollowTable(fs: FatFs, start: dword, idx: word, ghost cs: seq<nat>) returns (res: FResult, c: dword, rem: nat)
    requires fs.Shape()
    modifies fs`winsect, fs`wflag, fs.win, fs.drive
    ensures fs.Shape() && fs.Vol() == old(fs.Vol()) && |fs.drive.sectors| == old(|fs.drive.sectors|)
    ensures res == Ok || res == IntErr || res == DiskErr
    ensures fs.drive.reliable ==> res != DiskErr
    ensures old(Chainable(fs, start, cs)) && res != DiskErr ==>
              fs.Valid() && (res == Ok <==> idx / 16 < Times(|cs|, fs.g.csize))
    ensures old(Chainable(fs, start, cs)) && res == Ok ==>
              Clusters(fs.g, cs) && Stands(fs.g, cs, idx, c, Clust2Sect(fs.g, c) + rem / 16, 32 * (rem % 16))
    ensures old(Chainable(fs, start, cs)) && res != DiskErr ==> fs.winsect == old(fs.winsect) || fs.g.InFat(fs.winsect)
    ensures fs.drive.reliable && old(fs.Mirrored()) ==> fs.Mirrored()
  {
    hide FatMap, Times, Sectors, Clust2Sect, Stands, IsChain, Listing, NoRepeat, TableSectors;
    hide FatFs.Mirrored, FatFs.Valid, FatFs.Shape, FatFs.Vol, FatFs.Fat;
    ghost var good := Chainable(fs, start, cs);
    if good {
      TableFacts(fs.g, fs.Vol(), start, cs);
      RowOf(idx, Times(|cs|, fs.g.csize));
    }
    c, rem := start, idx;
    var ic := 16 * fs.g.csize;
    ghost var j: nat := 0;
    NoRows(fs.g.csize);
    while rem >= ic
      invariant fs.Shape() && fs.Vol() == old(fs.Vol()) && |fs.drive.sectors| == old(|fs.drive.sectors|)
      invariant good ==> fs.Valid() && j < |cs| && c == cs[j] && idx == 16 * Times(j, fs.g.csize) + rem
      invariant good ==> fs.winsect == old(fs.winsect) || fs.g.InFat(fs.winsect)
      invariant fs.drive.reliable && old(fs.Mirrored()) ==> fs.Mirrored()
      decreases rem
    {
      if good {
        SeekNext(fs.g, fs.Vol(), cs, j);
      }
      c := fs.GetFat(c);
      if c == DISK_ERROR {
        return DiskErr, c, rem;
      }
      if c < 2 || c >= fs.g.maxClust {
        return IntErr, c, rem;
      }
      rem := rem - ic;
      j := j + 1;
    }
    if good {
      StandsInCluster(fs.g, cs, j, rem);
    }
    res := Ok;
  }

  ghost predicate Chainable(fs: FatFs, start: nat, cs: seq<nat>)
    reads fs`winsect, fs`wflag, fs`fsiFlag, fs`lastClust, fs`freeClust, fs.win, fs.drive
  {
    fs.Valid() && TableOk(fs.g, fs.Vol(), start, cs) && start != 0
  }

  class Dir {
    const fs: FatFs
    const sclust: dword
    const fn: seq<byte>
    var index: word
    var clust: dword
    var sect: nat
    var dir: Slot
    ghost var chain: seq<nat>

    constructor (fs: FatFs, sclust: dword, fn: seq<byte>, ghost cs: seq<nat>)
      requires |fn| == 12
      ensures this.fs == fs && this.sclust == sclust && this.fn == fn && chain == cs
    {
      this.fs, this.sclust, this.fn := fs, sclust, fn;
      index, clust, sect, dir := 0, 0, 0, 0;
      chain := cs;
    }

    /** The start cluster names a proper table. */
    ghost predicate Rooted()
      reads `chain, fs`winsect, fs`wflag, fs`fsiFlag, fs`lastClust, fs`freeClust, fs.win, fs.drive
      ensures Rooted() ==> fs.Valid() && Clusters(fs.g, chain) && Inside(fs.Vol(), Table())
    {
      && fs.Valid() && TableOk(fs.g, fs.Vol(), StartCluster(fs.g, sclust), chain)
      && (TableFacts(fs.g, fs.Vol(), StartCluster(fs.g, sclust), chain); true)
    }

    ghost function Table(): (ss: seq<nat>)
      requires Clusters(fs.g, chain)
      reads `chain
    {
      TableSectors(fs.g, chain)
    }

    /** The entries of the directory. */
    ghost function Listed(): (es: seq<Entry>)
      requires Rooted()
      reads `chain, fs`winsect, fs`wflag, fs`fsiFlag, fs`lastClust, fs`freeClust, fs.win, fs.drive
    {
      Listing(fs.Vol(), Table())
    }

    /** The object stands at its index. */
    ghost predicate Standing()
      reads this
    {
      Clusters(fs.g, chain) && Stands(fs.g, chain, index, clust, sect, dir)
    }

    /** dir_seek. */
    method Seek(idx: word) returns (res: FResult)
      requires fs.Shape()
      modifies this`index, this`clust, this`sect, this`dir, fs`winsect, fs`wflag, fs.win, fs.drive
      ensures fs.Shape() && fs.Vol() == old(fs.Vol()) && |fs.drive.sectors| == old(|fs.drive.sectors|)
      ensures res == Ok || res == IntErr || res == DiskErr
      ensures fs.drive.reliable ==> res != DiskErr
      ensures index == idx
      ensures sclust == 1 || sclust >= fs.g.maxClust ==> res == IntErr
      ensures old(Rooted()) && res != DiskErr ==> Rooted() && (res == Ok <==> idx / 16 < |Table()|)
      ensures old(Rooted()) && res == Ok ==> Standing()
      ensures old(Rooted()) && res != DiskErr ==> fs.winsect == old(fs.winsect) || fs.g.InFat(fs.winsect)
      ensures fs.drive.reliable && old(fs.Mirrored()) ==> fs.Mirrored()
    {
      hide FatMap, Times, Sectors, Clust2Sect, Stands, IsChain, Listing, NoRepeat;
      hide FatFs.Mirrored, FatFs.Valid, FatFs.Shape, FatFs.Vol, FatFs.Fat;
      ghost var good := Rooted();
      ghost var cs := chain;
      if good {
        TableFacts(fs.g, fs.Vol(), StartCluster(fs.g, sclust), cs);
        StaticSize(fs.g, fs.Vol());
        RowOf(idx, |Table()|);
      }
      index := idx;
      var c: dword := sclust;
      var rem: nat := idx;
      if c == 1 || c >= fs.g.maxClust {
        return IntErr;
      }
      if c == 0 && fs.g.fsType == FAT32 {
        RootCluster(fs.g);
        c := fs.g.dirbase;
      }
      if c == 0 {
        clust := c;
        if rem >= fs.g.nRootdir {
          return IntErr;
        }
        sect := fs.g.dirbase + rem / 16;
        if good {
          StandsInRoot(fs.g, fs.Vol(), rem);
        }
      } else {
        res, c, rem := FollowTable(fs, c, rem, cs);
        if res != Ok {
          return;
        }
        clust := c;
        sect := Clust2Sect(fs.g, c) + rem / 16;
      }
      dir := 32 * (rem % 16);
      return Ok;
    }

    /** The stretching branch of dir_next. */
    method StretchTable(ghost j: nat) returns (res: FResult, c: dword)
      requires fs.Shape()
      modifies this`chain
      modifies fs`winsect, fs`wflag, fs`fsiFlag, fs`freeClust, fs`lastClust, fs.win, fs.drive
      ensures |fs.drive.sectors| == old(|fs.drive.sectors|)
      ensures res == Ok || res == Denied || res == IntErr || res == DiskErr
      ensures res != DiskErr ==> fs.Shape()
      ensures old(AtEnd(j)) ==> res != DiskErr && Fits(fs.g, old(fs.Vol())) && StretchResult(res, old(fs.Vol()), old(chain))
      ensures old(AtEnd(j)) && res == Ok ==> Rooted() && j + 1 < |chain| && c == chain[j + 1]
      ensures old(AtEnd(j)) && (res == Ok || res == Denied) ==> Rooted() && Windowed(fs.g, old(fs.winsect), fs.winsect, Table())
      ensures res != DiskErr && old(AtEnd(j)) ==> Upkeep(fs)
    {
      hide FatMap, Times, Sectors, TableOk, FreeCount, TableGrew, AllUsed, HasBadEntry;
      hide TableSectors, SameOutsideFat, Inside, Clusters, Listing, StartCluster, CountRight;
      hide FatFs.Mirrored, FatFs.Valid, FatFs.Shape, FatFs.Vol, FatFs.Fat;
      ghost var good := AtEnd(j);
      ghost var start := StartCluster(fs.g, sclust);
      if good {
        TableNext(fs.g, fs.Vol(), start, chain, j);
        TableFacts(fs.g, fs.Vol(), start, chain);
      }
      res, c := StretchChain(fs, clust, start, chain);
      if good && res != IntErr {
        if res == Ok {
          FirstInTable(fs.g, chain, c);
          chain := chain + [c];
        }
        TableFacts(fs.g, fs.Vol(), start, chain);
      }
    }

    /** The object stands in the last cluster of its table, on a drive without failures. */
    ghost predicate AtEnd(j: nat)
      reads this, fs`winsect, fs`wflag, fs`fsiFlag, fs`lastClust, fs`freeClust, fs.win, fs.drive
    {
      InTable(j) && j + 1 == |chain| && fs.drive.reliable
    }

    /** The step of dir_next into the next cluster of the table, which may have to be taken and zeroed first. */
    method EnterCluster(stretch: bool, ghost j: nat) returns (res: FResult)
      requires fs.Shape()
      modifies this`clust, this`sect, this`chain
      modifies fs`winsect, fs`wflag, fs`fsiFlag, fs`freeClust, fs`lastClust, fs.win, fs.drive
      ensures |fs.drive.sectors| == old(|fs.drive.sectors|)
      ensures res == Ok || res == NoFile || res == Denied || res == IntErr || res == DiskErr
      ensures res != DiskErr ==> fs.Shape()
      ensures old(InTable(j)) && fs.drive.reliable ==> res != DiskErr
      ensures old(InTable(j)) && !stretch ==>
                res == DiskErr || (Rooted() && fs.Vol() == old(fs.Vol()) && res == if j + 1 < |chain| then Ok else NoFile)
      ensures old(InTable(j)) && res == Ok && (!stretch || fs.drive.reliable) ==>
                Rooted() && j + 1 < |chain| && clust == chain[j + 1] && sect == Clust2Sect(fs.g, clust)
      ensures old(InTable(j)) && j + 1 < |old(chain)| && fs.drive.reliable ==>
                res == Ok && fs.Vol() == old(fs.Vol()) && chain == old(chain)
      ensures old(InTable(j)) && j + 1 == |old(chain)| && stretch && fs.drive.reliable ==>
                Fits(fs.g, old(fs.Vol())) && StretchResult(res, old(fs.Vol()), old(chain))
      ensures !stretch ==> chain == old(chain)
      ensures old(InTable(j)) && Sound(res, stretch) && res != IntErr ==>
                Rooted() && Windowed(fs.g, old(fs.winsect), fs.winsect, Table())
      ensures res != DiskErr && old(InTable(j)) && fs.drive.reliable ==> Upkeep(fs)
    {
      hide FatMap, Times, Sectors, Clust2Sect, Stands, IsChain, Created, Zeroed, TableOk, Cut, FreeCount;
      hide TableGrew, AllUsed, HasBadEntry;
      hide FatFs.Mirrored, FatFs.Valid, FatFs.Shape, FatFs.Vol, FatFs.Fat;
      ghost var good := InTable(j);
      ghost var v, start := fs.Vol(), StartCluster(fs.g, sclust);
      if good {
        TableNext(fs.g, v, start, chain, j);
      }
      var c := fs.GetFat(clust);
      if c <= 1 {
        return IntErr;
      }
      if c == DISK_ERROR {
        return DiskErr;
      }
      if c >= fs.g.maxClust {
        if !stretch {
          return NoFile;
        }
        res, c := StretchTable(j);
        if res != Ok {
          return;
        }
      }
      clust := c;
      sect := Clust2Sect(fs.g, c);
      return Ok;
    }

    /** The object stands in cluster number j of its table. */
    ghost predicate InTable(j: nat)
      reads this, fs`winsect, fs`wflag, fs`fsiFlag, fs`lastClust, fs`freeClust, fs.win, fs.drive
    {
      Rooted() && j < |chain| && clust == chain[j]
    }

    /** The outcomes of stretching the table at its end: a zeroed cluster more, a full volume, a bad table. */
    ghost predicate StretchResult(res: FResult, v: seq<Sector>, cs: seq<nat>)
      requires fs.Shape() && Fits(fs.g, v)
      reads `chain, fs`winsect, fs`wflag, fs`fsiFlag, fs`lastClust, fs`freeClust, fs.win, fs.drive
    {
      match res
      case Ok => Rooted() && TableGrew(fs.g, v, cs, fs.Vol(), chain)
      case Denied => Rooted() && AllUsed(FatMap(fs.g, v)) && SameOutsideFat(fs.g, v, fs.Vol()) && fs.Fat() == FatMap(fs.g, v)
                     && chain == cs
      case IntErr => HasBadEntry(FatMap(fs.g, v)) && chain == cs
      case _ => false
    }

    /** There is an entry behind the current one that a 16-bit index can reach. */
    ghost predicate HasNext()
      requires Clusters(fs.g, chain)
      reads this
    {
      index + 1 < MAX_ENTRIES && (index + 1) / 16 < |Table()|
    }

    /**
      The outcomes of dir_next from a proper position, given the volume v and the chain cs before:
      the next entry, the end of the table, or whatever stretching it came to.
     */
    ghost predicate Stepped(res: FResult, more: bool, last: bool, v: seq<Sector>, cs: seq<nat>)
      reads `chain, fs`winsect, fs`wflag, fs`fsiFlag, fs`lastClust, fs`freeClust, fs.win, fs.drive
    {
      if more then res == Ok && Rooted() && fs.Vol() == v && chain == cs
      else if last then res == NoFile && Rooted() && fs.Vol() == v && chain == cs
      else fs.Shape() && Fits(fs.g, v) && StretchResult(res, v, cs)
    }

    /** The drive did not fail: always on a reliable one, and visibly otherwise as long as nothing is stored. */
    ghost predicate Sound(res: FResult, stretch: bool) {
      fs.drive.reliable || (!stretch && res != DiskErr)
    }

    /** The part of dir_next at a sector boundary. */
    method EnterSector(i: word, stretch: bool) returns (res: FResult)
      requires fs.Shape() && index + 1 == i && i % 16 == 0
      modifies this`clust, this`sect, this`chain
      modifies fs`winsect, fs`wflag, fs`fsiFlag, fs`freeClust, fs`lastClust, fs.win, fs.drive
      ensures |fs.drive.sectors| == old(|fs.drive.sectors|)
      ensures res == Ok || res == NoFile || res == Denied || res == IntErr || res == DiskErr
      ensures res != DiskErr ==> fs.Shape()
      ensures old(Rooted() && Standing()) && fs.drive.reliable ==> res != DiskErr
      ensures old(Rooted() && Standing()) && Sound(res, stretch) ==>
                Stepped(res, old(HasNext()), !stretch || old(chain) == [], old(fs.Vol()), old(chain))
      ensures old(Rooted() && Standing()) && Sound(res, stretch) && res == Ok ==>
                Clusters(fs.g, chain) && Stands(fs.g, chain, i, clust, sect, 0)
      ensures !stretch ==> chain == old(chain)
      ensures old(Rooted() && Standing()) && Sound(res, stretch) && res != IntErr ==>
                Rooted() && Windowed(fs.g, old(fs.winsect), fs.winsect, Table())
      ensures res != DiskErr && old(Rooted() && Standing()) && fs.drive.reliable ==> Upkeep(fs)
    {
      hide FatMap, Times, Sectors, Clust2Sect, Stands, TableOk, FreeCount, StretchResult, Listing;
      hide FatFs.Mirrored, FatFs.Valid, FatFs.Shape, FatFs.Vol, FatFs.Fat;
      ghost var good := Rooted() && Standing();
      ghost var start, k: nat := StartCluster(fs.g, sclust), index;
      ghost var j: nat := 0;
      if good {
        j := Crossing(fs.g, fs.Vol(), start, chain, k, clust, sect, dir);
      }
      sect := sect + 1;
      if clust == 0 {
        if i >= fs.g.nRootdir {
          return NoFile;
        }
      } else if i / 16 % fs.g.csize == 0 {
        res := EnterCluster(stretch, j);
        if res != Ok {
          return;
        }
        if good && Sound(res, stretch) {
          CrossedInto(fs.g, fs.Vol(), start, chain, j + 1, i);
        }
      }
      return Ok;
    }

    /** dir_next. */
    method Next(stretch: bool) returns (res: FResult)
      requires fs.Shape()
      modifies this`index, this`clust, this`sect, this`dir, this`chain
      modifies fs`winsect, fs`wflag, fs`fsiFlag, fs`freeClust, fs`lastClust, fs.win, fs.drive
      ensures |fs.drive.sectors| == old(|fs.drive.sectors|)
      ensures res == Ok || res == NoFile || res == Denied || res == IntErr || res == DiskErr
      ensures res != DiskErr ==> fs.Shape()
      ensures res == Ok ==> index == old(index) + 1
      ensures old(Rooted() && Standing()) && fs.drive.reliable ==> res != DiskErr
      ensures old(Rooted() && Standing()) && Sound(res, stretch) ==>
                Stepped(res, old(HasNext()), !stretch || old(chain) == [] || old(index) + 1 == MAX_ENTRIES,
                        old(fs.Vol()), old(chain))
      ensures old(Rooted() && Standing()) && Sound(res, stretch) && res == Ok ==> Standing()
      ensures !stretch ==> chain == old(chain)
      ensures old(Rooted() && Standing()) && Sound(res, stretch) && res != IntErr ==>
                Rooted() && Windowed(fs.g, old(fs.winsect), fs.winsect, Table())
      ensures res != DiskErr && old(Rooted() && Standing()) && fs.drive.reliable ==> Upkeep(fs)
    {
      hide FatMap, Times, Sectors, Clust2Sect, Stands, TableOk, FreeCount, StretchResult, Listing;
      hide FatFs.Mirrored, FatFs.Valid, FatFs.Shape, FatFs.Vol, FatFs.Fat;
      if Rooted() && Standing() {
        StandsInSector(fs.g, fs.Vol(), StartCluster(fs.g, sclust), chain, index, clust, sect, dir);
      }
      var i: word := (index + 1) % 0x1_0000;
      if i == 0 || sect == 0 {
        return NoFile;
      }
      if i % 16 == 0 {
        res := EnterSector(i, stretch);
        if res != Ok {
          return;
        }
      }
      index := i;
      dir := 32 * (i % 16);
      return Ok;
    }
  }

  lemma RootCluster(g: Geometry)
    requires g.Valid() && g.fsType == FAT32
    ensures 2 <= g.dirbase < g.maxClust
  {
    hide Times;
  }

  lemma StaticSize(g: Geometry, v: seq<Sector>)
    requires Fits(g, v)
    ensures g.fsType != FAT32 ==> g.nRootdir == 16 * (g.nRootdir / 16)
  {
    hide Times;
  }

  lemma NoRows(c: nat)
    ensures Times(0, c) == 0
  {
  }

  /** Following the chain by one cluster, or running off its end. */
  lemma SeekNext(g: Geometry, v: seq<Sector>, cs: seq<nat>, j: nat)
    requires Fits(g, v) && IsChain(FatMap(g, v), cs) && j < |cs|
    ensures IsCluster(g, cs[j])
    ensures j + 1 < |cs| ==> FatMap(g, v)[cs[j]] == cs[j + 1] && IsCluster(g, cs[j + 1])
    ensures j + 1 == |cs| ==> FatMap(g, v)[cs[j]] >= g.maxClust
    ensures Times(j + 1, g.csize) == Times(j, g.csize) + g.csize
    ensures Times(j + 1, g.csize) <= Times(|cs|, g.csize)
  {
    hide FatMap;
    if j + 1 < |cs| {
      TimesMono(j + 1, |cs|, g.csize);
    }
  }

  lemma TableNext(g: Geometry, v: seq<Sector>, start: nat, cs: seq<nat>, j: nat)
    requires TableOk(g, v, start, cs) && j < |cs|
    ensures IsCluster(g, cs[j])
    ensures j + 1 < |cs| ==> FatMap(g, v)[cs[j]] == cs[j + 1] && IsCluster(g, cs[j + 1])
    ensures j + 1 == |cs| ==> FatMap(g, v)[cs[j]] >= g.maxClust
  {
    hide FatMap;
    SeekNext(g, v, cs, j);
  }

  /** A cluster taken behind the last one and zeroed makes a longer table of the same directory. */
  lemma GrowTable(g: Geometry, v: seq<Sector>, v1: seq<Sector>, v2: seq<Sector>, start: nat, cs: seq<nat>, r: dword, scl: nat)
    requires TableOk(g, v, start, cs) && cs != [] && FatMap(g, v)[cs[|cs| - 1]] >= g.maxClust
    requires cs[|cs| - 1] < 0x1_0000_0000 && scl == cs[|cs| - 1]
    requires Fits(g, v1) && SameOutsideFat(g, v, v1) && r >= 2 && IsCluster(g, r)
    requires Created(FatMap(g, v), cs[|cs| - 1], scl, Cut(g, END_OF_CHAIN), FatMap(g, v1), r)
    requires v2 == Zeroed(v1, First(g, r), g.csize)
    ensures Fits(g, v2) && FatMap(g, v2) == FatMap(g, v1)
    ensures TableGrew(g, v, cs, v2, cs + [r])
    ensures TableOk(g, v2, start, cs + [r])
  {
    hide FatMap, Times, Cut, Linked, First, FirstFree;
    EndMark(g);
    ClusterPlace(g, r);
    FatMapAgree(g, v1, v2);
    FirstFacts(FatMap(g, v), scl, r);
    LinkedChain(FatMap(g, v), cs, r, Cut(g, END_OF_CHAIN));
  }

  /** What create_chain leaves of the table when it takes no cluster. */
  lemma StretchFails(g: Geometry, v: seq<Sector>, v1: seq<Sector>, start: nat, cs: seq<nat>, r: dword, scl: nat)
    requires TableOk(g, v, start, cs) && cs != [] && FatMap(g, v)[cs[|cs| - 1]] >= g.maxClust
    requires cs[|cs| - 1] < 0x1_0000_0000
    requires Fits(g, v1) && SameOutsideFat(g, v, v1)
    requires Created(FatMap(g, v), cs[|cs| - 1], scl, Cut(g, END_OF_CHAIN), FatMap(g, v1), r)
    ensures r == 0 ==> AllUsed(FatMap(g, v)) && FatMap(g, v1) == FatMap(g, v) && TableOk(g, v1, start, cs)
    ensures r == 1 ==> HasBadEntry(FatMap(g, v))
    ensures Clusters(g, cs) && Inside(v1, TableSectors(g, cs))
  {
    hide FatMap, Times, Cut, Linked, FirstFree, AllUsed, HasBadEntry, Sectors;
    TableFacts(g, v, start, cs);
  }

  lemma FirstFacts(fat: seq<dword>, scl: nat, r: nat)
    requires FirstFree(fat, scl, r)
    ensures 2 <= r < |fat| && fat[r] == 0
  {
  }

  /** Inside a sector: the sector is not 0, and the next entry is in it too. */
  lemma StandsInSector(g: Geometry, v: seq<Sector>, start: nat, cs: seq<nat>, k: nat, clust: nat, sect: nat, dir: nat)
    requires TableOk(g, v, start, cs) && Clusters(g, cs) && Stands(g, cs, k, clust, sect, dir)
    ensures sect != 0 && k / 16 < |TableSectors(g, cs)|
    ensures (k + 1) % 16 != 0 && k + 1 < MAX_ENTRIES ==>
              (k + 1) / 16 == k / 16 && Stands(g, cs, k + 1, clust, sect, 32 * ((k + 1) % 16))
  {
    hide FatMap, Times, Sectors;
    TableFacts(g, v, start, cs);
    SameRow(k);
    assert sect in TableSectors(g, cs);
    if (k + 1) % 16 != 0 && k + 1 < MAX_ENTRIES {
      NextInSector(g, cs, k, clust, sect, dir);
    }
  }

  /** At a sector boundary: what dir_next tests, and what it means. */
  lemma Crossing(g: Geometry, v: seq<Sector>, start: nat, cs: seq<nat>, k: nat, clust: nat, sect: nat, dir: nat) returns (j: nat)
    requires TableOk(g, v, start, cs) && Clusters(g, cs) && Stands(g, cs, k, clust, sect, dir)
    requires (k + 1) % 16 == 0 && k + 1 < MAX_ENTRIES
    ensures g.csize > 0 && (clust == 0 <==> cs == [])
    ensures cs == [] ==> ((k + 1) / 16 < |TableSectors(g, cs)| <==> k + 1 < g.nRootdir)
    ensures cs == [] && k + 1 < g.nRootdir ==> Stands(g, cs, k + 1, clust, sect + 1, 0)
    ensures cs != [] ==> j < |cs| && clust == cs[j]
    ensures cs != [] && (k + 1) / 16 % g.csize != 0 ==>
              Stands(g, cs, k + 1, clust, sect + 1, 0) && (k + 1) / 16 < |TableSectors(g, cs)|
    ensures cs != [] && (k + 1) / 16 % g.csize == 0 ==>
              k + 1 == 16 * Times(j + 1, g.csize) && ((k + 1) / 16 < |TableSectors(g, cs)| <==> j + 1 < |cs|)
  {
    hide FatMap, Times, Sectors;
    TableFacts(g, v, start, cs);
    StaticSize(g, v);
    SameRow(k);
    j := NextSector(g, cs, k, clust, sect, dir);
    RowOf(k + 1, g.nRootdir / 16);
    if cs != [] {
      CrossedRow(g, cs, k, j, clust, sect);
    }
  }

  lemma CrossedRow(g: Geometry, cs: seq<nat>, k: nat, j: nat, clust: nat, sect: nat)
    requires g.Valid() && Clusters(g, cs) && j < |cs|
    ensures k + 1 == 16 * Times(j + 1, g.csize) ==> ((k + 1) / 16 < Times(|cs|, g.csize) <==> j + 1 < |cs|)
    ensures Stands(g, cs, k + 1, clust, sect + 1, 0) ==> (k + 1) / 16 < |TableSectors(g, cs)|
    ensures cs[j] != 0
  {
    hide Sectors;
    if j + 1 < |cs| {
      TimesMono(j + 1, |cs|, g.csize);
    }
  }

  /** The first entry of cluster number j. */
  lemma CrossedInto(g: Geometry, v: seq<Sector>, start: nat, cs: seq<nat>, j: nat, i: nat)
    requires TableOk(g, v, start, cs) && Clusters(g, cs) && j < |cs| && i == 16 * Times(j, g.csize) && i < MAX_ENTRIES
    requires cs[j] < 0x1_0000_0000
    ensures Stands(g, cs, i, cs[j], Clust2Sect(g, cs[j]), 0)
  {
    hide FatMap, Times, Sectors, Clust2Sect;
    TableFacts(g, v, start, cs);
    StandsInCluster(g, cs, j, 0);
  }
}
