/** f_truncate: cut the file at the pointer and release the clusters behind it. */
module FileTruncate {
  import opened Words
  import opened Layout
  import opened Codec
  import opened Disk
  import opened Chains
  import opened FileSystem
  import opened Allocation
  import opened FileData
  import opened FileStates
  import opened FileSteps
  import opened FileGrow
  import opened Files
  import opened FileWrite
  import opened FileSeek
  import AllocRuns

  /** The table after the first n clusters of cs are kept, and the last of them closed. */
  ghost function CutChain(fat: seq<dword>, cs: seq<nat>, n: nat, eoc: dword): (r: seq<dword>)
    requires IsChain(fat, cs)
    ensures |r| == |fat|
  {
    if n >= |cs| then fat
    else if n == 0 then Cleared(fat, cs)
    else Cleared(fat[cs[n - 1] := eoc], cs[n..])
  }

  /** Cutting a chain keeps its head, frees the rest, and changes no entry outside the chain. */
  lemma CutChainFacts(fat: seq<dword>, cs: seq<nat>, n: nat, eoc: dword)
    requires IsChain(fat, cs) && n <= |cs| && eoc >= |fat|
    ensures IsChainOrNil(CutChain(fat, cs, n, eoc), cs[..n])
    ensures forall c :: 0 <= c < |fat| && c !in cs ==> CutChain(fat, cs, n, eoc)[c] == fat[c]
    ensures forall i :: n <= i < |cs| ==> CutChain(fat, cs, n, eoc)[cs[i]] == 0
  {
    hide Cleared;
    if n == |cs| {
      assert cs[..n] == cs;
    } else if n > 0 {
      CutHead(fat, cs, n, eoc);
    }
  }

  lemma CutHead(fat: seq<dword>, cs: seq<nat>, n: nat, eoc: dword)
    requires IsChain(fat, cs) && 0 < n < |cs| && eoc >= |fat|
    ensures cs[n - 1] < |fat|
    ensures var r := Cleared(fat[cs[n - 1] := eoc], cs[n..]);
            && IsChain(r, cs[..n])
            && (forall c :: 0 <= c < |fat| && c !in cs ==> r[c] == fat[c])
            && (forall i :: n <= i < |cs| ==> r[cs[i]] == 0)
  {
    hide Cleared;
    ChainUsed(fat, cs, cs[n - 1]);
    AllocRuns.SplitChain(fat, cs, n - 1, eoc);
    ClusterBounds(fat, cs);
    hide IsChain;
    var t := fat[cs[n - 1] := eoc];
    RestMembers(cs, n);
    HeadKept(t, cs[..n], cs[n..]);
  }

  lemma ClusterBounds(fat: seq<dword>, cs: seq<nat>)
    requires IsChain(fat, cs)
    ensures forall i :: 0 <= i < |cs| ==> cs[i] < |fat|
  {
  }

  lemma RestMembers(cs: seq<nat>, n: nat)
    requires 0 < n < |cs|
    ensures forall i :: n <= i < |cs| ==> cs[i] in cs[n..]
    ensures forall c :: c in cs[n..] ==> c in cs
    ensures cs[n - 1] in cs
  {
    forall i | n <= i < |cs|
      ensures cs[i] in cs[n..]
    {
      assert cs[i] == cs[n..][i - n];
    }
  }

  lemma HeadKept(fat: seq<dword>, cs: seq<nat>, ds: seq<nat>)
    requires IsChain(fat, cs) && Disjoint(cs, ds)
    ensures IsChain(Cleared(fat, ds), cs)
  {
    ChainKept(fat, Cleared(fat, ds), cs);
  }

  lemma CutNothing(fat: seq<dword>, cs: seq<nat>, eoc: dword)
    ensures IsChain(fat, cs) ==> CutChain(fat, cs, |cs|, eoc) == fat
  {
  }

  /** remove_chain on the rest of a chain whose head was just closed. */
  lemma ReleaseRest(fat: seq<dword>, cs: seq<nat>, n: nat, eoc: dword)
    requires IsChain(fat, cs) && 0 < n < |cs| && eoc >= |fat|
    ensures Released(fat[cs[n - 1] := eoc], cs[n]) == (CutChain(fat, cs, n, eoc), true)
    ensures fat[cs[n - 1]] == cs[n] && 2 <= cs[n] < |fat| && fat[cs[n - 1]] != 0
  {
    AllocRuns.SplitChain(fat, cs, n - 1, eoc);
    ReleasedChain(fat[cs[n - 1] := eoc], cs[n..]);
  }

  // ----- the file -----

  /** The state after a cut to n clusters and m bytes. */
  function CutState(f: FileState, n: nat, m: nat): FileState
    requires n <= |f.chain|
  {
    f.(chain := f.chain[..n], orgClust := Head(f.chain[..n]), fsize := m)
  }

  /** The buffered sector is still one of the file's, or clean and out of everybody's reach. */
  ghost predicate BufferKept(g: Geometry, f: FileState) {
    Clusters(g, f.chain) && (f.dsect == 0 || f.dsect in FileSectors(g, f) || Left(g, f))
  }

  /** The kept part of a chain that is cut at fptr. */
  function Kept(g: Geometry, cs: seq<nat>, fptr: nat, fsize: nat): seq<nat>
    requires g.csize > 0
  {
    if fptr < fsize && ClustersFor(g, fptr) <= |cs| then cs[..ClustersFor(g, fptr)] else cs
  }

  /**
    What a caller has to check before f_truncate: nothing is cut, or the private buffer is empty, or on a
    sector the file keeps, or clean.
   */
  ghost predicate CutSafe(g: Geometry, f: FileState)
    requires g.csize > 0 && Clusters(g, f.chain)
  {
    || f.fptr >= f.fsize
    || f.dsect == 0
    || f.dsect in Sectors(g, Kept(g, f.chain, f.fptr, f.fsize))
    || !f.dirty
  }

  /** It is the exact condition under which the cut keeps the buffer. */
  lemma CutSafeExactly(g: Geometry, v: seq<Sector>, winsect: nat, f: FileState)
    requires FileOk(g, v, winsect, f) && f.fptr < f.fsize && g.csize > 0
    ensures Clusters(g, f.chain) && ClustersFor(g, f.fptr) <= |f.chain|
    ensures BufferKept(g, CutState(f, ClustersFor(g, f.fptr), f.fptr)) <==> CutSafe(g, f)
  {
    hide FatMap, Times, Sectors, ClustersFor;
    ChainFacts(g, v, f);
    CutPosition(g, v, f);
  }

  lemma CutChained(g: Geometry, v: seq<Sector>, f: FileState, v': seq<Sector>, n: nat, m: nat, eoc: dword)
    requires Chained(g, v, f) && f.chain != [] && n <= |f.chain| && m <= 512 * Times(n, g.csize)
    requires Fits(g, v') && eoc >= g.maxClust
    requires FatMap(g, v') == CutChain(FatMap(g, v), f.chain, n, eoc)
    ensures Clusters(g, f.chain) && Clusters(g, f.chain[..n])
    ensures Chained(g, v', CutState(f, n, m))
    ensures FileSectors(g, CutState(f, n, m)) <= FileSectors(g, f)
  {
    hide FatMap, Times, Sectors;
    CutChainFacts(FatMap(g, v), f.chain, n, eoc);
    ChainFacts(g, v, f);
    SectorsPrefix(g, f.chain[..n], f.chain);
  }

  lemma CutStore(g: Geometry, v: seq<Sector>, f: FileState, v': seq<Sector>, f': FileState)
    requires Chained(g, v, f) && Chained(g, v', f') && SameOutsideFat(g, v, v')
    requires Clusters(g, f.chain) && Clusters(g, f'.chain) && FileSectors(g, f') <= FileSectors(g, f)
    requires f'.dirty == f.dirty && f'.dsect == f.dsect && f'.buf == f.buf
    ensures Store(g, v', f') <= Store(g, v, f)
  {
    hide FatMap, Times, Sectors, Chained;
    ChainFacts(g, v, f);
    ChainFacts(g, v', f');
    var w, w' := FileVol(v, f), FileVol(v', f');
    BytesAgree(w', w, FileSectors(g, f'));
    BytesPrefix(w, FileSectors(g, f'), FileSectors(g, f));
  }

  lemma CutPlaced(g: Geometry, v: seq<Sector>, winsect: nat, f: FileState, v': seq<Sector>, winsect': nat, n: nat, m: nat, eoc: dword)
    requires Chained(g, v, f) && f.chain != [] && n <= |f.chain| && Clusters(g, f.chain) && Placed(g, v, winsect, f)
    requires Fits(g, v') && |v'| == |v| && eoc >= g.maxClust && (winsect' == winsect || g.InFat(winsect'))
    requires FatMap(g, v') == CutChain(FatMap(g, v), f.chain, n, eoc)
    requires Clusters(g, f.chain[..n]) && FileSectors(g, CutState(f, n, m)) <= FileSectors(g, f)
    ensures Placed(g, v', winsect', CutState(f, n, m))
  {
    hide FatMap, Times, Sectors;
    ChainFacts(g, v, f);
    CutChainFacts(FatMap(g, v), f.chain, n, eoc);
    forall c: nat | IsCluster(g, c) && InCluster(g, c, f.dirSect)
      ensures FatMap(g, v')[c] != 0
    {
      InSectors(g, f.chain, f.dirSect);
      assert FatMap(g, v)[c] != 0;
    }
  }

  lemma CutBuffered(g: Geometry, v: seq<Sector>, f: FileState, v': seq<Sector>, n: nat, m: nat)
    requires Chained(g, v, f) && SameOutsideFat(g, v, v') && Buffered(g, v, f)
    requires Clusters(g, f.chain) && n <= |f.chain| && Clusters(g, f.chain[..n])
    requires FileSectors(g, CutState(f, n, m)) <= FileSectors(g, f)
    requires f.fptr <= 512 * Times(n, g.csize) && m <= f.fsize
    ensures BufferKept(g, CutState(f, n, m)) ==> Buffered(g, v', CutState(f, n, m))
    ensures f.fptr % 512 != 0 ==> BufferKept(g, CutState(f, n, m))
  {
    ChainFacts(g, v, f);
    DataBase(g);
    CutRight(g, v, f, v', n, m);
    hide FatMap, Times, Sectors, Chained, Geometry.Valid, RightTo;
  }

  /** Fewer sectors and fewer bytes: the buffer is as right as before. */
  lemma CutRight(g: Geometry, v: seq<Sector>, f: FileState, v': seq<Sector>, n: nat, m: nat)
    requires Chained(g, v, f) && SameOutsideFat(g, v, v')
    requires Clusters(g, f.chain) && n <= |f.chain| && Clusters(g, f.chain[..n]) && m <= f.fsize
    requires FileSectors(g, CutState(f, n, m)) <= FileSectors(g, f)
    requires RightTo(g, v, f, f.fsize)
    ensures RightTo(g, v', CutState(f, n, m), m)
  {
    hide FatMap, Times, Sectors, Chained;
    ChainFacts(g, v, f);
    var f' := CutState(f, n, m);
    forall j | 0 <= j < |FileSectors(g, f')| && FileSectors(g, f')[j] == f.dsect && !f.dirty && f.dsect < |v|
      ensures Alike(f.buf, v'[f.dsect], j, m)
    {
      assert FileSectors(g, f)[j] == f.dsect && f.dsect in FileSectors(g, f);
    }
  }

  /** Cutting keeps the bytes in front of the cut, and the invariant exactly if the buffered sector is kept. */
  lemma CutKeeps(g: Geometry, v: seq<Sector>, winsect: nat, f: FileState, v': seq<Sector>, winsect': nat, n: nat, eoc: dword)
    requires FileOk(g, v, winsect, f) && f.fptr < f.fsize && n == ClustersFor(g, f.fptr)
    requires Fits(g, v') && SameOutsideFat(g, v, v') && eoc >= g.maxClust
    requires winsect' == winsect || g.InFat(winsect')
    requires f.chain != [] && n <= |f.chain|
    requires FatMap(g, v') == CutChain(FatMap(g, v), f.chain, n, eoc)
    ensures var f' := CutState(f, n, f.fptr);
            && Chained(g, v', f') && Clusters(g, f'.chain)
            && Content(g, v', f') == Content(g, v, f)[..f.fptr]
            && Framed(g, v', winsect', f')
            && (FileOk(g, v', winsect', f') <==> BufferKept(g, f'))
            && (f.fptr % 512 != 0 ==> BufferKept(g, f'))
  {
    hide FatMap, Times, Sectors, Store, Placed, Chained, Buffered, Positioned, ClustersFor, BufferKept, Poised;
    var f' := CutState(f, n, f.fptr);
    ChainFacts(g, v, f);
    CutPosition(g, v, f);
    CutSafeExactly(g, v, winsect, f);
    CutChained(g, v, f, v', n, f.fptr, eoc);
    CutStore(g, v, f, v', f');
    CutPlaced(g, v, winsect, f, v', winsect', n, f.fptr, eoc);
    CutBuffered(g, v, f, v', n, f.fptr);
    CutContent(g, v, f, v', f');
    BufferedKept(g, v', f');
    CutPoised(g, v, f, v', f');
  }

  lemma CutPoised(g: Geometry, v: seq<Sector>, f: FileState, v': seq<Sector>, f': FileState)
    requires Clusters(g, f.chain) && Clusters(g, f'.chain) && Buffered(g, v, f)
    requires f'.dirty == f.dirty && f'.dsect == f.dsect && f'.fptr == f.fptr
    requires BufferKept(g, f') ==> Buffered(g, v', f')
    requires !f.dirty || f.fptr % 512 != 0 ==> BufferKept(g, f')
    ensures Poised(g, v', f')
  {
    hide Sectors, Times;
    PoisedBuffered(g, v', f');
  }

  lemma BufferedKept(g: Geometry, v: seq<Sector>, f: FileState)
    requires Clusters(g, f.chain)
    ensures Buffered(g, v, f) ==> BufferKept(g, f)
  {
    hide Times, Sectors;
  }

  lemma CutNone(g: Geometry, f: FileState)
    requires g.csize > 0 && Clusters(g, f.chain)
    ensures f.fptr >= f.fsize ==> CutSafe(g, f)
  {
    hide Sectors, Kept, Times;
  }

  lemma CutContent(g: Geometry, v: seq<Sector>, f: FileState, v': seq<Sector>, f': FileState)
    requires Chained(g, v, f) && Chained(g, v', f') && Store(g, v', f') <= Store(g, v, f)
    requires f'.fsize == f.fptr <= f.fsize
    ensures Content(g, v', f') == Content(g, v, f)[..f.fptr]
  {
    hide FatMap, Times, Sectors, Store;
    SizeFits(g, v, f);
    SizeFits(g, v', f');
  }

  /** The clusters a pointer needs are those up to its own. */
  lemma AtClusters(g: Geometry, f: FileState, ci: nat)
    requires g.csize > 0 && At(g, f, ci)
    ensures ClustersFor(g, f.fptr) == ci + 1
  {
    ClustersAt(g, ci, f.fptr);
  }

  lemma CutPosition(g: Geometry, v: seq<Sector>, f: FileState)
    requires Chained(g, v, f) && Positioned(g, f) && f.fptr < f.fsize
    ensures f.chain != [] && g.csize > 0
    ensures ClustersFor(g, f.fptr) <= |f.chain| && f.fptr <= 512 * Times(ClustersFor(g, f.fptr), g.csize)
    ensures ClustersFor(g, f.fptr) == 0 <==> f.fptr == 0
    ensures f.fptr > 0 ==> f.currClust == f.chain[ClustersFor(g, f.fptr) - 1]
    ensures Positioned(g, CutState(f, ClustersFor(g, f.fptr), f.fptr))
    ensures CutState(f, ClustersFor(g, f.fptr), f.fptr).orgClust == if f.fptr == 0 then 0 else f.orgClust
  {
    hide FatMap, ClustersFor;
    if f.fptr == 0 {
      NoClusters(g);
    } else {
      var ci: nat :| At(g, f, ci);
      AtClusters(g, f, ci);
      assert Times(ci + 1, g.csize) == Times(ci, g.csize) + g.csize;
      assert At(g, CutState(f, ci + 1, f.fptr), ci);
    }
  }

  /** What the release of the clusters behind the pointer needs to know of the chain. */
  lemma CutEntry(g: Geometry, v: seq<Sector>, f: FileState)
    requires Chained(g, v, f) && Positioned(g, f) && f.fptr < f.fsize
    ensures var n := ClustersFor(g, f.fptr);
            var fat := FatMap(g, v);
            var eoc := Cut(g, END_OF_CHAIN);
            && IsChain(fat, f.chain) && n <= |f.chain| && eoc >= g.maxClust
            && (f.fptr == 0 ==> IsCluster(g, f.orgClust) && Released(fat, f.orgClust) == (CutChain(fat, f.chain, n, eoc), true))
            && (f.fptr > 0 ==> n > 0 && IsCluster(g, f.currClust) && fat[f.currClust] >= 2
                               && FreeCount(fat[f.currClust := eoc]) == FreeCount(fat)
                               && (fat[f.currClust] >= g.maxClust ==> CutChain(fat, f.chain, n, eoc) == fat)
                               && (fat[f.currClust] < g.maxClust ==>
                                 Released(fat[f.currClust := eoc], fat[f.currClust]) == (CutChain(fat, f.chain, n, eoc), true)))
  {
    hide FatMap, ClustersFor, Cut, Positioned, FreeCount, Times;
    EndMark(g);
    CutPosition(g, v, f);
    var n := ClustersFor(g, f.fptr);
    var fat := FatMap(g, v);
    if f.fptr == 0 {
      ReleasedChain(fat, f.chain);
    } else {
      ChainUsed(fat, f.chain, f.currClust);
      CloseCount(fat, f.currClust, Cut(g, END_OF_CHAIN));
      if n < |f.chain| {
        ReleaseRest(fat, f.chain, n, Cut(g, END_OF_CHAIN));
      }
    }
  }

  /** Release the clusters behind the pointer: all of them if it is at the top of the file. */
  method ReleaseBehind(fp: File, ghost f: FileState) returns (res: FResult)
    requires fp.Shape() && fp.fs.Valid() && Cuttable(fp, f)
    modifies fp`orgClust
    modifies fp.fs`winsect, fp.fs`wflag, fp.fs`fsiFlag, fp.fs`freeClust, fp.fs.win, fp.fs.drive
    ensures |fp.fs.drive.sectors| == old(|fp.fs.drive.sectors|)
    ensures res == Ok || res == DiskErr
    ensures fp.fs.drive.reliable ==> res == Ok
    ensures res == Ok ==> fp.Shape() && fp.fs.Valid() && SameOutsideFat(fp.fs.g, old(fp.fs.Vol()), fp.fs.Vol())
    ensures fp.orgClust == if fp.fptr == 0 then 0 else old(fp.orgClust)
    ensures res == Ok ==>
              IsChain(old(fp.fs.Fat()), fp.chain)
              && fp.fs.Fat() == CutChain(old(fp.fs.Fat()), fp.chain, ClustersFor(fp.fs.g, fp.fptr), Cut(fp.fs.g, END_OF_CHAIN))
    ensures res == Ok ==> CountKept(fp.fs)
    ensures fp.fs.drive.reliable && res == Ok && old(fp.fs.Mirrored()) ==> fp.fs.Mirrored()
    ensures res == Ok ==> fp.fs.winsect == old(fp.fs.winsect) || fp.fs.g.InFat(fp.fs.winsect)
  {
    hide FatMap, Times, Store, Sectors, Chained, Positioned, ClustersFor, Cut, FreeCount, Released, CutChain;
    hide FatFs.Mirrored, FatFs.Valid, FatFs.Shape, FatFs.Vol, FatFs.Fat;
    CutEntry(fp.fs.g, fp.fs.Vol(), f);
    if fp.fptr == 0 {
      res := RemoveChain(fp.fs, fp.orgClust);
      fp.orgClust := 0;
    } else {
      res := CloseAndRelease(fp.fs, fp.currClust);
    }
  }

  /** Before its size was lowered the file was in state f, with the pointer in front of its end. */
  ghost predicate Cuttable(fp: File, f: FileState)
    requires fp.Shape()
    reads fp, fp.buf, fp.fs`winsect, fp.fs`wflag, fp.fs.win, fp.fs.drive
  {
    && Chained(fp.fs.g, fp.fs.Vol(), f) && Positioned(fp.fs.g, f) && f.fptr < f.fsize
    && fp.State() == f.(fsize := fp.fsize)
  }

  /** The branch of f_truncate that shortens the file. */
  method CutAtPointer(fp: File) returns (res: FResult)
    requires fp.Valid() && fp.fptr < fp.fsize
    modifies fp`chain, fp`orgClust, fp`fsize, fp`written
    modifies fp.fs`winsect, fp.fs`wflag, fp.fs`fsiFlag, fp.fs`freeClust, fp.fs.win, fp.fs.drive
    ensures |fp.fs.drive.sectors| == old(|fp.fs.drive.sectors|)
    ensures res == Ok || res == DiskErr
    ensures fp.fs.drive.reliable ==> res == Ok
    ensures fp.written && fp.fsize == fp.fptr
    ensures res == Ok ==> fp.Shape() && fp.fs.Valid() && SameOutsideFat(fp.fs.g, old(fp.fs.Vol()), fp.fs.Vol())
    ensures res == Ok ==>
              var n := ClustersFor(fp.fs.g, fp.fptr);
              n <= |old(fp.chain)| && fp.State() == CutState(old(fp.State()), n, fp.fptr)
    ensures res == Ok ==>
              IsChain(old(fp.fs.Fat()), old(fp.chain))
              && fp.fs.Fat() == CutChain(old(fp.fs.Fat()), old(fp.chain), |fp.chain|, Cut(fp.fs.g, END_OF_CHAIN))
    ensures res == Ok ==>
              Chained(fp.fs.g, fp.fs.Vol(), fp.State())
              && Content(fp.fs.g, fp.fs.Vol(), fp.State()) == old(fp.Data())[..fp.fptr]
              && Framed(fp.fs.g, fp.fs.Vol(), fp.fs.winsect, fp.State())
              && (FileOk(fp.fs.g, fp.fs.Vol(), fp.fs.winsect, fp.State()) <==> old(CutSafe(fp.fs.g, fp.State())))
    ensures res == Ok ==> CountKept(fp.fs)
    ensures fp.fs.drive.reliable && res == Ok && old(fp.fs.Mirrored()) ==> fp.fs.Mirrored()
    ensures res == Ok ==> fp.fs.winsect == old(fp.fs.winsect) || fp.fs.g.InFat(fp.fs.winsect)
  {
    hide FatMap, Times, Steady, Store, Sectors, Chained, Positioned, ClustersFor, Cut, FreeCount, CutChain;
    hide BufferKept, CutSafe, FileOk, CountRight, IsChain, SameOutsideFat;
    hide FatFs.Mirrored, FatFs.Valid, FatFs.Shape, FatFs.Vol, FatFs.Fat;
    ghost var g, v, w, f := fp.fs.g, fp.fs.Vol(), fp.fs.winsect, fp.State();
    ValidFileOk(fp);
    CutPosition(g, v, f);
    CutSafeExactly(g, v, w, f);
    EndMark(g);
    fp.fsize := fp.fptr;
    fp.written := true;
    res := ReleaseBehind(fp, f);
    if res == Ok {
      ghost var n := ClustersFor(g, f.fptr);
      fp.chain := f.chain[..n];
      assert fp.State() == CutState(f, n, f.fptr);
      CutKeeps(g, v, w, f, fp.fs.Vol(), fp.fs.winsect, n, Cut(g, END_OF_CHAIN));
    }
  }

  /**
    f_truncate. The content is cut at the pointer; if that shortens it, exactly the clusters up to the
    pointer are kept, those behind it are free, and nothing outside the table changes. The code neither
    writes the private buffer back nor drops it: the invariant holds afterwards if and only if CutSafe held
    before.
   */
  method Truncate(fp: File) returns (res: FResult)
    requires fp.Valid()
    modifies fp`chain, fp`orgClust, fp`fsize, fp`written, fp`failed
    modifies fp.fs`winsect, fp.fs`wflag, fp.fs`fsiFlag, fp.fs`freeClust, fp.fs.win, fp.fs.drive
    ensures |fp.fs.drive.sectors| == old(|fp.fs.drive.sectors|)
    ensures old(fp.failed) ==> res == IntErr
    ensures !old(fp.failed) && !fp.canWrite ==> res == Denied
    ensures old(fp.failed) || !fp.canWrite ==> unchanged(fp, fp.buf, fp.fs, fp.fs.win, fp.fs.drive)
    ensures !old(fp.failed) && fp.canWrite ==> (res == Ok && !fp.failed) || (res == DiskErr && fp.failed)
    ensures fp.fs.drive.reliable && !old(fp.failed) && fp.canWrite ==> res == Ok
    ensures res == Ok ==> fp.Shape() && fp.fs.Valid() && Chained(fp.fs.g, fp.fs.Vol(), fp.State())
    ensures res == Ok ==> Content(fp.fs.g, fp.fs.Vol(), fp.State()) == old(fp.Data())[..fp.fptr]
    ensures res == Ok ==> fp.chain == Kept(fp.fs.g, old(fp.chain), fp.fptr, old(fp.fsize)) && fp.chain <= old(fp.chain)
    ensures res == Ok ==> SameOutsideFat(fp.fs.g, old(fp.fs.Vol()), fp.fs.Vol())
    ensures res == Ok && fp.chain == old(fp.chain) ==> fp.fs.Fat() == old(fp.fs.Fat())
    ensures res == Ok && fp.chain != old(fp.chain) ==>
              IsChain(old(fp.fs.Fat()), old(fp.chain))
              && fp.fs.Fat() == CutChain(old(fp.fs.Fat()), old(fp.chain), |fp.chain|, Cut(fp.fs.g, END_OF_CHAIN))
    ensures res == Ok ==> Framed(fp.fs.g, fp.fs.Vol(), fp.fs.winsect, fp.State())
    ensures res == Ok ==> (fp.Valid() <==> old(CutSafe(fp.fs.g, fp.State())))
    ensures res == Ok && old(fp.Tight()) ==> fp.Tight()
    ensures res == Ok ==> fp.written == (old(fp.written) || fp.fptr < old(fp.fsize))
    ensures res == Ok ==> CountKept(fp.fs)
    ensures fp.fs.drive.reliable && res == Ok && old(fp.fs.Mirrored()) ==> fp.fs.Mirrored()
    ensures res == Ok ==> fp.fs.winsect == old(fp.fs.winsect) || fp.fs.g.InFat(fp.fs.winsect)
  {
    hide FatMap, Times, Steady, Store, Sectors, Chained, Positioned, ClustersFor, Cut, FreeCount, CutChain, CutSafe;
    hide FatFs.Mirrored, FatFs.Valid, FatFs.Shape, FatFs.Vol, FatFs.Fat;
    CutNone(fp.fs.g, fp.State());
    ghost var v, w, f := fp.fs.Vol(), fp.fs.winsect, fp.State();
    FramedOk(fp.fs.g, v, w, f);
    res := Ok;
    if fp.failed {
      return IntErr;
    }
    if !fp.canWrite {
      return Denied;
    }
    if fp.fsize > fp.fptr {
      CutNothing(fp.fs.Fat(), fp.chain, Cut(fp.fs.g, END_OF_CHAIN));
      res := CutAtPointer(fp);
    }
    if res != Ok {
      fp.failed := true;
    } else {
      ExactOutside(fp.fs.g, v, w, f, fp.fs.Vol(), fp.State());
    }
  }

  // ----- the stranded buffer -----

  /** A buffer that a cut does not keep is left on a sector of a cluster that is free from then on. */
  lemma StrandedIsFree(g: Geometry, v: seq<Sector>, winsect: nat, f: FileState, n: nat, m: nat, eoc: dword)
    returns (c: nat)
    requires Steady(g, v, winsect, f) && f.chain != [] && n <= |f.chain| && eoc >= g.maxClust
    requires Clusters(g, f.chain[..n]) && !BufferKept(g, CutState(f, n, m))
    ensures IsChain(FatMap(g, v), f.chain) && IsCluster(g, c)
    ensures InCluster(g, c, f.dsect) && CutChain(FatMap(g, v), f.chain, n, eoc)[c] == 0
  {
    hide FatMap, Times, Sectors, CutChain;
    ChainFacts(g, v, f);
    CutChainFacts(FatMap(g, v), f.chain, n, eoc);
    InSectors(g, f.chain, f.dsect);
    InSectors(g, f.chain[..n], f.dsect);
    c :| c in f.chain && InCluster(g, c, f.dsect);
    var i :| 0 <= i < |f.chain| && f.chain[i] == c;
    KeptMember(f.chain, n, i);
  }

  /** The number of bytes of file sector j that lie below the file's size. */
  function SectorPart(fsize: nat, j: nat): (n: nat)
    ensures n <= 512
  {
    if fsize < 512 * j then 0 else if fsize < 512 * j + 512 then fsize - 512 * j else 512
  }

  /**
    What the stranded buffer does later: once another file e has taken the sector, writing the buffer back
    leaves the content of e as it was only if the buffer happens to hold just what e stored there.
   */
  lemma StrandedDamage(g: Geometry, v: seq<Sector>, e: FileState, j: nat, f: FileState)
    requires Chained(g, v, e) && Clusters(g, e.chain) && !e.dirty && j < |FileSectors(g, e)|
    requires f.dirty && f.dsect == FileSectors(g, e)[j]
    ensures Chained(g, FileVol(v, f), e) && f.dsect < |v|
    ensures Content(g, FileVol(v, f), e) == Content(g, v, e)
            <==> f.buf[..SectorPart(e.fsize, j)] == v[f.dsect][..SectorPart(e.fsize, j)]
  {
    DamageAt(g, v, e, j, f);
    hide FatMap, Times, Sectors, Content, Chained;
    SectorsDiffer(Content(g, v, e), Content(g, FileVol(v, f), e), f.buf, v[f.dsect], j);
  }

  /** The write-back stores the buffer over file sector j, and nothing else. */
  lemma DamageAt(g: Geometry, v: seq<Sector>, e: FileState, j: nat, f: FileState)
    requires Chained(g, v, e) && Clusters(g, e.chain) && !e.dirty && j < |FileSectors(g, e)|
    requires f.dirty && f.dsect == FileSectors(g, e)[j]
    ensures Chained(g, FileVol(v, f), e) && f.dsect < |v|
    ensures forall p :: 0 <= p < e.fsize ==>
              Content(g, FileVol(v, f), e)[p] == if p / 512 == j then f.buf[p % 512] else Content(g, v, e)[p]
    ensures forall p :: 0 <= p < e.fsize && p / 512 == j ==> Content(g, v, e)[p] == v[f.dsect][p % 512]
  {
    hide FatMap, Times, Sectors;
    ChainFacts(g, v, e);
    var ss := FileSectors(g, e);
    assert f.dsect in ss;
    DataLeavesFat(g, v, FileVol(v, f));
    forall p | 0 <= p < e.fsize
      ensures Content(g, FileVol(v, f), e)[p] == if p / 512 == j then f.buf[p % 512] else Content(g, v, e)[p]
    {
      BytesStore(v, ss, j, f.buf, p);
    }
  }

  /** Contents that differ in sector j only agree exactly if what they hold of it does. */
  lemma SectorsDiffer(a: seq<byte>, b: seq<byte>, x: Sector, y: Sector, j: nat)
    requires |a| == |b|
    requires forall p :: 0 <= p < |a| ==> b[p] == if p / 512 == j then x[p % 512] else a[p]
    requires forall p :: 0 <= p < |a| && p / 512 == j ==> a[p] == y[p % 512]
    ensures b == a <==> x[..SectorPart(|a|, j)] == y[..SectorPart(|a|, j)]
  {
    var n := SectorPart(|a|, j);
    if b == a {
      forall i | 0 <= i < n
        ensures x[i] == y[i]
      {
        DivUnique(512 * j + i, 512, j, i);
        assert b[512 * j + i] == a[512 * j + i];
      }
    } else if x[..n] == y[..n] {
      forall p | 0 <= p < |a| && p / 512 == j
        ensures b[p] == a[p]
      {
        assert x[..n][p % 512] == y[..n][p % 512];
      }
    }
  }

  lemma KeptMember(cs: seq<nat>, n: nat, i: nat)
    requires n <= |cs|
    ensures i < n ==> cs[i] in cs[..n]
  {
    if i < n {
      assert cs[..n][i] == cs[i];
    }
  }

  /** A FAT12 volume of two data clusters of one sector each: FAT in sector 1, root in 2, data in 3 and 4. */
  predicate SmallVolume(g: Geometry) {
    && g.fsType == FAT12 && g.csize == 1 && g.nFats == 1 && g.nRootdir == 16 && g.sectsFat == 1 && g.maxClust == 4
    && g.fatbase == 1 && g.dirbase == 2 && g.database == 3 && g.fsiSector == 0
  }

  /** Its table: cluster 2 is followed by cluster 3, which ends the chain. */
  predicate SmallImage(v: seq<Sector>) {
    |v| == 5 && v[1][3] == 0x03 && v[1][4] == 0xF0 && v[1][5] == 0xFF
  }

  /** A file of both clusters with the pointer behind the first one and a dirty buffer on the second. */
  function SmallFile(b: Sector): FileState {
    FileState([2, 3], 2, 1024, 512, 1, 2, 4, true, b, 2)
  }

  lemma SmallTimes(k: nat)
    ensures Times(0, k) == 0 && Times(1, k) == k && Times(2, k) == k + k
  {
    TimesIsProduct(1, k);
    TimesIsProduct(2, k);
  }

  lemma SmallFits(g: Geometry, v: seq<Sector>)
    requires SmallVolume(g) && SmallImage(v)
    ensures Fits(g, v) && g.FatEnd() == 2
  {
    SmallTimes(1);
    hide Times;
    assert PowerOfTwo(1);
  }

  lemma SmallEntries(g: Geometry, v: seq<Sector>)
    requires SmallVolume(g) && SmallImage(v) && Fits(g, v)
    ensures FatMap(g, v)[2] == 3 && FatMap(g, v)[3] == 0xFFF
  {
    hide Fits, FatMap;
    assert FatByte(g, v, 3) == 0x03 && FatByte(g, v, 4) == 0xF0 && FatByte(g, v, 5) == 0xFF;
    hide FatByte;
    assert Raw(g, v, 2) == 3 && Raw(g, v, 3) == 0xFFF;
    FatMapAt(g, v, 2);
    FatMapAt(g, v, 3);
  }

  lemma SmallSectors(g: Geometry, a: nat, b: nat)
    requires g.csize == 1 && IsCluster(g, a) && IsCluster(g, b)
    ensures Clusters(g, [a]) && Sectors(g, [a]) == [First(g, a)]
    ensures Clusters(g, [a, b]) && Sectors(g, [a, b]) == [First(g, a), First(g, b)]
  {
    hide First;
    var one, two := [a], [a, b];
    assert one[..0] == [] && two[..1] == one;
    assert Sectors(g, one[..0]) == [];
    assert Sectors(g, one) == Consecutive(First(g, a), 1);
    assert Sectors(g, two) == Sectors(g, one) + Consecutive(First(g, b), 1);
  }

  lemma SmallCut(g: Geometry)
    requires g.csize == 1
    ensures ClustersFor(g, 512) == 1
  {
    DivUnique(1023, 512, 1, 511);
  }

  lemma SmallEntry(g: Geometry, v: seq<Sector>)
    requires SmallVolume(g) && Fits(g, v)
    ensures EntryAllocated(g, v, 2)
  {
    hide FatMap, Fits, Times;
  }

  /**
    f_truncate does break the invariant: on this volume the file is proper and its buffer dirty, and after
    the cut at the pointer the buffer's sector is no longer one of the file's.
   */
  lemma TruncateStrands(g: Geometry, v: seq<Sector>, b: Sector)
    requires SmallVolume(g) && SmallImage(v)
    ensures var f := SmallFile(b);
            && FileOk(g, v, 0, f) && f.dirty && f.fptr < f.fsize
            && ClustersFor(g, f.fptr) == 1
            && !BufferKept(g, CutState(f, 1, f.fptr))
  {
    hide Positioned, Steady, ClustersFor, BufferKept, CutState;
    SmallFits(g, v);
    SmallSteady(g, v, b);
    SmallPosition(g, b);
    SmallCut(g);
    SmallStranded(g, b);
  }

  /** The invariant of a file whose sectors are known, with a dirty buffer and the pointer at a sector's start. */
  lemma SteadyOf(g: Geometry, v: seq<Sector>, f: FileState, ss: seq<nat>)
    requires Chained(g, v, f) && Clusters(g, f.chain) && Sectors(g, f.chain) == ss
    requires f.dirty && f.dsect in ss && f.dsect != 0 && f.fptr % 512 == 0
    requires 0 !in ss && f.dirSect !in ss && g.FatEnd() <= f.dirSect < |v| && EntryAllocated(g, v, f.dirSect)
    ensures Steady(g, v, 0, f)
  {
    hide FatMap, Sectors, Times;
    ChainFacts(g, v, f);
  }

  lemma SmallChained(g: Geometry, v: seq<Sector>, f: FileState)
    requires SmallVolume(g) && SmallImage(v) && Fits(g, v)
    requires f.chain == [2, 3] && f.orgClust == 2 && f.fsize == 1024
    ensures Chained(g, v, f)
  {
    SmallEntries(g, v);
    SmallTimes(1);
    SmallIsChain(FatMap(g, v), f.chain);
    hide FatMap, Fits, Times, IsChain;
  }

  lemma SmallIsChain(fat: seq<dword>, cs: seq<nat>)
    requires |fat| == 4 && fat[2] == 3 && fat[3] == 0xFFF && cs == [2, 3]
    ensures IsChain(fat, cs) && |cs| == 2
  {
  }

  lemma SmallSteady(g: Geometry, v: seq<Sector>, b: Sector)
    requires SmallVolume(g) && SmallImage(v) && Fits(g, v)
    ensures Steady(g, v, 0, SmallFile(b))
  {
    hide FatMap, Sectors, Fits, Times, First, Clusters, EntryAllocated, Chained, Steady;
    SmallChained(g, v, SmallFile(b));
    SmallSectors(g, 2, 3);
    SmallFirst(g);
    SmallEntry(g, v);
    SmallFits(g, v);
    SteadyOf(g, v, SmallFile(b), [First(g, 2), First(g, 3)]);
  }

  lemma SmallFirst(g: Geometry)
    requires SmallVolume(g)
    ensures First(g, 2) == 3 && First(g, 3) == 4
  {
    SmallTimes(1);
    hide Times;
  }

  lemma SmallPosition(g: Geometry, b: Sector)
    requires SmallVolume(g)
    ensures Positioned(g, SmallFile(b))
  {
    SmallTimes(1);
    hide Times;
    assert At(g, SmallFile(b), 0);
  }

  lemma NotKept(g: Geometry, f: FileState, n: nat, m: nat, ss: seq<nat>)
    requires n <= |f.chain| && Clusters(g, f.chain[..n]) && Sectors(g, f.chain[..n]) == ss
    requires f.dirty && f.dsect != 0 && f.dsect !in ss
    ensures !BufferKept(g, CutState(f, n, m))
  {
    hide Sectors, Times;
  }

  lemma SmallStranded(g: Geometry, b: Sector)
    requires SmallVolume(g)
    ensures !BufferKept(g, CutState(SmallFile(b), 1, 512))
  {
    hide Sectors, Times, First, Clusters, BufferKept, CutState, SmallFile;
    SmallPrefix(b);
    SmallSectors(g, 2, 3);
    SmallFirst(g);
    NotKept(g, SmallFile(b), 1, 512, [First(g, 2)]);
  }

  lemma SmallPrefix(b: Sector)
    ensures SmallFile(b).chain == [2, 3] && SmallFile(b).chain[..1] == [2] && SmallFile(b).dsect == 4 && SmallFile(b).dirty
  {
  }

  /** There is such a volume. */
  lemma SmallExists() returns (g: Geometry, v: seq<Sector>)
    ensures SmallVolume(g) && SmallImage(v)
  {
    g := Geometry(FAT12, 1, 1, 16, 1, 4, 1, 2, 3, 0);
    var s: Sector := Words.Blank()[3 := 0x03][4 := 0xF0][5 := 0xFF];
    v := [Words.Blank(), s, Words.Blank(), Words.Blank(), Words.Blank()];
  }
}
