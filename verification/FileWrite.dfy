/** f_write: storing bytes at the pointer, growing the cluster chain where it ends. */
module FileWrite {
  import opened Words
  import opened Layout
  import opened Codec
  import opened Disk
  import opened Chains
  import opened FileSystem
  import opened Allocation
  import opened FileData
  import opened FileStates
  import opened FileSteps
  import opened FileGrow
  import opened Files

  /** On a drive without failures the invariant holds; otherwise nothing is claimed. */
  ghost predicate Good(fp: File)
    reads fp, fp.buf, fp.fs`winsect, fp.fs`wflag, fp.fs`fsiFlag, fp.fs`lastClust, fp.fs`freeClust, fp.fs.win, fp.fs.drive
  {
    fp.fs.drive.reliable && fp.IsSteady()
  }

  /** clst is the cluster in front of chain position ci, or 0 in front of an empty chain. */
  ghost predicate InFront(chain: seq<nat>, ci: nat, clst: nat) {
    if ci == 0 then chain == [] && clst == 0 else ci <= |chain| && clst == chain[ci - 1]
  }

  /** The chain grew, if at all, and the bytes the file had are still there. */
  ghost predicate Grew(g: Geometry, v: seq<Sector>, f: FileState, v': seq<Sector>, f': FileState)
  {
    && Chained(g, v, f) && Chained(g, v', f')
    && Clusters(g, f'.chain)
    && Extends(g, v, v', f.chain, f'.chain)
    && Store(g, v, f) <= Store(g, v', f')
    && OnlyIn(g, v, v', FileSectors(g, f'))
  }

  /** A clean buffer is right if and only if it holds the file's bytes there. */
  lemma RightStore(g: Geometry, v: seq<Sector>, f: FileState, n: nat)
    requires Chained(g, v, f) && Clusters(g, f.chain) && !f.dirty
    ensures |Store(g, v, f)| == 512 * |FileSectors(g, f)|
    ensures RightTo(g, v, f, n) <==>
              forall j, i :: 0 <= j < |FileSectors(g, f)| && FileSectors(g, f)[j] == f.dsect && 0 <= i < 512 && 512 * j + i < n ==>
                f.buf[i] == Store(g, v, f)[512 * j + i]
  {
    hide FatMap, Times, Sectors, Chained;
    ChainFacts(g, v, f);
    forall j, i | 0 <= j < |FileSectors(g, f)| && FileSectors(g, f)[j] == f.dsect && 0 <= i < 512
      ensures f.dsect < |v| && Store(g, v, f)[512 * j + i] == v[f.dsect][i]
    {
      DivUnique(512 * j + i, 512, j, i);
    }
  }

  /** A longer chain has no byte of the file in its new sectors: the buffer is as right as before. */
  lemma GrewRight(g: Geometry, v: seq<Sector>, f: FileState, v': seq<Sector>, f': FileState, n: nat)
    requires Grew(g, v, f, v', f') && n <= |Store(g, v, f)| && Clusters(g, f.chain) && RightTo(g, v, f, n)
    requires f'.dirty == f.dirty && f'.dsect == f.dsect && f'.buf == f.buf
    ensures RightTo(g, v', f', n)
  {
    hide FatMap, Times, Sectors, Chained, Store, RightTo, Extends, OnlyIn;
    if f.dirty {
      DirtyRight(g, v', f', n);
    } else {
      RightStore(g, v, f, n);
      RightStore(g, v', f', n);
      GrewSectors(g, v, f, v', f');
      forall j, i | 0 <= j < |FileSectors(g, f')| && FileSectors(g, f')[j] == f'.dsect && 0 <= i < 512 && 512 * j + i < n
        ensures f'.buf[i] == Store(g, v', f')[512 * j + i]
      {
        assert FileSectors(g, f)[j] == f.dsect;
        assert Store(g, v', f')[512 * j + i] == Store(g, v, f)[512 * j + i];
      }
    }
  }

  lemma GrewSectors(g: Geometry, v: seq<Sector>, f: FileState, v': seq<Sector>, f': FileState)
    requires Grew(g, v, f, v', f') && Clusters(g, f.chain)
    ensures FileSectors(g, f) <= FileSectors(g, f')
  {
    hide FatMap, Times, Sectors, Store, OnlyIn, Chained;
    SectorsPrefix(g, f.chain, f'.chain);
  }

  /** A change of the table only leaves the buffer's sector alone. */
  lemma ExactOutside(g: Geometry, v: seq<Sector>, winsect: nat, f: FileState, v': seq<Sector>, f': FileState)
    requires Steady(g, v, winsect, f) && SameOutsideFat(g, v, v')
    requires f'.dirty == f.dirty && f'.dsect == f.dsect && f'.buf == f.buf
    ensures Exact(v, f) ==> Exact(v', f')
  {
    hide FatMap, Times, Sectors;
    ChainFacts(g, v, f);
    DataBase(g);
  }

  lemma DirtyRight(g: Geometry, v: seq<Sector>, f: FileState, n: nat)
    requires Clusters(g, f.chain) && f.dirty
    ensures RightTo(g, v, f, n)
  {
    hide Sectors;
  }

  /** Where the search for a new cluster of chain cs starts: behind its end, or at the hint for an empty one. */
  function SearchFrom(cs: seq<nat>, hint: nat): nat {
    if cs == [] then hint else cs[|cs| - 1]
  }

  /** The chain is as it was, or has taken the first free cluster; the volume changed in the table only. */
  ghost predicate Took(g: Geometry, hint: nat, v: seq<Sector>, cs: seq<nat>, v': seq<Sector>, cs': seq<nat>) {
    && Fits(g, v) && Fits(g, v') && SameOutsideFat(g, v, v')
    && if |cs'| == |cs| then cs' == cs && FatMap(g, v') == FatMap(g, v)
       else
         && |cs'| == |cs| + 1 && cs' == cs + [cs'[|cs|]] && cs'[|cs|] < 0x1_0000_0000
         && FirstFree(FatMap(g, v), SearchFrom(cs, hint), cs'[|cs|]) && EndOf(cs) < g.maxClust
         && FatMap(g, v') == Linked(FatMap(g, v), EndOf(cs), cs'[|cs|], Cut(g, END_OF_CHAIN))
  }

  lemma TookOutcome(g: Geometry, v: seq<Sector>, winsect: nat, f: FileState, ci: nat, clst: dword, hint: nat,
                    v': seq<Sector>, r: dword, cs: seq<nat>)
    requires Steady(g, v, winsect, f) && Fits(g, v') && SameOutsideFat(g, v, v')
    requires InFront(f.chain, ci, clst)
    requires Created(FatMap(g, v), clst, if clst != 0 then clst else hint, Cut(g, END_OF_CHAIN), FatMap(g, v'), r)
    requires cs == if r >= 2 && ci == |f.chain| then f.chain + [r] else f.chain
    ensures Took(g, hint, v, f.chain, v', cs)
  {
    hide FatMap, Times, Sectors, Linked, Cut, FirstFree, AllUsed, HasBadEntry, Steady;
    FrontUsed(g, v, winsect, f, ci, clst);
    SteadyFacts(g, v, winsect, f);
    if f.chain != [] && ci == |f.chain| {
      assert EndOf(f.chain) == clst;
    }
  }

  /** What create_chain reports, given the cluster in front of position ci, in terms of the file. */
  lemma StretchOutcome(g: Geometry, v: seq<Sector>, winsect: nat, f: FileState, ci: nat, clst: dword, scl: nat,
                       v': seq<Sector>, winsect': nat, r: dword)
    returns (cs: seq<nat>)
    requires Steady(g, v, winsect, f) && Fits(g, v') && SameOutsideFat(g, v, v')
    requires InFront(f.chain, ci, clst)
    requires Created(FatMap(g, v), clst, scl, Cut(g, END_OF_CHAIN), FatMap(g, v'), r)
    requires g.InFat(winsect') || (r < 2 && winsect' == winsect)
    ensures r == 0 ==> AllUsed(FatMap(g, v)) && cs == f.chain && Steady(g, v', winsect', f) && Grew(g, v, f, v', f)
    ensures r == 1 ==> HasBadEntry(FatMap(g, v))
    ensures r < 2 ==> ci == |f.chain|
    ensures f.orgClust == Head(f.chain)
    ensures cs == if r >= 2 && ci == |f.chain| then f.chain + [r] else f.chain
    ensures r >= 2 ==> f.chain <= cs && ci < |cs| && cs[ci] == r
                       && Steady(g, v', winsect', f.(chain := cs, orgClust := Head(cs)))
                       && Grew(g, v, f, v', f.(chain := cs, orgClust := Head(cs)))
  {
    hide FatMap, Times, Sectors, Linked, Cut, Steady, Store, OnlyIn, Extends;
    EndMark(g);
    FrontUsed(g, v, winsect, f, ci, clst);
    cs := f.chain;
    if r >= 2 {
      if ci < |f.chain| {
        StretchFollows(g, v, winsect, f, ci, clst, scl, v', winsect', r);
      } else {
        StretchGrows(g, v, winsect, f, ci, clst, scl, v', winsect', r);
        cs := f.chain + [r];
      }
    } else if r == 0 {
      FatOnly(g, v, winsect, f, v', winsect');
    }
  }

  lemma FrontUsed(g: Geometry, v: seq<Sector>, winsect: nat, f: FileState, ci: nat, clst: nat)
    requires Steady(g, v, winsect, f) && InFront(f.chain, ci, clst)
    ensures clst == 0 || (IsCluster(g, clst) && FatMap(g, v)[clst] >= 2)
    ensures clst == 0 <==> ci == 0
    ensures f.orgClust == Head(f.chain)
    ensures 0 < ci < |f.chain| ==> FatMap(g, v)[clst] == f.chain[ci] && IsCluster(g, f.chain[ci])
    ensures 0 < ci == |f.chain| ==> FatMap(g, v)[clst] >= g.maxClust
  {
    hide FatMap, Times, Sectors;
    if ci > 0 {
      ChainUsed(FatMap(g, v), f.chain, clst);
    }
  }

  lemma StretchFollows(g: Geometry, v: seq<Sector>, winsect: nat, f: FileState, ci: nat, clst: dword, scl: nat,
                       v': seq<Sector>, winsect': nat, r: dword)
    requires Steady(g, v, winsect, f) && Fits(g, v') && SameOutsideFat(g, v, v')
    requires InFront(f.chain, ci, clst) && ci < |f.chain|
    requires Created(FatMap(g, v), clst, scl, Cut(g, END_OF_CHAIN), FatMap(g, v'), r) && r >= 2
    requires g.InFat(winsect')
    ensures f.chain[ci] == r && f.orgClust == Head(f.chain)
    ensures Steady(g, v', winsect', f) && Grew(g, v, f, v', f)
  {
    hide FatMap, Times, Sectors, Linked, Cut;
    assert FatMap(g, v') == FatMap(g, v) && r == f.chain[ci] by {
      assert FatMap(g, v)[f.chain[ci - 1]] == f.chain[ci];
    }
    FatOnly(g, v, winsect, f, v', winsect');
  }

  /** A volume that differs in bytes of the FAT sectors only, with the same table, is as good. */
  lemma FatOnly(g: Geometry, v: seq<Sector>, winsect: nat, f: FileState, v': seq<Sector>, winsect': nat)
    requires Steady(g, v, winsect, f) && Fits(g, v') && SameOutsideFat(g, v, v')
    requires FatMap(g, v') == FatMap(g, v) && (winsect' == winsect || g.InFat(winsect'))
    ensures Steady(g, v', winsect', f) && Grew(g, v, f, v', f)
  {
    hide FatMap, Times, Sectors;
    ChainFacts(g, v, f);
    BytesAgree(FileVol(v, f), FileVol(v', f), FileSectors(g, f));
    ExtendsSame(g, v, v', f.chain);
  }

  lemma StretchGrows(g: Geometry, v: seq<Sector>, winsect: nat, f: FileState, ci: nat, clst: dword, scl: nat,
                     v': seq<Sector>, winsect': nat, r: dword)
    requires Steady(g, v, winsect, f) && Fits(g, v') && SameOutsideFat(g, v, v')
    requires InFront(f.chain, ci, clst) && ci == |f.chain|
    requires Created(FatMap(g, v), clst, scl, Cut(g, END_OF_CHAIN), FatMap(g, v'), r) && r >= 2
    requires g.InFat(winsect')
    ensures var f' := f.(chain := f.chain + [r], orgClust := Head(f.chain + [r]));
            Steady(g, v', winsect', f') && Grew(g, v, f, v', f')
  {
    hide FatMap, Times, Sectors, Linked, Cut;
    EndMark(g);
    ChainFacts(g, v, f);
    if f.chain != [] {
      assert FatMap(g, v)[f.chain[|f.chain| - 1]] >= g.maxClust;
    }
    GrowKeeps(g, v, winsect, f, v', winsect', r, Cut(g, END_OF_CHAIN));
    hide Steady;
    SteadyFacts(g, v', winsect', f.(chain := f.chain + [r], orgClust := Head(f.chain + [r])));
  }

  /** create_chain on behalf of a file: the cluster at position ci of its chain, followed or newly taken. */
  method FollowOrStretch(fp: File, clst: dword, ghost ci: nat) returns (r: dword)
    requires fp.Shape()
    modifies fp`chain
    modifies fp.fs`winsect, fp.fs`wflag, fp.fs`fsiFlag, fp.fs`freeClust, fp.fs`lastClust, fp.fs.win, fp.fs.drive
    ensures |fp.fs.drive.sectors| == old(|fp.fs.drive.sectors|)
    ensures r != DISK_ERROR ==> fp.Shape()
    ensures r == DISK_ERROR || r <= 1 || IsCluster(fp.fs.g, r)
    ensures fp.fs.drive.reliable ==> r != DISK_ERROR
    ensures old(Good(fp)) && InFront(old(fp.chain), ci, clst) ==> fp.fs.Valid() && StretchedTo(fp.fs.g,
              old(fp.fs.Vol()), old(fp.State()), ci, fp.fs.Vol(), fp.fs.winsect, fp.State(), r)
    ensures old(Good(fp)) && InFront(old(fp.chain), ci, clst) && r == 0 ==> fp.IsSteady()
    ensures old(Good(fp)) && InFront(old(fp.chain), ci, clst) ==>
              fp.chain == if r >= 2 && ci == |old(fp.chain)| then old(fp.chain) + [r] else old(fp.chain)
    ensures old(Good(fp)) && InFront(old(fp.chain), ci, clst) ==>
              Took(fp.fs.g, old(StartPoint(fp.fs, 0)), old(fp.fs.Vol()), old(fp.chain), fp.fs.Vol(), fp.chain)
    ensures old(Good(fp)) ==> Upkeep(fp.fs)
    ensures old(Good(fp)) ==> fp.fs.winsect == old(fp.fs.winsect) || fp.fs.g.InFat(fp.fs.winsect)
  {
    hide FatMap, Times, Steady, Store, Sectors, Chained, Created, Grew, AllUsed, HasBadEntry, Cut, CountRight, Took;
    hide FatFs.Mirrored, FatFs.Valid, FatFs.Shape, FatFs.Vol, FatFs.Fat;
    ghost var v, w, f, scl := fp.fs.Vol(), fp.fs.winsect, fp.State(), StartPoint(fp.fs, clst);
    ghost var hint := StartPoint(fp.fs, 0);
    ghost var good := Good(fp) && InFront(fp.chain, ci, clst);
    r := CreateChain(fp.fs, clst);
    if good {
      ghost var cs := StretchOutcome(fp.fs.g, v, w, f, ci, clst, scl, fp.fs.Vol(), fp.fs.winsect, r);
      TookOutcome(fp.fs.g, v, w, f, ci, clst, hint, fp.fs.Vol(), r, cs);
      fp.chain := cs;
    }
  }

  /** The outcome of following or stretching the chain to position ci. */
  ghost predicate StretchedTo(g: Geometry, v: seq<Sector>, f: FileState, ci: nat,
                              v': seq<Sector>, winsect': nat, f': FileState, r: dword)
    requires Fits(g, v)
  {
    var h := f'.(orgClust := Head(f'.chain));
    && f' == f.(chain := f'.chain)
    && (r < 2 ==> ci == |f.chain|)
    && (r == 0 ==> AllUsed(FatMap(g, v)) && f' == f)
    && (r == 1 ==> HasBadEntry(FatMap(g, v)))
    && (r != 1 ==> Steady(g, v', winsect', h) && Grew(g, v, f, v', h))
    && (r >= 2 ==> f.chain <= f'.chain && ci < |f'.chain| && f'.chain[ci] == r)
  }

  /** Where a pointer on a cluster boundary stands in the chain. */
  lemma Boundary(g: Geometry, v: seq<Sector>, winsect: nat, f: FileState) returns (ci: nat)
    requires Steady(g, v, winsect, f) && Positioned(g, f) && f.fptr % 512 == 0
    ensures f.csect < g.csize ==> Entering(g, f, ci) && Enters(g, f)
    ensures f.csect >= g.csize ==> OnBoundary(g, f, ci) && f.fptr == 512 * Times(ci, g.csize)
  {
    hide FatMap, Fits, Sectors, Buffered, Placed;
    if f.fptr == 0 {
      ci := 0;
      assert Times(0, g.csize) == 0;
    } else {
      var c: nat :| At(g, f, c);
      hide Times;
      AtEnters(g, f, c);
      assert At(g, f, c);
      ci := if f.csect < g.csize then c else c + 1;
    }
  }

  lemma EntersCluster(g: Geometry, f: FileState, ci: nat)
    requires g.Valid() && ci < |f.chain| && f.currClust == f.chain[ci] && f.csect == 0
    requires f.fptr == 512 * Times(ci, g.csize)
    ensures Entering(g, f, ci) && Enters(g, f)
  {
    assert Entering(g, f, ci);
  }

  lemma GrewMoves(g: Geometry, v: seq<Sector>, f: FileState, v': seq<Sector>, winsect: nat, h: FileState, f': FileState)
    requires Steady(g, v', winsect, h) && Grew(g, v, f, v', h)
    requires f' == h.(csect := f'.csect, currClust := f'.currClust, fptr := f'.fptr)
    requires f'.fptr == h.fptr || f'.fptr % 512 == 0
    ensures Steady(g, v', winsect, f') && Grew(g, v, f, v', f')
  {
    hide FatMap, Times, Sectors;
  }

  lemma GrewSame(g: Geometry, v: seq<Sector>, winsect: nat, f: FileState)
    requires Steady(g, v, winsect, f)
    ensures Grew(g, v, f, v, f)
  {
    hide FatMap, Times, Sectors;
    ChainFacts(g, v, f);
    ExtendsSame(g, v, v, f.chain);
  }

  /** The pointer is on a cluster boundary in front of chain position ci. */
  ghost predicate OnBoundary(g: Geometry, f: FileState, ci: nat) {
    && ci <= |f.chain| && f.fptr == 512 * Times(ci, g.csize)
    && (ci == 0 <==> f.fptr == 0)
    && (ci > 0 ==> f.currClust == f.chain[ci - 1])
    && f.orgClust == Head(f.chain) && (f.orgClust == 0 <==> f.chain == [])
  }

  /** The cluster a write at a cluster boundary goes to: 0 full volume, 1 bad table, DISK_ERROR failure. */
  method ClusterForWrite(fp: File, ghost ci: nat) returns (clst: dword)
    requires fp.Shape()
    modifies fp`chain, fp`orgClust
    modifies fp.fs`winsect, fp.fs`wflag, fp.fs`fsiFlag, fp.fs`freeClust, fp.fs`lastClust, fp.fs.win, fp.fs.drive
    ensures |fp.fs.drive.sectors| == old(|fp.fs.drive.sectors|)
    ensures clst != DISK_ERROR ==> fp.Shape()
    ensures old(Good(fp)) && OnBoundary(fp.fs.g, old(fp.State()), ci) ==>
              clst != DISK_ERROR && (clst == 1 ==> HasBadEntry(old(fp.fs.Fat())))
    ensures old(Good(fp)) && OnBoundary(fp.fs.g, old(fp.State()), ci) && clst != 1 ==>
              fp.IsSteady() && Grew(fp.fs.g, old(fp.fs.Vol()), old(fp.State()), fp.fs.Vol(), fp.State())
    ensures old(Good(fp)) && OnBoundary(fp.fs.g, old(fp.State()), ci) && clst == 0 ==>
              AllUsed(old(fp.fs.Fat())) && fp.State() == old(fp.State()) && ci == |fp.chain|
    ensures old(Good(fp)) && OnBoundary(fp.fs.g, old(fp.State()), ci) && clst >= 2 ==>
              ci < |fp.chain| && fp.chain[ci] == clst && old(fp.chain) <= fp.chain
    ensures old(Good(fp)) && OnBoundary(fp.fs.g, old(fp.State()), ci) ==>
              fp.fs.Shape() && SameOutsideFat(fp.fs.g, old(fp.fs.Vol()), fp.fs.Vol())
    ensures clst != DISK_ERROR && old(Good(fp)) ==> Upkeep(fp.fs)
    ensures old(Good(fp)) ==> fp.fs.winsect == old(fp.fs.winsect) || fp.fs.g.InFat(fp.fs.winsect)
  {
    hide FatMap, Times, Steady, Store, Sectors, Chained, Grew, AllUsed, HasBadEntry, CountRight;
    hide FatFs.Mirrored, FatFs.Valid, FatFs.Shape, FatFs.Vol, FatFs.Fat;
    if Good(fp) {
      GrewSame(fp.fs.g, fp.fs.Vol(), fp.fs.winsect, fp.State());
    }
    if fp.fptr == 0 {
      clst := fp.orgClust;
      if clst == 0 {
        clst := FollowOrStretch(fp, 0, 0);
        fp.orgClust := clst;
      }
    } else {
      clst := FollowOrStretch(fp, fp.currClust, ci);
    }
  }

  /** The pointer is at the end of what the clusters can hold. */
  ghost predicate AtEnd(fp: File)
    reads fp`fptr, fp`chain
  {
    fp.fptr == 512 * Times(|fp.chain|, fp.fs.g.csize)
  }

  /** The cluster-boundary step of f_write; full when the volume has no cluster left. */
  method EnterForWrite(fp: File) returns (res: FResult, full: bool)
    requires fp.Shape()
    modifies fp`chain, fp`orgClust, fp`currClust, fp`csect
    modifies fp.fs`winsect, fp.fs`wflag, fp.fs`fsiFlag, fp.fs`freeClust, fp.fs`lastClust, fp.fs.win, fp.fs.drive
    ensures |fp.fs.drive.sectors| == old(|fp.fs.drive.sectors|)
    ensures res == Ok || res == DiskErr || res == IntErr
    ensures res != DiskErr ==> fp.Shape()
    ensures old(Ready(fp)) ==> res != DiskErr && (res == IntErr ==> HasBadEntry(old(fp.fs.Fat())))
    ensures old(Ready(fp)) && res == Ok ==>
              fp.IsSteady() && Grew(fp.fs.g, old(fp.fs.Vol()), old(fp.State()), fp.fs.Vol(), fp.State())
    ensures old(Ready(fp)) && res == Ok && full ==> AllUsed(old(fp.fs.Fat())) && fp.State() == old(fp.State()) && AtEnd(fp)
    ensures old(Ready(fp)) && res == Ok && !full ==> Enters(fp.fs.g, fp.State())
    ensures old(Ready(fp)) && res == Ok ==> RightTo(fp.fs.g, fp.fs.Vol(), fp.State(), Limit(fp.State()))
    ensures old(Ready(fp)) && res == Ok ==> SameOutsideFat(fp.fs.g, old(fp.fs.Vol()), fp.fs.Vol())
    ensures res == Ok && !full ==> fp.csect < fp.fs.g.csize
    ensures fp.fptr == old(fp.fptr)
    ensures res != DiskErr && old(Good(fp)) ==> Upkeep(fp.fs)
    ensures old(Good(fp)) ==> fp.fs.winsect == old(fp.fs.winsect) || fp.fs.g.InFat(fp.fs.winsect)
  {
    hide FatMap, Times, Steady, Store, Sectors, Chained, Grew, AllUsed, HasBadEntry, CountRight, Positioned, OnBoundary, RightTo;
    hide FatFs.Mirrored, FatFs.Valid, FatFs.Shape, FatFs.Vol, FatFs.Fat;
    ghost var good := Ready(fp);
    ghost var v, w, f := fp.fs.Vol(), fp.fs.winsect, fp.State();
    ghost var ci: nat := 0;
    if good {
      ci := Boundary(fp.fs.g, v, fp.fs.winsect, f);
      GrewSame(fp.fs.g, v, fp.fs.winsect, f);
    }
    if fp.csect >= fp.fs.g.csize {
      var clst := ClusterForWrite(fp, ci);
      if clst == DISK_ERROR {
        return DiskErr, false;
      }
      if clst == 0 {
        if good {
          LimitFits(fp.fs.g, v, w, f);
          GrewRight(fp.fs.g, v, f, fp.fs.Vol(), fp.State(), Limit(f));
        }
        return Ok, true;
      }
      if clst == 1 {
        return IntErr, false;
      }
      ghost var h := fp.State();
      fp.currClust := clst;
      fp.csect := 0;
      if good {
        GrewMoves(fp.fs.g, v, f, fp.fs.Vol(), fp.fs.winsect, h, fp.State());
        LimitFits(fp.fs.g, v, w, f);
        GrewRight(fp.fs.g, v, f, fp.fs.Vol(), fp.State(), Limit(f));
        EntersCluster(fp.fs.g, fp.State(), ci);
      }
    }
    return Ok, false;
  }

  /** With the pointer inside the file, the invariant makes the buffer right. */
  lemma SteadyRight(g: Geometry, v: seq<Sector>, winsect: nat, f: FileState)
    requires Steady(g, v, winsect, f)
    ensures Clusters(g, f.chain) && (f.fptr <= f.fsize ==> RightTo(g, v, f, Limit(f)))
  {
    hide FatMap, Times, Sectors, RightTo, Placed;
    ChainFacts(g, v, f);
  }

  lemma LimitFits(g: Geometry, v: seq<Sector>, winsect: nat, f: FileState)
    requires Steady(g, v, winsect, f) && Positioned(g, f)
    ensures Chained(g, v, f) && Limit(f) <= |Store(g, v, f)|
  {
    hide FatMap, Times, Sectors, Store, Positioned;
    PositionFits(g, v, f);
    SizeFits(g, v, f);
  }

  /** A write may go on at a sector boundary: the invariant holds and the drive does not fail. */
  ghost predicate Ready(fp: File)
    reads fp, fp.buf, fp.fs`winsect, fp.fs`wflag, fp.fs`fsiFlag, fp.fs`lastClust, fp.fs`freeClust, fp.fs.win, fp.fs.drive
  {
    Passable(fp) && fp.fptr % 512 == 0
  }

  /** The row of cc sectors at sect is in the data area, away from the window, and the 32-bit test finds the buffered one in it. */
  ghost predicate Targeted(fp: File, sect: nat, cc: nat)
    reads fp`dsect, fp`dirty, fp.fs`winsect, fp.fs`wflag, fp.fs`fsiFlag, fp.fs`lastClust, fp.fs`freeClust, fp.fs.win, fp.fs.drive
  {
    && fp.fs.Valid() && fp.fs.drive.reliable && !fp.dirty
    && fp.fs.g.FatEnd() <= sect && sect + cc <= |fp.fs.Vol()| && !(sect <= fp.fs.winsect < sect + cc)
    && (DwordSub(fp.dsect, sect) < cc <==> sect <= fp.dsect < sect + cc)
    && (sect <= fp.dsect < sect + cc ==> DwordSub(fp.dsect, sect) == fp.dsect - sect)
  }

  /** The transfer itself, and the refresh of the buffer. */
  method SendSectors(fp: File, sect: nat, x: seq<byte>, cc: nat) returns (ok: bool)
    requires fp.Shape() && |x| == 512 * cc && cc > 0
    modifies fp`dirty, fp.buf, fp.fs.drive
    ensures |fp.fs.drive.sectors| == old(|fp.fs.drive.sectors|) && fp.Shape()
    ensures old(Targeted(fp, sect, cc)) ==>
              ok && fp.fs.Valid() && !fp.dirty && |fp.fs.Vol()| == old(|fp.fs.Vol()|) >= sect + cc
              && fp.fs.Vol() == Overwrite(old(fp.fs.Vol()), sect, x)
              && fp.buf[..] == (if sect <= fp.dsect < sect + cc then x[512 * (fp.dsect - sect)..512 * (fp.dsect - sect) + 512]
                                else old(fp.buf[..]))
    ensures old(Targeted(fp, sect, cc) && fp.fs.Mirrored()) ==> fp.fs.Mirrored()
  {
    hide Overwrite, DwordSub, FatMap, Times;
    hide FatFs.Mirrored, FatFs.Valid, FatFs.Shape, FatFs.Vol, FatFs.Fat;
    ok := fp.fs.WriteDataRun(x, sect);
    if ok {
      var d := DwordSub(fp.dsect, sect);
      if d < cc {
        MemCpyWhole(fp.buf, x, 512 * d);
        fp.dirty := false;
      }
    }
  }

  /** The direct transfer of f_write: as many of the wanted sectors as the cluster still has. */
  method PutSectors(fp: File, sect: nat, data: seq<byte>, off: nat, count: nat) returns (res: FResult, wcnt: nat)
    requires fp.Shape() && fp.csect < fp.fs.g.csize && 0 < count && off + 512 * count <= |data|
    requires fp.fptr + 512 * count < 0x1_0000_0000
    modifies fp`csect, fp`fptr, fp`dirty, fp.buf, fp.fs.drive
    ensures |fp.fs.drive.sectors| == old(|fp.fs.drive.sectors|)
    ensures res == Ok || res == DiskErr
    ensures fp.Shape()
    ensures res == Ok ==> 0 < wcnt <= 512 * count && fp.fptr == old(fp.fptr) + wcnt
    ensures old(Direct(fp, sect)) ==>
              res == Ok && Passable(fp)
              && Progress(fp.fs.g, old(fp.fs.Vol()), old(fp.State()), data[off..off + wcnt], fp.fs.Vol(), fp.State())
    ensures old(Direct(fp, sect) && fp.Tight()) ==> fp.Tight()
    ensures old(Direct(fp, sect)) ==> fp.fs.Fat() == old(fp.fs.Fat())
    ensures old(Direct(fp, sect)) && old(fp.fs.Mirrored()) ==> fp.fs.Mirrored()
  {
    hide FatMap, Times, Steady, Store, Sectors, Chained, Positioned, Enters, Progress, Overwrite, InRow, DwordSub, Clusters, RightTo, Exact;
    hide FatFs.Mirrored, FatFs.Valid, FatFs.Shape, FatFs.Vol, FatFs.Fat;
    ghost var good := Direct(fp, sect);
    ghost var v, w, f := fp.fs.Vol(), fp.fs.winsect, fp.State();
    var cc := count;
    if fp.csect + cc > fp.fs.g.csize {
      cc := fp.fs.g.csize - fp.csect;
    }
    wcnt := 512 * cc;
    var x := data[off..off + wcnt];
    if good {
      DirectReady(fp.fs.g, v, w, f, sect, cc);
    }
    var ok := SendSectors(fp, sect, x, cc);
    if !ok {
      return DiskErr, 0;
    }
    fp.csect := fp.csect + cc;
    fp.fptr := fp.fptr + wcnt;
    if good {
      DirectDone(fp.fs.g, v, w, f, sect, x, cc, fp.State());
    }
    return Ok, wcnt;
  }

  /** mem_cpy of a whole sector into a sector buffer. */
  method MemCpyWhole(buf: array<byte>, src: seq<byte>, off: nat)
    requires buf.Length == 512 && off + 512 <= |src|
    modifies buf
    ensures buf[..] == src[off..off + 512]
  {
    MemCpy(buf, 0, src, off, 512);
  }

  /** A direct transfer refreshes the buffer, or passes it by. */
  lemma DirectRight(g: Geometry, v: seq<Sector>, f: FileState, sect: nat, data: seq<byte>, f': FileState)
    requires Chained(g, v, f) && Clusters(g, f.chain) && !f.dirty && f.fptr % 512 == 0 && RightTo(g, v, f, Limit(f))
    requires |data| % 512 == 0 && InRow(FileSectors(g, f), f.fptr / 512, sect, |data| / 512) && sect + |data| / 512 <= |v|
    requires f' == f.(buf := f'.buf, csect := f'.csect, fptr := f.fptr + |data|)
    requires f'.buf == if sect <= f.dsect < sect + |data| / 512
                       then data[512 * (f.dsect - sect)..512 * (f.dsect - sect) + 512] else f.buf
    ensures RightTo(g, Overwrite(v, sect, data), f', Limit(f'))
    ensures Exact(v, f) ==> Exact(Overwrite(v, sect, data), f')
  {
    hide FatMap, Times, Sectors, Chained;
    ChainFacts(g, v, f);
    var q, n := f.fptr / 512, |data| / 512;
    if !(sect <= f.dsect < sect + n) {
      forall j | 0 <= j < |FileSectors(g, f)| && FileSectors(g, f)[j] == f.dsect && f.dsect < |v|
        ensures Alike(f.buf, v[f.dsect], j, Limit(f'))
      {
        assert !(q <= j < q + n);
      }
    }
  }

  /** The direct transfer, seen from the file. */
  lemma DirectDone(g: Geometry, v: seq<Sector>, winsect: nat, f: FileState, sect: nat, x: seq<byte>, cc: nat, f': FileState)
    requires Steady(g, v, winsect, f) && Enters(g, f) && !f.dirty && f.currClust < 0x1_0000_0000
    requires Clusters(g, f.chain) && RightTo(g, v, f, Limit(f))
    requires sect == Clust2Sect(g, f.currClust) + f.csect && 0 < cc <= g.csize - f.csect && |x| == 512 * cc
    requires sect + cc <= |v|
    requires f' == f.(buf := f'.buf, csect := f.csect + cc, fptr := f.fptr + |x|)
    requires f'.buf == if sect <= f.dsect < sect + cc then x[512 * (f.dsect - sect)..512 * (f.dsect - sect) + 512] else f.buf
    ensures var v' := Overwrite(v, sect, x);
            && Steady(g, v', winsect, f') && Positioned(g, f') && Fits(g, v') && FatMap(g, v') == FatMap(g, v)
            && Progress(g, v, f, x, v', f') && RightTo(g, v', f', Limit(f'))
            && (Exact(v, f) ==> Exact(v', f'))
  {
    hide FatMap, Times, Steady, Store, Sectors, Chained, Positioned, Enters, Progress, Overwrite, InRow, DwordSub, Clusters, RightTo, Exact;
    DirectReady(g, v, winsect, f, sect, cc);
    DirectProgress(g, v, winsect, f, sect, x, f');
    DirectRight(g, v, f, sect, x, f');
    EnterMoves(g, f, f'.(buf := f.buf), cc, |x|);
    PositionedSame(g, f'.(buf := f.buf), f');
  }

  /** A direct transfer may start: the pointer enters sector sect, and the buffer is clean. */
  ghost predicate Direct(fp: File, sect: nat)
    reads fp, fp.buf, fp.fs`winsect, fp.fs`wflag, fp.fs`fsiFlag, fp.fs`lastClust, fp.fs`freeClust, fp.fs.win, fp.fs.drive
  {
    && Good(fp) && Enters(fp.fs.g, fp.State()) && !fp.dirty
    && RightTo(fp.fs.g, fp.fs.Vol(), fp.State(), Limit(fp.State()))
    && sect == Clust2Sect(fp.fs.g, fp.currClust) + fp.csect
  }

  lemma DirectReady(g: Geometry, v: seq<Sector>, winsect: nat, f: FileState, sect: nat, cc: nat)
    requires Steady(g, v, winsect, f) && Enters(g, f) && f.currClust < 0x1_0000_0000
    requires sect == Clust2Sect(g, f.currClust) + f.csect && 0 < cc <= g.csize - f.csect
    ensures Chained(g, v, f) && Clusters(g, f.chain)
    ensures f.fptr % 512 == 0 && f.fptr <= |Store(g, v, f)|
    ensures InRow(FileSectors(g, f), f.fptr / 512, sect, cc)
    ensures g.FatEnd() <= sect && sect + cc <= |v| && !(sect <= winsect < sect + cc)
    ensures DwordSub(f.dsect, sect) < cc <==> sect <= f.dsect < sect + cc
    ensures sect <= f.dsect < sect + cc ==> DwordSub(f.dsect, sect) == f.dsect - sect
  {
    hide FatMap, Times, Sectors, Enters, Positioned, DwordSub, Clust2Sect, Steady, Chained, InRow;
    SteadyFacts(g, v, winsect, f);
    EnterFacts(g, v, f);
    RowPrefix(FileSectors(g, f), f.fptr / 512, sect, g.csize - f.csect, cc);
    RowAvoids(g, v, winsect, f, f.fptr / 512, sect, cc);
    UnsignedTest(f.dsect, sect, cc);
    EnterFits(g, v, f);
  }

  lemma EnterFits(g: Geometry, v: seq<Sector>, f: FileState)
    requires Chained(g, v, f) && Clusters(g, f.chain)
    requires f.fptr / 512 < |FileSectors(g, f)|
    ensures f.fptr <= |Store(g, v, f)|
  {
    hide FatMap, Times, Sectors;
  }

  /** Load the sector a write enters, unless there is nothing of the file in it. */
  method FillForWrite(fp: File, sect: nat) returns (res: FResult)
    requires fp.Shape()
    modifies fp`dsect, fp`csect, fp.buf
    ensures fp.Shape()
    ensures res == Ok || res == DiskErr
    ensures fp.fptr >= fp.fsize || old(fp.dsect) == sect ==> res == Ok && fp.buf[..] == old(fp.buf[..])
    ensures old(Direct(fp, sect)) ==>
              res == Ok && Receiving(fp)
              && Progress(fp.fs.g, old(fp.fs.Vol()), old(fp.State()), [], fp.fs.Vol(), fp.State())
  {
    hide FatMap, Times, Steady, Store, Sectors, Chained, Progress, WithinBuffer, Writable;
    hide FatFs.Mirrored, FatFs.Valid, FatFs.Shape, FatFs.Vol, FatFs.Fat;
    ghost var good := Direct(fp, sect);
    ghost var v, w, f := fp.fs.Vol(), fp.fs.winsect, fp.State();
    if good {
      DirectReady(fp.fs.g, v, w, f, sect, 1);
    }
    if fp.dsect != sect {
      if fp.fptr < fp.fsize {
        var ok := fp.fs.ReadData(fp.buf, sect);
        if !ok {
          return DiskErr;
        }
      }
    }
    fp.dsect := sect;
    fp.csect := fp.csect + 1;
    if good {
      FillReady(fp.fs.g, v, w, f, sect, fp.State());
    }
    return Ok;
  }

  /** The buffer may take bytes at the pointer, on a drive without failures. */
  ghost predicate Receiving(fp: File)
    reads fp, fp.buf, fp.fs`winsect, fp.fs`wflag, fp.fs`fsiFlag, fp.fs`lastClust, fp.fs`freeClust, fp.fs.win, fp.fs.drive
  {
    && fp.Shape() && fp.fs.Valid() && fp.fs.drive.reliable
    && Writable(fp.fs.g, fp.fs.Vol(), fp.fs.winsect, fp.State())
    && WithinBuffer(fp.fs.g, fp.State())
  }

  lemma FillReady(g: Geometry, v: seq<Sector>, winsect: nat, f: FileState, sect: nat, f': FileState)
    requires Steady(g, v, winsect, f) && Enters(g, f) && !f.dirty && f.currClust < 0x1_0000_0000
    requires sect == Clust2Sect(g, f.currClust) + f.csect
    requires f' == f.(dsect := sect, csect := f.csect + 1, buf := f'.buf)
    requires sect < |v| && Clusters(g, f.chain) && RightTo(g, v, f, Limit(f))
    requires f.dsect == sect ==> f'.buf == f.buf
    requires f.dsect != sect && f.fptr < f.fsize ==> f'.buf == v[sect]
    ensures Writable(g, v, winsect, f') && WithinBuffer(g, f')
    ensures Progress(g, v, f, [], v, f')
  {
    hide FatMap, Times, Sectors, Enters, Positioned, Clust2Sect, Store;
    SteadyFacts(g, v, winsect, f);
    EnterFacts(g, v, f);
    EnterBuffer(g, f, f');
    EnterFits(g, v, f);
    FillRight(g, v, f, f');
    FillStore(g, v, f, f');
    ExtendsSame(g, v, v, f.chain);
    OnlyInSame(g, v, FileSectors(g, f));
    ProgressIdle(g, v, f, v, f');
  }

  /** The sector at the pointer is in the buffer: loaded, or with nothing of the file in it. */
  lemma FillRight(g: Geometry, v: seq<Sector>, f: FileState, f': FileState)
    requires Chained(g, v, f) && Clusters(g, f.chain) && RightTo(g, v, f, Limit(f)) && !f.dirty
    requires f.fptr % 512 == 0 && f.fptr / 512 < |FileSectors(g, f)| && f'.dsect == FileSectors(g, f)[f.fptr / 512]
    requires f' == f.(dsect := f'.dsect, csect := f'.csect, buf := f'.buf)
    requires f.dsect == f'.dsect ==> f'.buf == f.buf
    requires f.dsect != f'.dsect && f.fptr < f.fsize && f'.dsect < |v| ==> f'.buf == v[f'.dsect]
    ensures RightTo(g, v, f', Limit(f'))
  {
    hide FatMap, Times, Sectors;
    ChainFacts(g, v, f);
  }

  lemma FillStore(g: Geometry, v: seq<Sector>, f: FileState, f': FileState)
    requires Chained(g, v, f) && !f.dirty && !f'.dirty
    requires f'.chain == f.chain && f'.orgClust == f.orgClust && f'.fsize == f.fsize
    ensures Chained(g, v, f') && Store(g, v, f') == Store(g, v, f)
  {
    hide FatMap, Times, Sectors;
  }

  /** The end of an f_write pass: bytes into the buffered sector under the pointer. */
  method PutBuffered(fp: File, data: seq<byte>, off: nat, btw: nat) returns (wcnt: nat)
    requires fp.Shape() && 0 < btw && off + btw <= |data| && fp.fptr + btw < 0x1_0000_0000
    modifies fp`fptr, fp`dirty, fp.buf
    ensures fp.Shape() && fp.dirty && 0 < wcnt <= btw && fp.fptr == old(fp.fptr) + wcnt
    ensures old(Receiving(fp)) ==>
              Passable(fp)
              && Progress(fp.fs.g, old(fp.fs.Vol()), old(fp.State()), data[off..off + wcnt], fp.fs.Vol(), fp.State())
  {
    hide FatMap, Times, Steady, Store, Sectors, Chained, Positioned, Progress, Writable, WithinBuffer, RightTo;
    hide FatFs.Mirrored, FatFs.Valid, FatFs.Shape, FatFs.Vol, FatFs.Fat;
    ghost var good := Receiving(fp);
    ghost var v, w, f := fp.fs.Vol(), fp.fs.winsect, fp.State();
    wcnt := 512 - fp.fptr % 512;
    if wcnt > btw {
      wcnt := btw;
    }
    MemCpy(fp.buf, fp.fptr % 512, data, off, wcnt);
    fp.dirty := true;
    fp.fptr := fp.fptr + wcnt;
    if good {
      ghost var x := data[off..off + wcnt];
      CopyProgress(fp.fs.g, v, w, f, x, fp.State());
      SteadyFacts(fp.fs.g, v, w, fp.State());
      DirtyRight(fp.fs.g, v, fp.State(), Limit(fp.State()));
      BufferMoves(fp.fs.g, f, f.(fptr := fp.fptr), wcnt);
      PositionedSame(fp.fs.g, f.(fptr := fp.fptr), fp.State());
    }
  }

  lemma PositionedSame(g: Geometry, f: FileState, f': FileState)
    requires Positioned(g, f)
    requires f'.chain == f.chain && f'.currClust == f.currClust && f'.csect == f.csect && f'.fptr == f.fptr
    ensures Positioned(g, f')
  {
    if f.fptr > 0 {
      var ci: nat :| At(g, f, ci);
      assert At(g, f', ci);
    }
  }

  /** What a pass of the write has achieved, on a drive without failures. */
  ghost predicate Passed(fp: File, v: seq<Sector>, f: FileState, x: seq<byte>)
    reads fp, fp.buf, fp.fs`winsect, fp.fs`wflag, fp.fs`fsiFlag, fp.fs`lastClust, fp.fs`freeClust, fp.fs.win, fp.fs.drive
  {
    Passable(fp) && Progress(fp.fs.g, v, f, x, fp.fs.Vol(), fp.State())
  }

  /** Find the sector a write enters, growing the chain if it ends there, and write a dirty buffer back. */
  method LocateForWrite(fp: File) returns (res: FResult, full: bool, sect: nat)
    requires fp.Shape()
    modifies fp`chain, fp`orgClust, fp`currClust, fp`csect, fp`dirty
    modifies fp.fs`winsect, fp.fs`wflag, fp.fs`fsiFlag, fp.fs`freeClust, fp.fs`lastClust, fp.fs.win, fp.fs.drive
    ensures |fp.fs.drive.sectors| == old(|fp.fs.drive.sectors|)
    ensures res == Ok || res == DiskErr || res == IntErr
    ensures res != DiskErr ==> fp.Shape()
    ensures res == Ok && !full ==> fp.csect < fp.fs.g.csize
    ensures old(Ready(fp)) ==> res != DiskErr && (res == IntErr ==> HasBadEntry(old(fp.fs.Fat())))
    ensures old(Ready(fp)) && res == Ok ==>
              Good(fp) && RightTo(fp.fs.g, fp.fs.Vol(), fp.State(), Limit(fp.State())) && Progress(fp.fs.g, old(fp.fs.Vol()), old(fp.State()), [], fp.fs.Vol(), fp.State())
    ensures old(Ready(fp)) && res == Ok && full ==> AllUsed(old(fp.fs.Fat())) && fp.State() == old(fp.State()) && AtEnd(fp)
    ensures old(Ready(fp)) && res == Ok && !full ==> Direct(fp, sect)
    ensures res == Ok && old(Ready(fp) && fp.Tight()) ==> fp.Tight()
    ensures res == Ok && old(Ready(fp)) ==> Upkeep(fp.fs)
    ensures old(Good(fp)) ==> fp.fs.winsect == old(fp.fs.winsect) || fp.fs.g.InFat(fp.fs.winsect)
  {
    hide FatMap, Times, Steady, Store, Sectors, Chained, Grew, AllUsed, HasBadEntry, FreeCount, Positioned, Enters, Progress;
    hide Clust2Sect, FileVol, RightTo, Exact;
    hide FatFs.Mirrored, FatFs.Valid, FatFs.Shape, FatFs.Vol, FatFs.Fat;
    ghost var good := Ready(fp);
    ghost var v, w, f := fp.fs.Vol(), fp.fs.winsect, fp.State();
    sect := 0;
    res, full := EnterForWrite(fp);
    if res != Ok {
      return;
    }
    ghost var v1, w1, f1 := fp.fs.Vol(), fp.fs.winsect, fp.State();
    if good {
      GrewProgress(fp.fs.g, v, w, f, v1, f1);
      ExactOutside(fp.fs.g, v, w, f, v1, f1);
    }
    if full {
      return;
    }
    res := fp.FlushBuffer();
    if res != Ok {
      return;
    }
    sect := Clust2Sect(fp.fs.g, fp.currClust);
    if good {
      GrewFits(fp.fs.g, v, w, f, v1, f1);
      FlushProgress(fp.fs.g, v1, w1, f1);
      FlushRight(fp.fs.g, v1, w1, f1, Limit(f1));
      ProgressTrans(fp.fs.g, v, f, [], v1, f1, [], fp.fs.Vol(), fp.State());
      assert NONE + NONE == NONE;
      EnterFacts(fp.fs.g, v1, f1);
      EntersSame(fp.fs.g, f1, fp.State());
    }
    if sect == 0 {
      res := IntErr;
      return;
    }
    sect := sect + fp.csect;
  }

  const NONE: seq<byte> := []

  lemma EntersSame(g: Geometry, f: FileState, f': FileState)
    requires Enters(g, f) && f' == f.(dirty := f'.dirty)
    ensures Enters(g, f')
  {
    var ci: nat :| Entering(g, f, ci);
    assert Entering(g, f', ci);
  }

  lemma GrewProgress(g: Geometry, v: seq<Sector>, winsect: nat, f: FileState, v': seq<Sector>, f': FileState)
    requires Steady(g, v, winsect, f) && Positioned(g, f)
    requires Grew(g, v, f, v', f')
    requires f'.fptr == f.fptr && f'.fsize == f.fsize && f'.dirSect == f.dirSect
    ensures Progress(g, v, f, [], v', f')
  {
    hide FatMap, Times, Sectors, Store;
    PositionFits(g, v, f);
    ProgressIdle(g, v, f, v', f');
  }

  lemma GrewFits(g: Geometry, v: seq<Sector>, winsect: nat, f: FileState, v': seq<Sector>, f': FileState)
    requires Steady(g, v, winsect, f) && Positioned(g, f)
    requires Grew(g, v, f, v', f') && f'.fptr == f.fptr
    ensures f'.fptr <= |Store(g, v', f')|
  {
    hide FatMap, Times, Sectors, Store;
    PositionFits(g, v, f);
  }

  /** One pass of the loop of f_write. */
  method WriteSome(fp: File, data: seq<byte>, off: nat, btw: nat) returns (res: FResult, full: bool, wcnt: nat)
    requires fp.Shape() && 0 < btw && off + btw <= |data| && fp.fptr + btw < 0x1_0000_0000
    modifies fp`chain, fp`orgClust, fp`currClust, fp`csect, fp`dirty, fp`dsect, fp`fptr, fp.buf
    modifies fp.fs`winsect, fp.fs`wflag, fp.fs`fsiFlag, fp.fs`freeClust, fp.fs`lastClust, fp.fs.win, fp.fs.drive
    ensures |fp.fs.drive.sectors| == old(|fp.fs.drive.sectors|)
    ensures res == Ok || res == DiskErr || res == IntErr
    ensures res == Ok ==> fp.Shape() && wcnt <= btw && fp.fptr == old(fp.fptr) + wcnt && (full <==> wcnt == 0)
    ensures old(Passable(fp)) ==> res != DiskErr && (res == IntErr ==> HasBadEntry(old(fp.fs.Fat())))
    ensures old(Passable(fp)) && res == Ok ==> Passed(fp, old(fp.fs.Vol()), old(fp.State()), data[off..off + wcnt])
    ensures old(Passable(fp)) && res == Ok && full ==> AllUsed(old(fp.fs.Fat())) && AtEnd(fp)
    ensures res == Ok && old(Passable(fp) && fp.Tight()) ==> fp.Tight()
    ensures old(Passable(fp)) && res == Ok ==> Upkeep(fp.fs)
    ensures old(Good(fp)) ==> fp.fs.winsect == old(fp.fs.winsect) || fp.fs.g.InFat(fp.fs.winsect)
  {
    hide FatMap, Times, Steady, Store, Sectors, Chained, AllUsed, HasBadEntry, FreeCount, Positioned, Enters, Progress;
    hide Clust2Sect, FileVol, Writable, WithinBuffer, RightTo;
    hide FatFs.Mirrored, FatFs.Valid, FatFs.Shape, FatFs.Vol, FatFs.Fat;
    ghost var good := Passable(fp);
    ghost var v, f := fp.fs.Vol(), fp.State();
    full := false;
    wcnt := 0;
    if fp.fptr % 512 == 0 {
      var sect: nat;
      res, full, sect := LocateForWrite(fp);
      if res != Ok || full {
        if good && res == Ok {
          assert data[off..off] == [];
        }
        return;
      }
      ghost var v1, f1 := fp.fs.Vol(), fp.State();
      if btw / 512 > 0 {
        res, wcnt := PutSectors(fp, sect, data, off, btw / 512);
        if good && res == Ok {
          ProgressTrans(fp.fs.g, v, f, [], v1, f1, data[off..off + wcnt], fp.fs.Vol(), fp.State());
          assert NONE + data[off..off + wcnt] == data[off..off + wcnt];
        }
        return;
      }
      res := FillForWrite(fp, sect);
      if res != Ok {
        return;
      }
      if good {
        ProgressTrans(fp.fs.g, v, f, [], v1, f1, [], fp.fs.Vol(), fp.State());
        assert NONE + NONE == NONE;
      }
    } else if good {
      AtReceiving(fp.fs.g, v, fp.fs.winsect, f);
    }
    ghost var v2, f2 := fp.fs.Vol(), fp.State();
    wcnt := PutBuffered(fp, data, off, btw);
    if good {
      ProgressTrans(fp.fs.g, v, f, [], v2, f2, data[off..off + wcnt], fp.fs.Vol(), fp.State());
      assert NONE + data[off..off + wcnt] == data[off..off + wcnt];
    }
    res := Ok;
  }

  /** A pass may start. */
  ghost predicate Passable(fp: File)
    reads fp, fp.buf, fp.fs`winsect, fp.fs`wflag, fp.fs`fsiFlag, fp.fs`lastClust, fp.fs`freeClust, fp.fs.win, fp.fs.drive
  {
    && Good(fp) && Positioned(fp.fs.g, fp.State())
    && RightTo(fp.fs.g, fp.fs.Vol(), fp.State(), Limit(fp.State()))
  }

  /** Inside a sector the buffer is the right one already. */
  lemma AtReceiving(g: Geometry, v: seq<Sector>, winsect: nat, f: FileState)
    requires Steady(g, v, winsect, f) && Positioned(g, f) && f.fptr % 512 != 0
    requires Clusters(g, f.chain) && RightTo(g, v, f, Limit(f))
    ensures Writable(g, v, winsect, f) && WithinBuffer(g, f)
    ensures Progress(g, v, f, [], v, f)
  {
    hide FatMap, Times, Sectors, Positioned, Store;
    AtBuffer(g, v, winsect, f);
    ChainFacts(g, v, f);
    DataBase(g);
    assert f.dsect in FileSectors(g, f);
    GrewSame(g, v, winsect, f);
    GrewProgress(g, v, winsect, f, v, f);
  }

  /** A write changes entries of its own chain only, so it neither makes nor hides bad entries, nor frees clusters. */
  lemma ProgressUsed(g: Geometry, v: seq<Sector>, f: FileState, x: seq<byte>, v': seq<Sector>, f': FileState)
    requires Progress(g, v, f, x, v', f')
    ensures AllUsed(FatMap(g, v)) ==> AllUsed(FatMap(g, v'))
    ensures HasBadEntry(FatMap(g, v')) ==> HasBadEntry(FatMap(g, v))
  {
    hide FatMap, Times, Sectors, Store, Wrote, OnlyIn;
    var fat, fat' := FatMap(g, v), FatMap(g, v');
    forall d | 2 <= d < g.maxClust
      ensures fat'[d] >= 2 || fat'[d] == fat[d]
    {
      if d in f'.chain {
        ChainUsed(fat', f'.chain, d);
      }
    }
  }

  /** The loop of f_write; it stops early only when the volume is full. */
  method WriteBytes(fp: File, data: seq<byte>) returns (res: FResult, bw: nat)
    requires fp.Shape() && fp.fptr + |data| < 0x1_0000_0000
    modifies fp`chain, fp`orgClust, fp`currClust, fp`csect, fp`dirty, fp`dsect, fp`fptr, fp.buf
    modifies fp.fs`winsect, fp.fs`wflag, fp.fs`fsiFlag, fp.fs`freeClust, fp.fs`lastClust, fp.fs.win, fp.fs.drive
    ensures |fp.fs.drive.sectors| == old(|fp.fs.drive.sectors|)
    ensures res == Ok || res == DiskErr || res == IntErr
    ensures bw <= |data|
    ensures res == Ok ==> fp.Shape() && fp.fptr == old(fp.fptr) + bw
    ensures old(Passable(fp)) ==> res != DiskErr && (res == IntErr ==> HasBadEntry(old(fp.fs.Fat())))
    ensures old(Passable(fp)) && res == Ok ==> Passed(fp, old(fp.fs.Vol()), old(fp.State()), data[..bw])
    ensures old(Passable(fp)) && res == Ok && bw < |data| ==> AllUsed(fp.fs.Fat()) && AtEnd(fp)
    ensures res == Ok && old(Passable(fp) && fp.Tight()) ==> fp.Tight()
    ensures old(Passable(fp)) && res == Ok ==> Upkeep(fp.fs)
    ensures old(Passable(fp)) && res == Ok ==> fp.fs.winsect == old(fp.fs.winsect) || fp.fs.g.InFat(fp.fs.winsect)
  {
    hide FatMap, Times, Steady, Store, Sectors, Chained, AllUsed, HasBadEntry, FreeCount, Positioned, Progress, RightTo, Exact;
    hide FatFs.Mirrored, FatFs.Valid, FatFs.Shape, FatFs.Vol, FatFs.Fat;
    ghost var good := Passable(fp);
    ghost var v, f := fp.fs.Vol(), fp.State();
    res := Ok;
    bw := 0;
    if good {
      WriteStarts(fp.fs.g, v, fp.fs.winsect, f);
      assert data[..0] == [];
    }
    var btw: nat := |data|;
    while btw > 0
      invariant |fp.fs.drive.sectors| == old(|fp.fs.drive.sectors|)
      invariant res == Ok && fp.Shape() && fp.fptr == old(fp.fptr) + bw && bw + btw == |data|
      invariant good ==> Passed(fp, v, f, data[..bw])
      invariant good && old(fp.Tight()) ==> fp.Tight()
      invariant good ==> Upkeep(fp.fs)
      invariant good ==> fp.fs.winsect == old(fp.fs.winsect) || fp.fs.g.InFat(fp.fs.winsect)
      decreases btw
    {
      ghost var v1, f1 := fp.fs.Vol(), fp.State();
      var full: bool;
      var wcnt: nat;
      res, full, wcnt := WriteSome(fp, data, bw, btw);
      if good {
        ProgressUsed(fp.fs.g, v, f, data[..bw], v1, f1);
        if res == Ok {
          ProgressTrans(fp.fs.g, v, f, data[..bw], v1, f1, data[bw..bw + wcnt], fp.fs.Vol(), fp.State());
          ProgressUsed(fp.fs.g, v1, f1, data[bw..bw + wcnt], fp.fs.Vol(), fp.State());
          assert data[..bw] + data[bw..bw + wcnt] == data[..bw + wcnt];
        }
      }
      if res != Ok {
        return;
      }
      if full {
        break;
      }
      bw := bw + wcnt;
      btw := btw - wcnt;
    }
  }

  lemma WriteStarts(g: Geometry, v: seq<Sector>, winsect: nat, f: FileState)
    requires Steady(g, v, winsect, f) && Positioned(g, f)
    ensures Progress(g, v, f, [], v, f)
  {
    hide FatMap, Times, Sectors, Positioned, Store;
    GrewSame(g, v, winsect, f);
    GrewProgress(g, v, winsect, f, v, f);
  }

  /** The size may be set to anything the chain can hold. */
  lemma Resize(g: Geometry, v: seq<Sector>, winsect: nat, f: FileState, f': FileState)
    requires Steady(g, v, winsect, f) && f'.fsize <= |Store(g, v, f)|
    requires f' == f.(fsize := f'.fsize) && Clusters(g, f.chain) && RightTo(g, v, f, f'.fsize)
    ensures Steady(g, v, winsect, f') && Store(g, v, f') == Store(g, v, f)
  {
    hide FatMap, Times, Sectors;
  }

  /** The content after a write of x at the pointer. */
  function Written(content: seq<byte>, off: nat, x: seq<byte>): seq<byte>
    requires off <= |content|
  {
    content[..off] + x + (if off + |x| < |content| then content[off + |x|..] else [])
  }

  /** The end of a write: the size is raised to the pointer if need be. */
  lemma WriteEnds(g: Geometry, v: seq<Sector>, f: FileState, x: seq<byte>, v': seq<Sector>, winsect: nat, f': FileState, h: FileState)
    requires Progress(g, v, f, x, v', f') && Steady(g, v', winsect, f') && Positioned(g, f') && f.fptr <= f.fsize
    requires RightTo(g, v', f', Limit(f'))
    requires h == f'.(fsize := Max(f'.fsize, f'.fptr))
    ensures FileOk(g, v', winsect, h)
    ensures Content(g, v', h) == Written(Content(g, v, f), f.fptr, x)
    ensures Extends(g, v, v', f.chain, h.chain) && OnlyIn(g, v, v', FileSectors(g, h))
  {
    hide FatMap, Times, Sectors, Store, Positioned, Steady, OnlyIn, Extends;
    SteadyFacts(g, v', winsect, f');
    PositionFits(g, v', f');
    Resize(g, v', winsect, f', h);
    var b0, b := Store(g, v, f), Store(g, v', f');
    hide Chained;
    SteadyFacts(g, v', winsect, h);
    WroteContent(b0, f.fsize, f.fptr, x, b, h.fsize);
    WrittenPrefix(b0, f.fsize, f.fptr, x);
    PositionedResize(g, f', h);
  }

  lemma WrittenPrefix(b0: seq<byte>, n0: nat, off: nat, x: seq<byte>)
    requires off <= n0 <= |b0|
    ensures Written(b0[..n0], off, x) == b0[..off] + x + (if off + |x| < n0 then b0[off + |x|..n0] else [])
  {
  }

  lemma PositionedResize(g: Geometry, f: FileState, h: FileState)
    requires Positioned(g, f) && h == f.(fsize := h.fsize)
    ensures Positioned(g, h)
  {
    PositionedSame(g, f, h);
  }

  /**
    f_write. On a drive without failures the content changes as one stored string, the chain grows by
    free clusters as far as needed, and a short count means that the volume is full or that the size
    would exceed 32 bits.
   */
  method Write(fp: File, data: seq<byte>) returns (res: FResult, bw: nat)
    requires fp.Valid() && |data| < 0x1_0000_0000
    modifies fp`chain, fp`orgClust, fp`currClust, fp`csect, fp`dirty, fp`dsect, fp`fptr, fp`fsize, fp`written, fp`failed
    modifies fp.buf
    modifies fp.fs`winsect, fp.fs`wflag, fp.fs`fsiFlag, fp.fs`freeClust, fp.fs`lastClust, fp.fs.win, fp.fs.drive
    ensures |fp.fs.drive.sectors| == old(|fp.fs.drive.sectors|)
    ensures old(fp.failed) ==> res == IntErr
    ensures !old(fp.failed) && !fp.canWrite ==> res == Denied
    ensures old(fp.failed) || !fp.canWrite ==> bw == 0 && unchanged(fp, fp.buf, fp.fs, fp.fs.win, fp.fs.drive)
    ensures !old(fp.failed) && fp.canWrite ==> res == Ok || ((res == DiskErr || res == IntErr) && fp.failed)
    ensures fp.fs.drive.reliable && !old(fp.failed) && fp.canWrite ==>
              res == Ok || (res == IntErr && HasBadEntry(old(fp.fs.Fat())))
    ensures res == Ok ==> fp.written && bw <= |data| && !fp.failed
    ensures fp.fs.drive.reliable && res == Ok ==> fp.Valid() && fp.fptr == old(fp.fptr) + bw
    ensures fp.fs.drive.reliable && res == Ok ==> fp.Data() == Written(old(fp.Data()), old(fp.fptr), data[..bw])
    ensures res == Ok && old(fp.fsize) + |data| >= 0x1_0000_0000 ==> bw == 0
    ensures fp.fs.drive.reliable && res == Ok && bw < |data| && old(fp.fsize) + |data| < 0x1_0000_0000 ==>
              AllUsed(fp.fs.Fat()) && AtEnd(fp)
    ensures fp.fs.drive.reliable && res == Ok ==>
              Extends(fp.fs.g, old(fp.fs.Vol()), fp.fs.Vol(), old(fp.chain), fp.chain)
              && OnlyIn(fp.fs.g, old(fp.fs.Vol()), fp.fs.Vol(), FileSectors(fp.fs.g, fp.State()))
    ensures fp.fs.drive.reliable && res == Ok && old(fp.Tight()) ==> fp.Tight()
    ensures fp.fs.drive.reliable && res == Ok ==> Upkeep(fp.fs)
    ensures fp.fs.drive.reliable && res == Ok ==> fp.fs.winsect == old(fp.fs.winsect) || fp.fs.g.InFat(fp.fs.winsect)
  {
    hide FatMap, Times, Steady, Store, Sectors, AllUsed, HasBadEntry, FreeCount, Positioned, Progress;
    hide Written, SizeOverflows, Extends, OnlyIn, Chained, RightTo;
    hide FatFs.Mirrored, FatFs.Valid, FatFs.Shape, FatFs.Vol, FatFs.Fat;
    bw := 0;
    if fp.failed {
      return IntErr, bw;
    }
    if !fp.canWrite {
      return Denied, bw;
    }
    ghost var v, f := fp.fs.Vol(), fp.State();
    var x := data;
    if SizeOverflows(fp.fsize, |data|) {
      x := [];
    }
    SizeWraps(fp.fsize, |data|);
    SteadyRight(fp.fs.g, v, fp.fs.winsect, f);
    res, bw := WriteBytes(fp, x);
    if res != Ok {
      fp.failed := true;
      return;
    }
    ghost var f1 := fp.State();
    if fp.fptr > fp.fsize {
      fp.fsize := fp.fptr;
    }
    fp.written := true;
    if fp.fs.drive.reliable {
      assert x[..bw] == data[..bw];
      WriteEnds(fp.fs.g, v, f, x[..bw], fp.fs.Vol(), fp.fs.winsect, f1, fp.State());
    }
  }

  /** The 32-bit test fsize + btw < fsize. */
  predicate SizeOverflows(fsize: dword, n: nat) {
    (fsize + n) % 0x1_0000_0000 < fsize
  }

  lemma SizeWraps(fsize: dword, n: nat)
    requires n < 0x1_0000_0000
    ensures SizeOverflows(fsize, n) <==> fsize + n >= 0x1_0000_0000
  {
  }
}
