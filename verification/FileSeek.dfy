/** f_lseek: move the pointer, following the chain from the current cluster where that is possible. */
module FileSeek {
  import opened Words
  import opened Layout
  import opened Codec
  import opened Disk
  import opened Entries
  import opened Chains
  import opened FileSystem
  import opened Allocation
  import opened FileData
  import opened FileStates
  import opened FileSteps
  import opened FileGrow
  import opened Files
  import opened FileWrite

  /** x & ~(m - 1) for a power of two m. */
  function AlignDown(x: nat, m: nat): nat
    requires m > 0
  {
    x - x % m
  }

  /** Bytes per cluster. */
  function ClusterBytes(g: Geometry): nat {
    512 * g.csize
  }

  /** The cluster number and the cluster's first byte, as the shortcut test computes them. */
  lemma ClusterFloor(g: Geometry, ci: nat, x: nat)
    requires g.csize > 0 && 512 * Times(ci, g.csize) <= x < 512 * Times(ci, g.csize) + ClusterBytes(g)
    ensures x / ClusterBytes(g) == ci && AlignDown(x, ClusterBytes(g)) == 512 * Times(ci, g.csize)
  {
    TimesIsProduct(ci, g.csize);
    var m := ClusterBytes(g);
    assert 512 * (ci * g.csize) == ci * m;
    DivUnique(x, m, ci, x - ci * m);
  }

  /** The clusters n bytes need: n / bytes per cluster, rounded up. */
  function ClustersFor(g: Geometry, n: nat): nat
    requires g.csize > 0
  {
    (n + ClusterBytes(g) - 1) / ClusterBytes(g)
  }

  lemma ClustersAt(g: Geometry, ci: nat, p: nat)
    requires g.csize > 0 && 512 * Times(ci, g.csize) < p <= 512 * Times(ci, g.csize) + ClusterBytes(g)
    ensures ClustersFor(g, p) == ci + 1
  {
    ClusterFloor(g, ci, p - 1);
    var m := ClusterBytes(g);
    var q, r := (p - 1) / m, (p - 1) % m;
    assert p - 1 == q * m + r;
    assert (q + 1) * m == q * m + m;
    DivUnique(p + m - 1, m, q + 1, r);
  }

  lemma {:induction false} ClustersBehind(g: Geometry, ci: nat, p: nat)
    requires g.csize > 0 && p > 512 * Times(ci, g.csize) + ClusterBytes(g)
    ensures ClustersFor(g, p) > ci + 1
    decreases p - 512 * Times(ci, g.csize)
  {
    assert Times(ci + 1, g.csize) == Times(ci, g.csize) + g.csize;
    if p <= 512 * Times(ci + 1, g.csize) + ClusterBytes(g) {
      ClustersAt(g, ci + 1, p);
    } else {
      ClustersBehind(g, ci + 1, p);
    }
  }

  // ----- the chain a seek makes -----

  /** The cluster create_chain takes when it searches from scl: 0 if none is free. */
  ghost function Taken(fat: seq<dword>, scl: nat): (r: nat)
    ensures r == 0 || FirstFree(fat, scl, r)
  {
    if exists r: nat :: FirstFree(fat, scl, r) then
      var r: nat :| FirstFree(fat, scl, r);
      r
    else 0
  }

  lemma TakenIs(fat: seq<dword>, scl: nat, r: nat)
    requires 1 <= scl < |fat| && FirstFree(fat, scl, r)
    ensures Taken(fat, scl) == r
  {
    var t := Taken(fat, scl);
    assert Rank(|fat|, scl, t) == Rank(|fat|, scl, r);
  }

  lemma TakenNone(fat: seq<dword>, scl: nat)
    requires AllUsed(fat)
    ensures Taken(fat, scl) == 0
  {
  }

  /** Chain cs lengthened to n clusters, or as far as there are free ones. */
  ghost function Lengthened(g: Geometry, fat: seq<dword>, cs: seq<nat>, hint: nat, n: nat): seq<nat>
    requires |fat| == g.maxClust <= 0x1_0000_0000 && Clusters(g, cs)
    decreases if n > |cs| then n - |cs| else 0
  {
    if |cs| >= n then cs
    else
      var r := Taken(fat, SearchFrom(cs, hint));
      if r == 0 then cs
      else Lengthened(g, Linked(fat, EndOf(cs), r, Cut(g, END_OF_CHAIN)), cs + [r], hint, n)
  }

  /** From v with chain cs to v' with chain cs' on the way to n clusters: the table changed only, and the goal is the same. */
  ghost predicate Toward(g: Geometry, hint: nat, n: nat, v: seq<Sector>, cs: seq<nat>, v': seq<Sector>, cs': seq<nat>) {
    && Fits(g, v) && Fits(g, v') && SameOutsideFat(g, v, v') && Clusters(g, cs) && Clusters(g, cs')
    && Lengthened(g, FatMap(g, v'), cs', hint, n) == Lengthened(g, FatMap(g, v), cs, hint, n)
  }

  lemma TookToward(g: Geometry, hint: nat, n: nat, v: seq<Sector>, cs: seq<nat>, v': seq<Sector>, cs': seq<nat>)
    requires Took(g, hint, v, cs, v', cs') && Clusters(g, cs) && Clusters(g, cs') && 1 <= hint < g.maxClust
    requires cs' != cs ==> |cs| < n
    ensures Toward(g, hint, n, v, cs, v', cs')
  {
    hide FatMap, Linked, FirstFree, Cut;
    if |cs'| != |cs| {
      SearchInside(g, cs, hint);
      TakenIs(FatMap(g, v), SearchFrom(cs, hint), cs'[|cs|]);
      FirstPositive(FatMap(g, v), SearchFrom(cs, hint), cs'[|cs|]);
    }
  }

  lemma FirstPositive(fat: seq<dword>, scl: nat, r: nat)
    requires FirstFree(fat, scl, r)
    ensures 2 <= r < |fat|
  {
  }

  lemma SearchInside(g: Geometry, cs: seq<nat>, hint: nat)
    requires Clusters(g, cs) && 1 <= hint < g.maxClust
    ensures 1 <= SearchFrom(cs, hint) < g.maxClust
  {
    if cs != [] {
      assert IsCluster(g, cs[|cs| - 1]);
    }
  }

  lemma TowardTrans(g: Geometry, hint: nat, n: nat, v: seq<Sector>, cs: seq<nat>, v1: seq<Sector>, cs1: seq<nat>,
                    v2: seq<Sector>, cs2: seq<nat>)
    requires Toward(g, hint, n, v, cs, v1, cs1) && Toward(g, hint, n, v1, cs1, v2, cs2)
    ensures Toward(g, hint, n, v, cs, v2, cs2)
  {
    hide FatMap, Lengthened;
  }

  /** The goal is reached: the chain is long enough, or the volume is full. */
  lemma TowardDone(g: Geometry, hint: nat, n: nat, v: seq<Sector>, cs: seq<nat>, v': seq<Sector>, cs': seq<nat>)
    requires Toward(g, hint, n, v, cs, v', cs') && (|cs'| >= n || AllUsed(FatMap(g, v')))
    ensures cs' == Lengthened(g, FatMap(g, v), cs, hint, n) && SameOutsideFat(g, v, v')
  {
    hide FatMap, AllUsed;
    if |cs'| < n {
      TakenNone(FatMap(g, v'), SearchFrom(cs', hint));
    }
  }

  lemma TowardSame(g: Geometry, hint: nat, n: nat, v: seq<Sector>, cs: seq<nat>)
    requires Fits(g, v) && Clusters(g, cs)
    ensures Toward(g, hint, n, v, cs, v, cs) && Took(g, hint, v, cs, v, cs)
  {
    hide FatMap, Lengthened;
  }

  /** The hint matters to an empty chain only. */
  lemma TookHint(g: Geometry, hint: nat, other: nat, v: seq<Sector>, cs: seq<nat>, v': seq<Sector>, cs': seq<nat>)
    requires Took(g, hint, v, cs, v', cs') && cs != []
    ensures Took(g, other, v, cs, v', cs')
  {
    hide FatMap, FirstFree, Linked, Cut;
  }

  // ----- the walk -----

  /** If the target is in the same or a later cluster, it is behind the start of the current one. */
  lemma FloorLess(x: nat, y: nat, m: nat)
    requires m > 0 && x / m >= y / m
    ensures AlignDown(y, m) <= x
  {
    assert x / m * m <= x;
    assert y / m * m == y - y % m;
    assert x / m * m >= y / m * m;
  }

  /** The walk stands at the start of chain position ci. */
  ghost predicate Walking(g: Geometry, f: FileState, ci: nat) {
    ci < |f.chain| && f.currClust == f.chain[ci] && f.fptr == 512 * Times(ci, g.csize)
  }

  lemma GrewTrans(g: Geometry, v: seq<Sector>, f: FileState, v1: seq<Sector>, f1: FileState, v2: seq<Sector>, f2: FileState)
    requires Grew(g, v, f, v1, f1) && Grew(g, v1, f1, v2, f2)
    ensures Grew(g, v, f, v2, f2)
  {
    hide FatMap, Times, Sectors, Store;
    ExtendsTrans(g, v, v1, v2, f.chain, f1.chain, f2.chain);
    hide Chained;
    OnlyInTrans(g, v, v1, v2, f1.chain, f2.chain);
  }

  /** Ofs bytes behind the start of chain position ci, at most a cluster: where the seek ends. */
  lemma Arrives(g: Geometry, f: FileState, ci: nat, ofs: nat, f': FileState)
    requires Walking(g, f, ci) && 0 < ofs <= ClusterBytes(g)
    requires f' == f.(fptr := f.fptr + ofs, csect := ofs / 512 + (if ofs % 512 == 0 then 0 else 1))
    ensures At(g, f', ci) && Positioned(g, f')
    ensures ofs % 512 == 0 ==> f'.fptr % 512 == 0
    ensures ofs % 512 != 0 ==> f'.fptr % 512 != 0 && f'.fptr / 512 == Times(ci, g.csize) + ofs / 512 && ofs / 512 < g.csize
  {
    ArrivesSector(Times(ci, g.csize), ofs);
    assert At(g, f', ci);
  }

  lemma ArrivesSector(t: nat, ofs: nat)
    ensures (512 * t + ofs) % 512 == ofs % 512 && (512 * t + ofs) / 512 == t + ofs / 512
    ensures ofs % 512 != 0 ==> 512 * (ofs / 512) < ofs < 512 * (ofs / 512) + 512
    ensures ofs % 512 == 0 ==> ofs == 512 * (ofs / 512)
  {
  }

  /** The next cluster of the walk: stretched in write mode, only followed otherwise. */
  method NextForSeek(fp: File, clst: dword, ghost ci: nat) returns (r: dword)
    requires fp.Shape()
    modifies fp`chain
    modifies fp.fs`winsect, fp.fs`wflag, fp.fs`fsiFlag, fp.fs`freeClust, fp.fs`lastClust, fp.fs.win, fp.fs.drive
    ensures |fp.fs.drive.sectors| == old(|fp.fs.drive.sectors|)
    ensures r != DISK_ERROR ==> fp.Shape()
    ensures old(Good(fp)) && Midway(old(fp.State()), ci, clst, fp.canWrite) ==>
              r != DISK_ERROR && (r == 1 ==> HasBadEntry(old(fp.fs.Fat())))
    ensures old(Good(fp)) && Midway(old(fp.State()), ci, clst, fp.canWrite) && r == 0 ==>
              fp.canWrite && AllUsed(old(fp.fs.Fat())) && ci + 1 == |fp.chain|
    ensures old(Good(fp)) && Midway(old(fp.State()), ci, clst, fp.canWrite) && r != 1 ==>
              Good(fp) && Grew(fp.fs.g, old(fp.fs.Vol()), old(fp.State()), fp.fs.Vol(), fp.State())
    ensures old(Good(fp)) && Midway(old(fp.State()), ci, clst, fp.canWrite) && r >= 2 ==>
              ci + 1 < |fp.chain| && fp.chain[ci + 1] == r && IsCluster(fp.fs.g, r)
    ensures old(Good(fp)) && Midway(old(fp.State()), ci, clst, fp.canWrite) && r != 1 ==> old(fp.chain) <= fp.chain
    ensures old(Good(fp)) && Midway(old(fp.State()), ci, clst, fp.canWrite) && fp.chain != old(fp.chain) ==>
              ci + 1 == |old(fp.chain)|
    ensures old(Good(fp)) && Midway(old(fp.State()), ci, clst, fp.canWrite) ==>
              Took(fp.fs.g, old(StartPoint(fp.fs, 0)), old(fp.fs.Vol()), old(fp.chain), fp.fs.Vol(), fp.chain)
    ensures r != DISK_ERROR && old(Good(fp)) ==> Upkeep(fp.fs)
    ensures old(Good(fp)) ==> fp.fs.winsect == old(fp.fs.winsect) || fp.fs.g.InFat(fp.fs.winsect)
  {
    hide FatMap, Times, Steady, Store, Sectors, Grew, AllUsed, HasBadEntry, FreeCount, Took;
    hide FatFs.Mirrored, FatFs.Valid, FatFs.Shape, FatFs.Vol, FatFs.Fat;
    ghost var v, w, f := fp.fs.Vol(), fp.fs.winsect, fp.State();
    ghost var good := Good(fp) && Midway(f, ci, clst, fp.canWrite);
    if fp.canWrite {
      r := FollowOrStretch(fp, clst, ci + 1);
      if good && r != 1 {
        HeadKept(fp.fs.g, v, w, f, fp.chain);
      }
    } else {
      r := fp.fs.GetFat(clst);
      if good {
        TowardSame(fp.fs.g, StartPoint(fp.fs, 0), 0, v, f.chain);
        FollowKeeps(fp.fs.g, v, w, fp.fs.winsect, f, ci);
      }
    }
  }

  lemma HeadKept(g: Geometry, v: seq<Sector>, winsect: nat, f: FileState, cs: seq<nat>)
    requires Steady(g, v, winsect, f) && f.chain != [] && f.chain <= cs
    ensures f.orgClust == Head(cs)
  {
    hide FatMap, Times, Sectors;
  }

  lemma FollowKeeps(g: Geometry, v: seq<Sector>, winsect: nat, winsect': nat, f: FileState, ci: nat)
    requires Steady(g, v, winsect, f) && ci + 1 < |f.chain| && (winsect' == winsect || g.InFat(winsect'))
    ensures Steady(g, v, winsect', f) && Grew(g, v, f, v, f)
    ensures IsCluster(g, f.chain[ci]) && FatMap(g, v)[f.chain[ci]] == f.chain[ci + 1]
    ensures IsCluster(g, f.chain[ci + 1])
  {
    hide FatMap, Times, Sectors;
    ChainFacts(g, v, f);
    GrewSame(g, v, winsect, f);
  }

  /** clst is chain position ci, and not the last one if the chain may not be stretched. */
  ghost predicate Midway(f: FileState, ci: nat, clst: nat, stretch: bool) {
    ci < |f.chain| && clst == f.chain[ci] && (stretch || ci + 1 < |f.chain|)
  }

  /** Growing changes entries of the file's own chain only. */
  lemma GrewUsed(g: Geometry, v: seq<Sector>, f: FileState, v': seq<Sector>, f': FileState)
    requires Grew(g, v, f, v', f')
    ensures AllUsed(FatMap(g, v)) ==> AllUsed(FatMap(g, v'))
    ensures HasBadEntry(FatMap(g, v')) ==> HasBadEntry(FatMap(g, v))
  {
    hide FatMap, Times, Sectors, Store, OnlyIn;
    var fat, fat' := FatMap(g, v), FatMap(g, v');
    forall d | 2 <= d < g.maxClust
      ensures fat'[d] >= 2 || fat'[d] == fat[d]
    {
      if d in f'.chain {
        ChainUsed(fat', f'.chain, d);
      }
    }
  }

  /** The walk may go on: the target is count bytes behind the start of chain position ci. */
  ghost predicate CanWalk(fp: File, ci: nat, clst: nat, count: nat)
    reads fp, fp.buf, fp.fs`winsect, fp.fs`wflag, fp.fs`fsiFlag, fp.fs`lastClust, fp.fs`freeClust, fp.fs.win, fp.fs.drive
  {
    && Good(fp) && Walking(fp.fs.g, fp.State(), ci) && clst == fp.currClust && count > 0
    && (fp.canWrite || fp.fptr + count <= |fp.All()|)
  }

  lemma WalkCluster(g: Geometry, f: FileState, ci: nat)
    requires Walking(g, f, ci) && Clusters(g, f.chain)
    ensures IsCluster(g, f.currClust) && f.fptr % 512 == 0
  {
    hide Times;
  }

  lemma WalkKept(g: Geometry, f: FileState, f': FileState, ci: nat)
    requires Walking(g, f, ci) && f.chain <= f'.chain && f'.currClust == f.currClust && f'.fptr == f.fptr
    ensures Walking(g, f', ci)
  {
  }

  lemma GrewLength(g: Geometry, v: seq<Sector>, f: FileState, v': seq<Sector>, f': FileState)
    requires Chained(g, v, f) && Chained(g, v', f') && f.chain <= f'.chain
    ensures |Store(g, v, f)| <= |Store(g, v', f')|
  {
    hide FatMap, Sectors;
    if |f.chain| < |f'.chain| {
      TimesMono(|f.chain|, |f'.chain|, g.csize);
    }
  }

  /** One step of the walk, one cluster on. */
  lemma WalkStep(g: Geometry, f: FileState, ci: nat, f': FileState)
    requires g.csize > 0 && Walking(g, f, ci) && f.chain <= f'.chain && ci + 1 < |f'.chain|
    requires f'.currClust == f'.chain[ci + 1] && f'.fptr == f.fptr + ClusterBytes(g)
    ensures Walking(g, f', ci + 1) && f'.fptr % 512 == 0
  {
  }

  lemma WalkMidway(g: Geometry, f: FileState, ci: nat, count: nat, stretch: bool)
    requires Walking(g, f, ci) && count > ClusterBytes(g)
    requires stretch || f.fptr + count <= 512 * Times(|f.chain|, g.csize)
    ensures Midway(f, ci, f.currClust, stretch)
  {
    assert Times(ci + 1, g.csize) == Times(ci, g.csize) + g.csize;
  }

  /** The walk so far, from state f on volume v: the file grew, and is on the way to n clusters. */
  ghost predicate Trail(fp: File, v: seq<Sector>, f: FileState, hint: nat, n: nat)
    reads fp, fp.buf, fp.fs`winsect, fp.fs`wflag, fp.fs.win, fp.fs.drive
  {
    && fp.Shape() && Grew(fp.fs.g, v, f, fp.fs.Vol(), fp.State())
    && (1 <= hint < fp.fs.g.maxClust ==> Toward(fp.fs.g, hint, n, v, f.chain, fp.fs.Vol(), fp.chain))
  }

  /** The walk may go on, and has come the way from state f on volume v. */
  ghost predicate OnTrail(fp: File, ci: nat, clst: nat, count: nat, v: seq<Sector>, f: FileState, hint: nat)
    reads fp, fp.buf, fp.fs`winsect, fp.fs`wflag, fp.fs`fsiFlag, fp.fs`lastClust, fp.fs`freeClust, fp.fs.win, fp.fs.drive
  {
    CanWalk(fp, ci, clst, count) && fp.fs.g.csize > 0 && Trail(fp, v, f, hint, ClustersFor(fp.fs.g, fp.fptr + count))
  }

  lemma GrewFits(g: Geometry, v: seq<Sector>, f: FileState, v': seq<Sector>, f': FileState)
    requires Grew(g, v, f, v', f')
    ensures Fits(g, v) && g.csize > 0
  {
    hide FatMap, Times, Sectors, Store;
  }

  /** One more cluster of it. */
  lemma TrailMore(g: Geometry, from: nat, hint: nat, n: nat, v: seq<Sector>, f: FileState, v1: seq<Sector>, f1: FileState,
                  v2: seq<Sector>, f2: FileState)
    requires Grew(g, v, f, v1, f1) && Grew(g, v1, f1, v2, f2)
    requires 1 <= hint < g.maxClust ==> Toward(g, hint, n, v, f.chain, v1, f1.chain)
    requires Took(g, from, v1, f1.chain, v2, f2.chain) && f1.chain != [] && (f2.chain != f1.chain ==> |f1.chain| < n)
    ensures Grew(g, v, f, v2, f2)
    ensures 1 <= hint < g.maxClust ==> Toward(g, hint, n, v, f.chain, v2, f2.chain)
  {
    hide FatMap, Lengthened, Grew, Took, Toward;
    GrewTrans(g, v, f, v1, f1, v2, f2);
    if 1 <= hint < g.maxClust {
      TookHint(g, from, hint, v1, f1.chain, v2, f2.chain);
      GrewClusters(g, v1, f1, v2, f2);
      TookToward(g, hint, n, v1, f1.chain, v2, f2.chain);
      TowardTrans(g, hint, n, v, f.chain, v1, f1.chain, v2, f2.chain);
    }
  }

  /** One pass of the cluster-following loop; 0 when the volume is full. */
  method WalkOne(fp: File, clst: dword, ghost ci: nat, ghost ofs: nat) returns (res: FResult, next: dword)
    requires fp.Shape() && ofs > ClusterBytes(fp.fs.g) && fp.fptr + ofs < 0x1_0000_0000
    modifies fp`chain, fp`currClust, fp`fptr
    modifies fp.fs`winsect, fp.fs`wflag, fp.fs`fsiFlag, fp.fs`freeClust, fp.fs`lastClust, fp.fs.win, fp.fs.drive
    ensures |fp.fs.drive.sectors| == old(|fp.fs.drive.sectors|)
    ensures res == Ok || res == DiskErr || res == IntErr
    ensures res == Ok ==> fp.Shape() && fp.fptr == old(fp.fptr) + (if next == 0 then 0 else ClusterBytes(fp.fs.g))
    ensures old(CanWalk(fp, ci, clst, ofs)) ==> res != DiskErr && (res == IntErr ==> HasBadEntry(old(fp.fs.Fat())))
    ensures old(CanWalk(fp, ci, clst, ofs)) && res == Ok ==>
              Good(fp) && Grew(fp.fs.g, old(fp.fs.Vol()), old(fp.State()), fp.fs.Vol(), fp.State())
    ensures old(CanWalk(fp, ci, clst, ofs)) && res == Ok && next == 0 ==>
              Walking(fp.fs.g, fp.State(), ci) && fp.canWrite && ci + 1 == |fp.chain| && AllUsed(fp.fs.Fat())
    ensures old(CanWalk(fp, ci, clst, ofs)) && res == Ok && next != 0 ==>
              CanWalk(fp, ci + 1, next, ofs - ClusterBytes(fp.fs.g))
    ensures old(CanWalk(fp, ci, clst, ofs)) && res == Ok ==>
              Took(fp.fs.g, old(StartPoint(fp.fs, 0)), old(fp.fs.Vol()), old(fp.chain), fp.fs.Vol(), fp.chain)
              && (fp.chain != old(fp.chain) ==> |old(fp.chain)| <= ci + 1)
    ensures old(CanWalk(fp, ci, clst, ofs)) && res == Ok ==> Upkeep(fp.fs)
    ensures old(CanWalk(fp, ci, clst, ofs)) ==> fp.fs.winsect == old(fp.fs.winsect) || fp.fs.g.InFat(fp.fs.winsect)
  {
    hide FatMap, Times, Steady, Store, Sectors, Grew, AllUsed, HasBadEntry, FreeCount, Walking, Midway, Chained, Took;
    hide FatFs.Mirrored, FatFs.Valid, FatFs.Shape, FatFs.Vol, FatFs.Fat;
    ghost var good := CanWalk(fp, ci, clst, ofs);
    ghost var v, f := fp.fs.Vol(), fp.State();
    if good {
      WalkMidway(fp.fs.g, f, ci, ofs, fp.canWrite);
    }
    next := NextForSeek(fp, clst, ci);
    if next == 0 {
      if good {
        WalkKept(fp.fs.g, f, fp.State(), ci);
        GrewUsed(fp.fs.g, v, f, fp.fs.Vol(), fp.State());
      }
      return Ok, next;
    }
    if next == DISK_ERROR {
      return DiskErr, next;
    }
    if next <= 1 || next >= fp.fs.g.maxClust {
      return IntErr, next;
    }
    ghost var h := fp.State();
    fp.currClust := next;
    fp.fptr := fp.fptr + ClusterBytes(fp.fs.g);
    if good {
      WalkStep(fp.fs.g, f, ci, fp.State());
      GrewMoves(fp.fs.g, v, f, fp.fs.Vol(), fp.fs.winsect, h, fp.State());
      SteadyFacts(fp.fs.g, fp.fs.Vol(), fp.fs.winsect, fp.State());
      GrewLength(fp.fs.g, v, f, fp.fs.Vol(), fp.State());
    }
    return Ok, next;
  }

  /** One pass as a step of the whole walk. */
  method WalkNext(fp: File, clst: dword, ghost ci: nat, ghost ofs: nat, ghost v0: seq<Sector>, ghost f0: FileState, ghost hint: nat)
    returns (res: FResult, next: dword)
    requires fp.Shape() && ofs > ClusterBytes(fp.fs.g) && fp.fptr + ofs < 0x1_0000_0000
    modifies fp`chain, fp`currClust, fp`fptr
    modifies fp.fs`winsect, fp.fs`wflag, fp.fs`fsiFlag, fp.fs`freeClust, fp.fs`lastClust, fp.fs.win, fp.fs.drive
    ensures |fp.fs.drive.sectors| == old(|fp.fs.drive.sectors|)
    ensures res == Ok || res == DiskErr || res == IntErr
    ensures res == Ok ==> fp.Shape() && fp.fptr == old(fp.fptr) + (if next == 0 then 0 else ClusterBytes(fp.fs.g))
    ensures old(OnTrail(fp, ci, clst, ofs, v0, f0, hint)) ==>
              Fits(fp.fs.g, v0) && res != DiskErr && (res == IntErr ==> HasBadEntry(FatMap(fp.fs.g, v0)))
    ensures old(OnTrail(fp, ci, clst, ofs, v0, f0, hint)) && res == Ok ==>
              Good(fp) && Trail(fp, v0, f0, hint, ClustersFor(fp.fs.g, old(fp.fptr) + ofs)) && Upkeep(fp.fs)
    ensures old(OnTrail(fp, ci, clst, ofs, v0, f0, hint)) && res == Ok && next == 0 ==>
              Walking(fp.fs.g, fp.State(), ci) && fp.canWrite && ci + 1 == |fp.chain| && AllUsed(fp.fs.Fat())
    ensures old(OnTrail(fp, ci, clst, ofs, v0, f0, hint)) && res == Ok && next != 0 ==>
              OnTrail(fp, ci + 1, next, ofs - ClusterBytes(fp.fs.g), v0, f0, hint)
    ensures old(OnTrail(fp, ci, clst, ofs, v0, f0, hint)) ==> fp.fs.winsect == old(fp.fs.winsect) || fp.fs.g.InFat(fp.fs.winsect)
  {
    hide FatMap, Times, Steady, Store, Sectors, Grew, AllUsed, HasBadEntry, FreeCount, Walking, Chained, Took, Toward, ClustersFor;
    hide FatFs.Mirrored, FatFs.Valid, FatFs.Shape, FatFs.Vol, FatFs.Fat;
    ghost var good := OnTrail(fp, ci, clst, ofs, v0, f0, hint);
    ghost var v, f, from, n := fp.fs.Vol(), fp.State(), StartPoint(fp.fs, 0), 0;
    if good {
      WalkBehind(fp.fs.g, f, ci, ofs);
      GrewFits(fp.fs.g, v0, f0, v, f);
      GrewUsed(fp.fs.g, v0, f0, v, f);
      n := ClustersFor(fp.fs.g, fp.fptr + ofs);
    }
    res, next := WalkOne(fp, clst, ci, ofs);
    if good && res == Ok {
      TrailMore(fp.fs.g, from, hint, n, v0, f0, v, f, fp.fs.Vol(), fp.State());
    }
  }

  /** The target is behind the cluster the walk is at. */
  lemma WalkBehind(g: Geometry, f: FileState, ci: nat, ofs: nat)
    requires g.csize > 0 && Walking(g, f, ci) && ofs > ClusterBytes(g)
    ensures ClustersFor(g, f.fptr + ofs) > ci + 1 && f.chain != []
  {
    hide ClustersFor;
    ClustersBehind(g, ci, f.fptr + ofs);
  }

  /** The target is in the cluster the walk is at. */
  lemma WalkAt(g: Geometry, f: FileState, ci: nat, ofs: nat)
    requires g.csize > 0 && Walking(g, f, ci) && 0 < ofs <= ClusterBytes(g)
    ensures ClustersFor(g, f.fptr + ofs) == ci + 1 <= |f.chain|
  {
    hide ClustersFor;
    ClustersAt(g, ci, f.fptr + ofs);
  }

  lemma GrewClusters(g: Geometry, v: seq<Sector>, f: FileState, v': seq<Sector>, f': FileState)
    requires Grew(g, v, f, v', f')
    ensures Clusters(g, f.chain) && Clusters(g, f'.chain) && f.chain <= f'.chain && g.csize > 0
  {
    hide FatMap, Times, Sectors, Store;
    ChainFacts(g, v, f);
  }

  /** The cluster-following loop of f_lseek. */
  method WalkChain(fp: File, start: dword, count: dword, ghost from: nat, ghost hint: nat)
    returns (res: FResult, clst: dword, ofs: dword, ghost ci: nat)
    requires fp.Shape() && fp.fptr + count < 0x1_0000_0000
    modifies fp`chain, fp`currClust, fp`fptr
    modifies fp.fs`winsect, fp.fs`wflag, fp.fs`fsiFlag, fp.fs`freeClust, fp.fs`lastClust, fp.fs.win, fp.fs.drive
    ensures |fp.fs.drive.sectors| == old(|fp.fs.drive.sectors|)
    ensures res == Ok || res == DiskErr || res == IntErr
    ensures res == Ok ==> fp.Shape() && ofs <= ClusterBytes(fp.fs.g) && fp.fptr + ofs <= old(fp.fptr) + count
    ensures old(CanWalk(fp, from, start, count)) ==> res != DiskErr && (res == IntErr ==> HasBadEntry(old(fp.fs.Fat())))
    ensures old(CanWalk(fp, from, start, count)) && res == Ok ==>
              Good(fp) && Walking(fp.fs.g, fp.State(), ci) && 0 < ofs
              && Grew(fp.fs.g, old(fp.fs.Vol()), old(fp.State()), fp.fs.Vol(), fp.State())
    ensures old(CanWalk(fp, from, start, count)) && res == Ok && clst != 0 ==>
              clst == fp.currClust && fp.fptr + ofs == old(fp.fptr) + count
    ensures old(CanWalk(fp, from, start, count)) && res == Ok && clst == 0 ==>
              fp.canWrite && ofs == ClusterBytes(fp.fs.g) && ci + 1 == |fp.chain| && AllUsed(fp.fs.Fat())
    ensures old(CanWalk(fp, from, start, count)) && 1 <= hint < fp.fs.g.maxClust && res == Ok ==>
              fp.chain == Lengthened(fp.fs.g, old(fp.fs.Fat()), old(fp.chain), hint, ClustersFor(fp.fs.g, old(fp.fptr) + count))
              && SameOutsideFat(fp.fs.g, old(fp.fs.Vol()), fp.fs.Vol())
    ensures res == Ok && old(CanWalk(fp, from, start, count)) ==> Upkeep(fp.fs)
    ensures res == Ok && old(CanWalk(fp, from, start, count)) ==>
              fp.fs.winsect == old(fp.fs.winsect) || fp.fs.g.InFat(fp.fs.winsect)
  {
    hide FatMap, Times, Steady, Store, Sectors, Grew, AllUsed, HasBadEntry, FreeCount, Walking, Chained, Took, Toward, Lengthened, ClustersFor;
    hide FatFs.Mirrored, FatFs.Valid, FatFs.Shape, FatFs.Vol, FatFs.Fat;
    ghost var good := CanWalk(fp, from, start, count);
    ghost var v, f := fp.fs.Vol(), fp.State();
    ghost var n := ClustersFor(fp.fs.g, fp.fptr + count);
    ghost var hinted := good && 1 <= hint < fp.fs.g.maxClust;
    if good {
      GrewSame(fp.fs.g, v, fp.fs.winsect, f);
      WalkCluster(fp.fs.g, f, from);
      SteadyFacts(fp.fs.g, v, fp.fs.winsect, f);
      TowardSame(fp.fs.g, hint, n, v, f.chain);
      GrewFits(fp.fs.g, v, f, v, f);
    }
    clst, ofs, ci := start, count, from;
    var bcs := ClusterBytes(fp.fs.g);
    res := Ok;
    while ofs > bcs
      invariant res == Ok && fp.Shape() && fp.fptr + ofs == old(fp.fptr) + count
      invariant |fp.fs.drive.sectors| == old(|fp.fs.drive.sectors|)
      invariant good ==> clst != 0
      invariant good ==> OnTrail(fp, ci, clst, ofs, v, f, hint)
      invariant good ==> Upkeep(fp.fs)
      invariant good ==> fp.fs.winsect == old(fp.fs.winsect) || fp.fs.g.InFat(fp.fs.winsect)
      decreases ofs
    {
      res, clst := WalkNext(fp, clst, ci, ofs, v, f, hint);
      if res != Ok {
        return;
      }
      if clst == 0 {
        ofs := bcs;
        break;
      }
      ofs := ofs - bcs;
      ci := ci + 1;
    }
    if hinted {
      if clst != 0 {
        WalkAt(fp.fs.g, fp.State(), ci, ofs);
      }
      TowardDone(fp.fs.g, hint, n, v, f.chain, fp.fs.Vol(), fp.chain);
    }
  }

  /** The seek was started: the pointer is at the top, the rest is still as in state f. */
  ghost predicate Rewound(fp: File, f: FileState, ofs: nat)
    reads fp, fp.buf, fp.fs`winsect, fp.fs`wflag, fp.fs`fsiFlag, fp.fs`lastClust, fp.fs`freeClust, fp.fs.win, fp.fs.drive
  {
    && Good(fp) && Positioned(fp.fs.g, f) && fp.State() == f.(fptr := 0, csect := 255)
    && ofs > 0 && (fp.canWrite || ofs <= f.fsize)
  }

  lemma HeadFacts(g: Geometry, v: seq<Sector>, winsect: nat, f: FileState)
    requires Steady(g, v, winsect, f)
    ensures f.orgClust == Head(f.chain) && (f.orgClust == 0 <==> f.chain == [])
    ensures f.chain != [] ==> IsCluster(g, f.chain[0])
    ensures f.fsize > 0 ==> f.chain != []
    ensures f.fsize <= 512 * Times(|f.chain|, g.csize)
    ensures g.Valid()
  {
    hide FatMap, Sectors;
  }

  /** The first cluster of the file; a chain is started if it has none. */
  method FirstForSeek(fp: File) returns (res: FResult, clst: dword)
    requires fp.Shape()
    modifies fp`chain, fp`orgClust
    modifies fp.fs`winsect, fp.fs`wflag, fp.fs`fsiFlag, fp.fs`freeClust, fp.fs`lastClust, fp.fs.win, fp.fs.drive
    ensures |fp.fs.drive.sectors| == old(|fp.fs.drive.sectors|)
    ensures res == Ok || res == DiskErr || res == IntErr
    ensures res == Ok ==> fp.Shape()
    ensures old(Good(fp)) ==> res != DiskErr && (res == IntErr ==> HasBadEntry(old(fp.fs.Fat())))
    ensures old(Good(fp)) && res == Ok ==>
              Good(fp) && Grew(fp.fs.g, old(fp.fs.Vol()), old(fp.State()), fp.fs.Vol(), fp.State())
              && clst == Head(fp.chain) && (clst == 0 <==> fp.chain == [])
    ensures old(Good(fp)) && res == Ok && clst == 0 ==> AllUsed(fp.fs.Fat())
    ensures old(Good(fp)) && res == Ok ==>
              Took(fp.fs.g, old(StartPoint(fp.fs, 0)), old(fp.fs.Vol()), old(fp.chain), fp.fs.Vol(), fp.chain)
              && (fp.chain != old(fp.chain) ==> old(fp.chain) == [])
    ensures res == Ok && old(Good(fp)) ==> Upkeep(fp.fs)
    ensures old(Good(fp)) ==> fp.fs.winsect == old(fp.fs.winsect) || fp.fs.g.InFat(fp.fs.winsect)
  {
    hide FatMap, Times, Steady, Store, Sectors, Grew, AllUsed, HasBadEntry, FreeCount, Chained, Took;
    hide FatFs.Mirrored, FatFs.Valid, FatFs.Shape, FatFs.Vol, FatFs.Fat;
    ghost var good := Good(fp);
    ghost var v, f := fp.fs.Vol(), fp.State();
    clst := fp.orgClust;
    if good {
      HeadFacts(fp.fs.g, v, fp.fs.winsect, f);
      GrewSame(fp.fs.g, v, fp.fs.winsect, f);
      SteadyFacts(fp.fs.g, v, fp.fs.winsect, f);
      TowardSame(fp.fs.g, StartPoint(fp.fs, 0), 0, v, f.chain);
    }
    if clst == 0 {
      clst := FollowOrStretch(fp, 0, 0);
      if clst == 1 {
        return IntErr, clst;
      }
      if clst == DISK_ERROR {
        return DiskErr, clst;
      }
      fp.orgClust := clst;
      if good {
        HeadFacts(fp.fs.g, fp.fs.Vol(), fp.fs.winsect, fp.State());
        GrewUsed(fp.fs.g, v, f, fp.fs.Vol(), fp.State());
      }
    }
    return Ok, clst;
  }

  /** The test for the shortcut. */
  predicate SameOrLater(g: Geometry, ifptr: nat, ofs: nat)
    requires g.csize > 0 && ofs > 0
  {
    ifptr > 0 && (ofs - 1) / ClusterBytes(g) >= (ifptr - 1) / ClusterBytes(g)
  }

  lemma SameOrLaterMoved(g: Geometry, ifptr: nat, ofs: nat)
    requires g.csize > 0 && ofs > 0 && SameOrLater(g, ifptr, ofs)
    ensures ifptr > 0
  {
  }

  /** The shortcut: the current cluster starts at or in front of the target's. */
  lemma Shortcut(g: Geometry, f: FileState, ofs: nat) returns (ci: nat)
    requires g.csize > 0 && Positioned(g, f) && ofs > 0 && SameOrLater(g, f.fptr, ofs)
    ensures ci < |f.chain| && f.currClust == f.chain[ci]
    ensures AlignDown(f.fptr - 1, ClusterBytes(g)) == 512 * Times(ci, g.csize) < ofs
  {
    ci :| At(g, f, ci);
    ClusterFloor(g, ci, f.fptr - 1);
    FloorLess(ofs - 1, f.fptr - 1, ClusterBytes(g));
  }

  /** The cluster-following loop as a function: from chain position ci, ofs bytes on. */
  function Walk(g: Geometry, ci: nat, ofs: nat): (nat, nat)
    requires g.csize > 0
    decreases ofs
  {
    if ofs > ClusterBytes(g) then Walk(g, ci + 1, ofs - ClusterBytes(g)) else (ci, ofs)
  }

  /** Skipping c whole clusters does not change where the walk ends. */
  lemma {:induction false} WalkSkips(g: Geometry, ci: nat, c: nat, ofs: nat)
    requires g.csize > 0 && 512 * Times(c, g.csize) < ofs
    ensures Walk(g, ci, ofs) == Walk(g, ci + c, ofs - 512 * Times(c, g.csize))
    decreases c
  {
    if c > 0 {
      WalkSkips(g, ci + 1, c - 1, ofs - ClusterBytes(g));
    }
  }

  /** The shortcut from the current cluster ends at the same cluster and offset as the walk from the first one. */
  lemma ShortcutAgrees(g: Geometry, f: FileState, ofs: nat) returns (ci: nat)
    requires g.csize > 0 && Positioned(g, f) && ofs > 0 && SameOrLater(g, f.fptr, ofs)
    ensures ci < |f.chain| && f.currClust == f.chain[ci]
    ensures 0 <= AlignDown(f.fptr - 1, ClusterBytes(g)) < ofs
    ensures Walk(g, ci, ofs - AlignDown(f.fptr - 1, ClusterBytes(g))) == Walk(g, 0, ofs)
  {
    hide AlignDown, SameOrLater, Positioned;
    SameOrLaterMoved(g, f.fptr, ofs);
    ci := Shortcut(g, f, ofs);
    WalkSkips(g, 0, ci, ofs);
  }

  lemma ShortcutStart(g: Geometry, v: seq<Sector>, winsect: nat, f: FileState, h: FileState, ofs: nat)
    returns (ci: nat)
    requires Steady(g, v, winsect, h) && Positioned(g, f) && f.fptr > 0 && ofs > 0 && g.csize > 0
    requires h.chain == f.chain && h.currClust == f.currClust
    requires SameOrLater(g, f.fptr, ofs)
    ensures var h' := h.(fptr := AlignDown(f.fptr - 1, ClusterBytes(g)));
            && Walking(g, h', ci) && h'.fptr < ofs && h'.fptr % 512 == 0 && h.currClust != 0
            && Steady(g, v, winsect, h') && Grew(g, v, h, v, h')
  {
    hide AlignDown, SameOrLater, Positioned, FatMap, Sectors, Times, Steady, Store, Grew, Chained;
    HeadFacts(g, v, winsect, h);
    SteadyFacts(g, v, winsect, h);
    ci := Shortcut(g, f, ofs);
    GrewSame(g, v, winsect, h);
    var h' := h.(fptr := AlignDown(f.fptr - 1, ClusterBytes(g)));
    GrewMoves(g, v, h, v, winsect, h, h');
  }

  lemma StartBelow(g: Geometry, ifptr: nat, ofs: nat)
    requires g.csize > 0 && ofs > 0 && SameOrLater(g, ifptr, ofs)
    ensures 0 <= AlignDown(ifptr - 1, ClusterBytes(g)) < ofs
  {
    FloorLess(ofs - 1, ifptr - 1, ClusterBytes(g));
  }

  /** Where the walk starts: the current cluster for a target in the same or a later one, else the first. */
  method SeekStart(fp: File, ifptr: dword, ofs: dword, ghost f0: FileState)
    returns (res: FResult, clst: dword, rest: dword, ghost ci: nat)
    requires fp.Shape() && ofs > 0 && fp.fptr == 0 && f0.fptr == ifptr
    modifies fp`chain, fp`orgClust, fp`currClust, fp`fptr
    modifies fp.fs`winsect, fp.fs`wflag, fp.fs`fsiFlag, fp.fs`freeClust, fp.fs`lastClust, fp.fs.win, fp.fs.drive
    ensures |fp.fs.drive.sectors| == old(|fp.fs.drive.sectors|)
    ensures res == Ok || res == DiskErr || res == IntErr
    ensures res == Ok ==> fp.Shape() && fp.fptr + rest == ofs
    ensures old(Rewound(fp, f0, ofs)) ==> res != DiskErr && (res == IntErr ==> HasBadEntry(old(fp.fs.Fat())))
    ensures old(Rewound(fp, f0, ofs)) && res == Ok ==>
              Good(fp) && Grew(fp.fs.g, old(fp.fs.Vol()), old(fp.State()), fp.fs.Vol(), fp.State())
    ensures old(Rewound(fp, f0, ofs)) && res == Ok && clst == 0 ==>
              fp.chain == [] && fp.fptr == 0 && fp.canWrite && AllUsed(fp.fs.Fat())
    ensures old(Rewound(fp, f0, ofs)) && res == Ok && clst != 0 ==> CanWalk(fp, ci, clst, rest)
    ensures old(Rewound(fp, f0, ofs)) && res == Ok ==>
              Took(fp.fs.g, old(StartPoint(fp.fs, 0)), old(fp.fs.Vol()), old(fp.chain), fp.fs.Vol(), fp.chain)
              && (fp.chain != old(fp.chain) ==> old(fp.chain) == [])
    ensures res == Ok && old(Rewound(fp, f0, ofs)) ==> Upkeep(fp.fs)
    ensures old(Rewound(fp, f0, ofs)) ==> fp.fs.winsect == old(fp.fs.winsect) || fp.fs.g.InFat(fp.fs.winsect)
  {
    hide FatMap, Times, Steady, Store, Sectors, Grew, AllUsed, HasBadEntry, FreeCount, Chained, Walking, Positioned;
    hide AlignDown, SameOrLater, Took, Toward, Lengthened;
    hide FatFs.Mirrored, FatFs.Valid, FatFs.Shape, FatFs.Vol, FatFs.Fat;
    ghost var good := Rewound(fp, f0, ofs);
    ghost var v, w, f := fp.fs.Vol(), fp.fs.winsect, fp.State();
    ci := 0;
    rest := ofs;
    if SameOrLater(fp.fs.g, ifptr, ofs) {
      SameOrLaterMoved(fp.fs.g, ifptr, ofs);
      StartBelow(fp.fs.g, ifptr, ofs);
      fp.fptr := AlignDown(ifptr - 1, ClusterBytes(fp.fs.g));
      rest := ofs - fp.fptr;
      clst := fp.currClust;
      if good {
        ci := ShortcutStart(fp.fs.g, v, fp.fs.winsect, f0, f, ofs);
        SteadyFacts(fp.fs.g, v, w, f);
        TowardSame(fp.fs.g, StartPoint(fp.fs, 0), 0, v, f.chain);
      }
    } else {
      res, clst := FirstForSeek(fp);
      if res != Ok {
        return;
      }
      ghost var h := fp.State();
      fp.currClust := clst;
      if good {
        GrewMoves(fp.fs.g, v, f, fp.fs.Vol(), fp.fs.winsect, h, fp.State());
        HeadFacts(fp.fs.g, v, w, f);
        HeadFacts(fp.fs.g, fp.fs.Vol(), fp.fs.winsect, fp.State());
        FirstWalking(fp.fs.g, fp.State());
      }
    }
    res := Ok;
  }

  lemma FirstWalking(g: Geometry, f: FileState)
    requires f.fptr == 0
    ensures f.chain != [] && f.currClust == f.chain[0] ==> Walking(g, f, 0)
  {
    assert Times(0, g.csize) == 0;
  }

  // ----- the end of the walk: pointer, sector and buffer -----

  /** Only the buffer is still missing: nsect is the sector under a pointer inside a sector. */
  ghost predicate Loadable(fp: File, nsect: nat)
    reads fp, fp.buf, fp.fs`winsect, fp.fs`wflag, fp.fs`fsiFlag, fp.fs`lastClust, fp.fs`freeClust, fp.fs.win, fp.fs.drive
  {
    && fp.Shape() && fp.fs.Valid() && fp.fs.drive.reliable
    && LoadState(fp.fs.g, fp.fs.Vol(), fp.fs.winsect, fp.State(), nsect)
  }

  ghost predicate LoadState(g: Geometry, v: seq<Sector>, winsect: nat, f: FileState, nsect: nat) {
    && Steady(g, v, winsect, f.(fptr := 0))
    && Positioned(g, f) && Clusters(g, f.chain)
    && (f.fptr % 512 != 0 ==> f.fptr / 512 < |FileSectors(g, f)| && nsect == FileSectors(g, f)[f.fptr / 512])
  }

  lemma LoadStart(g: Geometry, v: seq<Sector>, winsect: nat, f: FileState, nsect: nat)
    requires LoadState(g, v, winsect, f, nsect)
    ensures f.fptr % 512 == 0 || nsect == f.dsect ==> Steady(g, v, winsect, f) && Grew(g, v, f, v, f)
    ensures f.fptr % 512 != 0 ==> g.FatEnd() <= nsect < |v| && nsect != winsect
    ensures f.dirty ==> g.FatEnd() <= f.dsect < |v| && f.dsect != winsect
  {
    hide FatMap, Times, Sectors, Steady, Positioned, Grew, Store, Chained;
    var h := f.(fptr := 0);
    SteadyFacts(g, v, winsect, h);
    DataBase(g);
    if f.dirty {
      FlushKeeps(g, v, winsect, h);
    }
    if f.fptr % 512 == 0 || nsect == f.dsect {
      SteadyMoves(g, v, winsect, h, winsect, f);
      GrewSame(g, v, winsect, f);
    }
    if f.fptr % 512 != 0 {
      RowOfOne(FileSectors(g, f), f.fptr / 512);
      RowAvoids(g, v, winsect, h, f.fptr / 512, nsect, 1);
    }
  }

  lemma RowOfOne(ss: seq<nat>, j: nat)
    requires j < |ss|
    ensures InRow(ss, j, ss[j], 1)
  {
  }

  /** Buffer written back, sector under the pointer loaded. */
  lemma LoadDone(g: Geometry, v: seq<Sector>, winsect: nat, f: FileState, nsect: nat, f': FileState)
    requires LoadState(g, v, winsect, f, nsect) && f.fptr % 512 != 0
    requires nsect < |v| && f' == f.(dirty := false, dsect := nsect, buf := FileVol(v, f)[nsect])
    ensures Steady(g, FileVol(v, f), winsect, f') && Positioned(g, f')
    ensures Grew(g, v, f, FileVol(v, f), f')
    ensures Fits(g, v) && Fits(g, FileVol(v, f)) && FatMap(g, FileVol(v, f)) == FatMap(g, v)
  {
    hide FatMap, Times, Sectors, Steady, Positioned, Store;
    var h, w := f.(fptr := 0), FileVol(v, f);
    SteadyFacts(g, v, winsect, h);
    if f.dirty {
      FlushKeeps(g, v, winsect, h);
    } else {
      assert h.(dirty := false) == h;
    }
    FileVolOnly(g, v, winsect, h);
    var h1 := h.(dirty := false);
    FillKeeps(g, w, winsect, h1, nsect);
    SteadyMoves(g, w, winsect, h1.(dsect := nsect, buf := w[nsect]), winsect, f');
    SteadyFacts(g, w, winsect, f');
    PositionedSame(g, f, f');
    hide OnlyIn, Chained, FileVol;
    ExtendsSame(g, v, w, f.chain);
    StoreIgnores(g, v, f, h);
  }

  lemma StoreIgnores(g: Geometry, v: seq<Sector>, f: FileState, h: FileState)
    requires Chained(g, v, h) && h == f.(fptr := h.fptr)
    ensures Chained(g, v, f) && Store(g, v, f) == Store(g, v, h)
  {
    hide FatMap, Times, Sectors;
  }

  /** The tail of f_lseek: a dirty buffer is written back and the sector under the pointer loaded. */
  method LoadForSeek(fp: File, nsect: nat) returns (res: FResult)
    requires fp.Shape()
    modifies fp`dirty, fp`dsect, fp.buf, fp.fs.drive
    ensures |fp.fs.drive.sectors| == old(|fp.fs.drive.sectors|)
    ensures fp.Shape() && (res == Ok || res == DiskErr) && (fp.dirty ==> old(fp.dirty))
    ensures old(Loadable(fp, nsect)) ==> res == Ok && Good(fp) && Positioned(fp.fs.g, fp.State())
    ensures old(Loadable(fp, nsect)) ==>
              Grew(fp.fs.g, old(fp.fs.Vol()), old(fp.State()), fp.fs.Vol(), fp.State())
    ensures old(Loadable(fp, nsect)) ==> fp.fs.Fat() == old(fp.fs.Fat())
    ensures old(Loadable(fp, nsect)) && fp.fptr % 512 != 0 && nsect != old(fp.dsect) ==>
              !fp.dirty && fp.dsect == nsect && fp.Tight()
    ensures fp.fptr % 512 == 0 || nsect == old(fp.dsect) ==>
              fp.dsect == old(fp.dsect) && fp.dirty == old(fp.dirty) && fp.buf[..] == old(fp.buf[..]) && fp.fs.Vol() == old(fp.fs.Vol())
    ensures old(Loadable(fp, nsect)) ==> Upkeep(fp.fs)
  {
    hide FatMap, Times, Steady, Store, Sectors, Grew, FreeCount, Chained, Positioned, LoadState;
    hide FatFs.Mirrored, FatFs.Valid, FatFs.Shape, FatFs.Vol, FatFs.Fat;
    ghost var good := Loadable(fp, nsect);
    ghost var v, w, f := fp.fs.Vol(), fp.fs.winsect, fp.State();
    if good {
      LoadStart(fp.fs.g, v, w, f, nsect);
      LoadPositioned(fp.fs.g, v, w, f, nsect);
    }
    if fp.fptr % 512 != 0 && nsect != fp.dsect {
      if fp.dirty {
        var ok := fp.fs.WriteData(fp.buf[..], fp.dsect);
        if !ok {
          return DiskErr;
        }
        fp.dirty := false;
      }
      var ok := fp.fs.ReadData(fp.buf, nsect);
      if !ok {
        return DiskErr;
      }
      fp.dsect := nsect;
      if good {
        LoadDone(fp.fs.g, v, w, f, nsect, fp.State());
      }
    }
    return Ok;
  }

  lemma LoadPositioned(g: Geometry, v: seq<Sector>, winsect: nat, f: FileState, nsect: nat)
    requires LoadState(g, v, winsect, f, nsect)
    ensures Positioned(g, f)
  {
    hide Positioned;
  }

  /** The walk ended at chain position ci, ofs bytes short of the target. */
  ghost predicate Arriving(fp: File, ci: nat, clst: nat, ofs: nat)
    reads fp, fp.buf, fp.fs`winsect, fp.fs`wflag, fp.fs`fsiFlag, fp.fs`lastClust, fp.fs`freeClust, fp.fs.win, fp.fs.drive
  {
    && Good(fp) && Walking(fp.fs.g, fp.State(), ci) && 0 < ofs <= ClusterBytes(fp.fs.g)
    && (clst != 0 ==> clst == fp.currClust) && (ofs % 512 != 0 ==> clst != 0)
  }

  lemma ArriveCluster(g: Geometry, f: FileState, ci: nat, ofs: nat)
    requires g.Valid() && Clusters(g, f.chain) && Walking(g, f, ci) && f.currClust < 0x1_0000_0000
    ensures Clust2Sect(g, f.currClust) != 0
    ensures ofs / 512 < g.csize ==>
              Times(ci, g.csize) + ofs / 512 < |FileSectors(g, f)|
              && FileSectors(g, f)[Times(ci, g.csize) + ofs / 512] == Clust2Sect(g, f.currClust) + ofs / 512
  {
    hide Sectors, Clust2Sect, Times;
    ClusterSectors(g, f.chain[ci]);
    if ofs / 512 < g.csize {
      SectorAt(g, f.chain, ci, ofs / 512);
    }
  }

  lemma ArriveLoads(g: Geometry, v: seq<Sector>, winsect: nat, f: FileState, ci: nat, ofs: nat, f': FileState)
    requires Steady(g, v, winsect, f) && Walking(g, f, ci) && 0 < ofs <= ClusterBytes(g)
    requires f.currClust < 0x1_0000_0000
    requires f' == f.(fptr := f.fptr + ofs, csect := ofs / 512 + (if ofs % 512 == 0 then 0 else 1))
    ensures Clust2Sect(g, f.currClust) != 0
    ensures ofs % 512 == 0 ==> LoadState(g, v, winsect, f', 0)
    ensures ofs % 512 != 0 ==> LoadState(g, v, winsect, f', Clust2Sect(g, f.currClust) + ofs / 512)
    ensures Grew(g, v, f, v, f')
  {
    hide FatMap, Times, Sectors, Steady, Positioned, Chained, Store, Clust2Sect, Walking, Grew;
    SteadyFacts(g, v, winsect, f);
    HeadFacts(g, v, winsect, f);
    Arrives(g, f, ci, ofs, f');
    ArriveCluster(g, f, ci, ofs);
    WalkCluster(g, f, ci);
    SteadyMoves(g, v, winsect, f, winsect, f'.(fptr := 0));
    GrewSame(g, v, winsect, f);
    SteadyFacts(g, v, winsect, f'.(fptr := 0));
    GrewPointer(g, v, f, f');
  }

  lemma GrewPointer(g: Geometry, v: seq<Sector>, f: FileState, f': FileState)
    requires Grew(g, v, f, v, f) && f' == f.(fptr := f'.fptr, csect := f'.csect)
    ensures Grew(g, v, f, v, f')
  {
    hide FatMap, Times, Sectors;
  }

  /** The pointer, the sector offset and the sector of the target. */
  method SeekArrive(fp: File, clst: dword, ofs: dword, ghost ci: nat) returns (res: FResult, nsect: nat)
    requires fp.Shape() && fp.fptr + ofs < 0x1_0000_0000
    modifies fp`fptr, fp`csect
    ensures fp.Shape() && (res == Ok || res == IntErr)
    ensures fp.fptr == old(fp.fptr) + ofs
    ensures old(Arriving(fp, ci, clst, ofs)) ==>
              res == Ok && Loadable(fp, nsect)
              && Grew(fp.fs.g, old(fp.fs.Vol()), old(fp.State()), fp.fs.Vol(), fp.State())
  {
    hide FatMap, Times, Steady, Store, Sectors, Grew, Chained, Positioned, LoadState, Clust2Sect;
    hide FatFs.Mirrored, FatFs.Valid, FatFs.Shape, FatFs.Vol, FatFs.Fat;
    ghost var good := Arriving(fp, ci, clst, ofs);
    ghost var v, f := fp.fs.Vol(), fp.State();
    nsect := 0;
    res := Ok;
    fp.fptr := fp.fptr + ofs;
    fp.csect := ofs / 512;
    if good {
      ArriveLoads(fp.fs.g, v, fp.fs.winsect, f, ci, ofs,
                  f.(fptr := f.fptr + ofs, csect := ofs / 512 + (if ofs % 512 == 0 then 0 else 1)));
    }
    if ofs % 512 != 0 {
      nsect := Clust2Sect(fp.fs.g, clst);
      if nsect == 0 {
        res := IntErr;
        return;
      }
      nsect := nsect + fp.csect;
      fp.csect := fp.csect + 1;
    }
  }

  /** Where a seek to target ends: there, or at the end of the chain when the volume is full. */
  ghost predicate Reached(fp: File, target: nat)
    requires fp.fs.Shape()
    reads fp, fp.buf, fp.fs`winsect, fp.fs`wflag, fp.fs.win, fp.fs.drive
  {
    fp.fptr == target
    || (fp.canWrite && fp.fptr < target && fp.fptr == 512 * Times(|fp.chain|, fp.fs.g.csize) && AllUsed(fp.fs.Fat()))
  }

  lemma WalkEnds(g: Geometry, f: FileState, ci: nat)
    requires Walking(g, f, ci)
    ensures ci + 1 == |f.chain| ==> f.fptr + ClusterBytes(g) == 512 * Times(|f.chain|, g.csize)
    ensures 512 * Times(0, g.csize) == 0
  {
    assert Times(ci + 1, g.csize) == Times(ci, g.csize) + g.csize;
  }

  lemma TopLoads(g: Geometry, v: seq<Sector>, winsect: nat, f: FileState)
    requires Steady(g, v, winsect, f) && f.fptr == 0 && f.csect == 255
    ensures LoadState(g, v, winsect, f, 0)
    ensures 512 * Times(|f.chain|, g.csize) >= 0 && (f.chain == [] ==> 512 * Times(|f.chain|, g.csize) == 0)
  {
    hide FatMap, Sectors;
    ChainFacts(g, v, f);
    assert f.(fptr := 0) == f;
  }

  lemma HintInside(fs: FatFs)
    requires fs.Shape()
    ensures 1 <= StartPoint(fs, 0) < fs.g.maxClust
  {
  }

  lemma SomeClusters(g: Geometry, n: nat)
    requires g.csize > 0 && n > 0
    ensures ClustersFor(g, n) >= 1
  {
    hide ClustersFor;
    assert Times(0, g.csize) == 0;
    if n <= ClusterBytes(g) {
      ClustersAt(g, 0, n);
    } else {
      ClustersBehind(g, 0, n);
    }
  }

  lemma TowardOutside(g: Geometry, hint: nat, n: nat, v: seq<Sector>, cs: seq<nat>, v1: seq<Sector>, cs1: seq<nat>, v2: seq<Sector>)
    requires Toward(g, hint, n, v, cs, v1, cs1) && SameOutsideFat(g, v1, v2)
    ensures SameOutsideFat(g, v, v2) && Lengthened(g, FatMap(g, v1), cs1, hint, n) == Lengthened(g, FatMap(g, v), cs, hint, n)
  {
    hide FatMap, Lengthened;
  }

  /** Start and walk as one growth on the way to n clusters. */
  lemma SeekJoins(g: Geometry, hint: nat, n: nat, v: seq<Sector>, f: FileState, v1: seq<Sector>, f1: FileState,
                  v2: seq<Sector>, f2: FileState)
    requires Grew(g, v, f, v1, f1) && Grew(g, v1, f1, v2, f2)
    requires Toward(g, hint, n, v, f.chain, v1, f1.chain) && SameOutsideFat(g, v1, v2)
    ensures Grew(g, v, f, v2, f2) && SameOutsideFat(g, v, v2)
    ensures Lengthened(g, FatMap(g, v1), f1.chain, hint, n) == Lengthened(g, FatMap(g, v), f.chain, hint, n)
  {
    hide Grew, Toward, FatMap;
    TowardOutside(g, hint, n, v, f.chain, v1, f1.chain, v2);
    GrewTrans(g, v, f, v1, f1, v2, f2);
  }

  /** The walk and the arrival. */
  method SeekOn(fp: File, start: dword, count: dword, ghost from: nat, ghost hint: nat) returns (res: FResult, nsect: nat)
    requires fp.Shape() && fp.fptr + count < 0x1_0000_0000
    modifies fp`chain, fp`currClust, fp`fptr, fp`csect
    modifies fp.fs`winsect, fp.fs`wflag, fp.fs`fsiFlag, fp.fs`freeClust, fp.fs`lastClust, fp.fs.win, fp.fs.drive
    ensures |fp.fs.drive.sectors| == old(|fp.fs.drive.sectors|)
    ensures res == Ok || res == DiskErr || res == IntErr
    ensures res == Ok ==> fp.Shape()
    ensures old(CanWalk(fp, from, start, count)) ==> res != DiskErr && (res == IntErr ==> HasBadEntry(old(fp.fs.Fat())))
    ensures old(CanWalk(fp, from, start, count)) && res == Ok ==>
              && Loadable(fp, nsect) && Reached(fp, old(fp.fptr) + count) && Upkeep(fp.fs)
              && Grew(fp.fs.g, old(fp.fs.Vol()), old(fp.State()), fp.fs.Vol(), fp.State())
              && (fp.fs.winsect == old(fp.fs.winsect) || fp.fs.g.InFat(fp.fs.winsect))
    ensures old(CanWalk(fp, from, start, count)) && 1 <= hint < fp.fs.g.maxClust && res == Ok ==>
              fp.chain == Lengthened(fp.fs.g, old(fp.fs.Fat()), old(fp.chain), hint, ClustersFor(fp.fs.g, old(fp.fptr) + count))
              && SameOutsideFat(fp.fs.g, old(fp.fs.Vol()), fp.fs.Vol())
  {
    hide FatMap, Times, Steady, Store, Sectors, Grew, AllUsed, HasBadEntry, FreeCount, Chained, Walking, LoadState, Lengthened, ClustersFor;
    hide FatFs.Mirrored, FatFs.Valid, FatFs.Shape, FatFs.Vol, FatFs.Fat;
    ghost var good := CanWalk(fp, from, start, count);
    ghost var v, f := fp.fs.Vol(), fp.State();
    var clst, ofs;
    ghost var ci;
    nsect := 0;
    res, clst, ofs, ci := WalkChain(fp, start, count, from, hint);
    if res != Ok {
      return;
    }
    ghost var v1, f1 := fp.fs.Vol(), fp.State();
    res, nsect := SeekArrive(fp, clst, ofs, ci);
    if good {
      WalkEnds(fp.fs.g, f1, ci);
      GrewTrans(fp.fs.g, v, f, v1, f1, fp.fs.Vol(), fp.State());
    }
  }

  /** The part of f_lseek behind the shortcut decision, for a target other than the top. */
  method SeekTo(fp: File, ifptr: dword, target: dword, ghost f0: FileState) returns (res: FResult, nsect: nat)
    requires fp.Shape() && target > 0 && fp.fptr == 0 && fp.csect == 255 && f0.fptr == ifptr
    modifies fp`chain, fp`orgClust, fp`currClust, fp`fptr, fp`csect
    modifies fp.fs`winsect, fp.fs`wflag, fp.fs`fsiFlag, fp.fs`freeClust, fp.fs`lastClust, fp.fs.win, fp.fs.drive
    ensures |fp.fs.drive.sectors| == old(|fp.fs.drive.sectors|)
    ensures res == Ok || res == DiskErr || res == IntErr
    ensures res == Ok ==> fp.Shape()
    ensures old(Rewound(fp, f0, target)) ==> res != DiskErr && (res == IntErr ==> HasBadEntry(old(fp.fs.Fat())))
    ensures old(Rewound(fp, f0, target)) && res == Ok ==>
              && Loadable(fp, nsect) && Reached(fp, target) && Upkeep(fp.fs)
              && Grew(fp.fs.g, old(fp.fs.Vol()), old(fp.State()), fp.fs.Vol(), fp.State())
              && fp.chain == Lengthened(fp.fs.g, old(fp.fs.Fat()), old(fp.chain), old(StartPoint(fp.fs, 0)), ClustersFor(fp.fs.g, target))
              && SameOutsideFat(fp.fs.g, old(fp.fs.Vol()), fp.fs.Vol())
              && (fp.fs.winsect == old(fp.fs.winsect) || fp.fs.g.InFat(fp.fs.winsect))
  {
    hide FatMap, Times, Steady, Store, Sectors, Grew, AllUsed, HasBadEntry, FreeCount, Chained, Walking, Positioned, LoadState, Took, Toward, Lengthened, ClustersFor;
    hide FatFs.Mirrored, FatFs.Valid, FatFs.Shape, FatFs.Vol, FatFs.Fat;
    ghost var good := Rewound(fp, f0, target);
    ghost var v, f := fp.fs.Vol(), fp.State();
    nsect := 0;
    var clst, ofs: dword;
    ghost var ci: nat;
    ghost var hint, n := StartPoint(fp.fs, 0), ClustersFor(fp.fs.g, target);
    if good {
      SteadyFacts(fp.fs.g, v, fp.fs.winsect, f);
      HintInside(fp.fs);
      SomeClusters(fp.fs.g, target);
    }
    res, clst, ofs, ci := SeekStart(fp, ifptr, target, f0);
    if res != Ok {
      return;
    }
    ghost var v1, f1 := fp.fs.Vol(), fp.State();
    if good {
      GrewClusters(fp.fs.g, v, f, v1, f1);
      TookToward(fp.fs.g, hint, n, v, f.chain, v1, f1.chain);
    }
    if clst == 0 {
      if good {
        TopLoads(fp.fs.g, v1, fp.fs.winsect, f1);
        TowardDone(fp.fs.g, hint, n, v, f.chain, v1, f1.chain);
      }
      return;
    }
    if good {
      GrewUsed(fp.fs.g, v, f, v1, f1);
    }
    res, nsect := SeekOn(fp, clst, ofs, ci, hint);
    if good && res == Ok {
      SeekJoins(fp.fs.g, hint, n, v, f, v1, f1, fp.fs.Vol(), fp.State());
    }
  }

  /** Starting a seek changes no byte of the file. */
  lemma Rewind(g: Geometry, v: seq<Sector>, winsect: nat, f: FileState)
    requires Steady(g, v, winsect, f)
    ensures var h := f.(fptr := 0, csect := 255); Steady(g, v, winsect, h) && Grew(g, v, f, v, h)
  {
    hide FatMap, Times, Sectors, Steady, Grew;
    var h := f.(fptr := 0, csect := 255);
    GrewSame(g, v, winsect, f);
    GrewMoves(g, v, f, v, winsect, f, h);
  }

  /** The condition before the seek decides whether the buffer is right for the new size. */
  lemma SeekRight(g: Geometry, v: seq<Sector>, winsect: nat, f: FileState, hint: nat, target: nat,
                  v': seq<Sector>, winsect': nat, f': FileState)
    requires FileOk(g, v, winsect, f) && Steady(g, v', winsect', f') && Positioned(g, f') && f'.fsize == f.fsize
    requires Chained(g, v, f) && Clusters(g, f.chain) && f'.chain == SeekChain(g, v, hint, f, target)
    requires f'.fptr == SeekEnd(g, v, hint, f, target) && Moved(g, v, f, v', f')
    ensures Clusters(g, f'.chain) && (RightTo(g, v', f', Limit(f')) <==> !SeekSpoils(g, v, hint, f, target))
  {
    hide FatMap, Times, Sectors, Lengthened, ClustersFor, Positioned, RightTo, Placed, Exact;
    SteadyFacts(g, v', winsect', f');
    if f'.fptr <= f.fsize {
      SteadyRight(g, v', winsect', f');
    } else if f'.fptr % 512 != 0 && FileSectors(g, f')[f'.fptr / 512] != f.dsect {
      ExactRight(g, v', f', Limit(f'));
    } else if f.dirty {
      DirtyRight(g, v', f', Limit(f'));
    } else {
      RightSame(g, v, winsect, f, v', f', f'.fptr);
    }
  }

  lemma RightSame(g: Geometry, v: seq<Sector>, winsect: nat, f: FileState, v': seq<Sector>, f': FileState, n: nat)
    requires Steady(g, v, winsect, f) && SameOutsideFat(g, v, v') && Clusters(g, f'.chain)
    requires f'.dsect == f.dsect && f'.dirty == f.dirty && f'.buf == f.buf
    ensures RightTo(g, v', f', n) <==> RightTo(g, v, f.(chain := f'.chain), n)
  {
    hide FatMap, Times, Sectors;
    ChainFacts(g, v, f);
    DataBase(g);
  }

  lemma EndReached(g: Geometry, v: seq<Sector>, f: FileState, v': seq<Sector>, f': FileState, hint: nat, target: nat)
    requires Chained(g, v, f) && Clusters(g, f.chain) && f'.chain == SeekChain(g, v, hint, f, target)
    requires Chained(g, v', f') && Positioned(g, f')
    requires f'.fptr == target || (f'.fptr < target && f'.fptr == 512 * Times(|f'.chain|, g.csize))
    ensures f'.fptr == SeekEnd(g, v, hint, f, target)
  {
    hide FatMap, Times, Sectors, Lengthened, ClustersFor, Positioned;
    PositionFits(g, v', f');
  }

  /** The end of a seek: the size is raised to the pointer if need be. */
  lemma SeekEnds(g: Geometry, v: seq<Sector>, f: FileState, v': seq<Sector>, winsect: nat, f': FileState, h: FileState)
    requires Grew(g, v, f, v', f') && Steady(g, v', winsect, f') && Positioned(g, f') && f'.fsize == f.fsize
    requires h == f'.(fsize := Limit(f'))
    ensures Framed(g, v', winsect, h) && Clusters(g, h.chain)
    ensures FileOk(g, v', winsect, h) <==> RightTo(g, v', f', Limit(f'))
    ensures Content(g, v, f) <= Content(g, v', h)
    ensures Extends(g, v, v', f.chain, h.chain) && OnlyIn(g, v, v', FileSectors(g, h))
  {
    hide FatMap, Times, Sectors, Store, Positioned, Steady, OnlyIn, Extends, RightTo;
    SteadyFacts(g, v', winsect, f');
    PositionFits(g, v', f');
    Enlarge(g, v', winsect, f', h);
    PositionedResize(g, f', h);
    PoisedResize(g, v', winsect, f', h);
    hide Chained, Poised;
    SizeFits(g, v, f);
    PrefixPrefix(Store(g, v, f), Store(g, v', f'), f.fsize, h.fsize);
  }

  lemma PoisedResize(g: Geometry, v: seq<Sector>, winsect: nat, f: FileState, h: FileState)
    requires Steady(g, v, winsect, f) && h == f.(fsize := h.fsize)
    ensures Clusters(g, h.chain) && Poised(g, v, h)
  {
    hide Sectors, Times, Chained, Placed, RightTo;
    SteadyHoused(g, v, winsect, f);
  }

  lemma MovedExact(g: Geometry, v: seq<Sector>, winsect: nat, f: FileState, v': seq<Sector>, f': FileState)
    requires Steady(g, v, winsect, f) && Moved(g, v, f, v', f')
    ensures Exact(v, f) ==> Exact(v', f')
  {
    hide FatMap, Times, Sectors, Exact, Steady;
    if SameOutsideFat(g, v, v') && f'.dsect == f.dsect && f'.dirty == f.dirty && f'.buf == f.buf {
      ExactOutside(g, v, winsect, f, v', f');
    }
  }

  /** All a seek comes to, on values: f1 is the state before the size is raised. */
  lemma SeekDone(g: Geometry, v: seq<Sector>, winsect: nat, f: FileState, hint: nat, target: nat,
                 v': seq<Sector>, winsect': nat, f1: FileState, h: FileState, o: Slot)
    requires FileOk(g, v, winsect, f) && Steady(g, v', winsect', f1) && Positioned(g, f1)
    requires Grew(g, v, f, v', f1) && f1.fsize == f.fsize && f1.dirSect == f.dirSect && (f1.dirty ==> f.dirty)
    requires Clusters(g, f.chain) && f1.chain == SeekChain(g, v, hint, f, target) && Moved(g, v, f, v', f1)
    requires f1.fptr == target || (f1.fptr < target && f1.fptr == 512 * Times(|f1.chain|, g.csize))
    requires target == 0 ==> f1.chain == f.chain
    requires h == f1.(fsize := Limit(f1))
    ensures Framed(g, v', winsect', h) && Clusters(g, h.chain)
    ensures FileOk(g, v', winsect', h) <==> !SeekSpoils(g, v, hint, f, target)
    ensures h.fptr == SeekEnd(g, v, hint, f, target)
    ensures Content(g, v, f) <= Content(g, v', h)
    ensures Extends(g, v, v', f.chain, h.chain) && OnlyIn(g, v, v', FileSectors(g, h))
    ensures Exact(v, f) ==> Exact(v', h)
    ensures Noted(v, f, o) && h.fsize == f.fsize ==> Noted(v', h, o)
  {
    hide FatMap, Times, Sectors, Store, Positioned, Steady, OnlyIn, Extends, RightTo, SeekSpoils, SeekChain, SeekEnd, Moved, Exact;
    hide Chained, Noted, Content, Framed;
    OkParts(g, v, winsect, f);
    SteadyFacts(g, v, winsect, f);
    SteadyFacts(g, v', winsect', f1);
    EndReached(g, v, f, v', f1, hint, target);
    SeekRight(g, v, winsect, f, hint, target, v', winsect', f1);
    SeekEnds(g, v, f, v', winsect', f1, h);
    MovedExact(g, v, winsect, f, v', f1);
    SameExact(v', f1, h);
    if h.fsize == f.fsize {
      GrewClusters(g, v, f, v', f1);
      StartKept(g, v, f, v', f1, target);
      NotedKept(g, v, f, v', winsect', f1, o);
    }
  }

  lemma OkParts(g: Geometry, v: seq<Sector>, winsect: nat, f: FileState)
    requires FileOk(g, v, winsect, f)
    ensures Steady(g, v, winsect, f) && Positioned(g, f) && f.fptr <= f.fsize
  {
    hide Steady, Positioned;
  }

  lemma SameExact(v: seq<Sector>, f: FileState, h: FileState)
    requires h == f.(fsize := h.fsize)
    ensures Exact(v, h) <==> Exact(v, f)
  {
  }

  /** A larger size is fine but for the buffer. */
  lemma Enlarge(g: Geometry, v: seq<Sector>, winsect: nat, f: FileState, h: FileState)
    requires Steady(g, v, winsect, f) && f.fsize <= h.fsize <= |Store(g, v, f)| && h == f.(fsize := h.fsize)
    ensures Chained(g, v, h) && Store(g, v, h) == Store(g, v, f) && Clusters(g, h.chain) && Placed(g, v, winsect, h)
    ensures Steady(g, v, winsect, h) <==> RightTo(g, v, f, h.fsize)
  {
    hide FatMap, Times, Sectors;
  }

  lemma PrefixPrefix(a: seq<byte>, b: seq<byte>, m: nat, n: nat)
    requires a <= b && m <= |a| && m <= n <= |b|
    ensures a[..m] <= b[..n]
  {
  }

  /** The buffer after a seek: the sector under the pointer was loaded, or buffer and data are as they were. */
  ghost predicate Moved(g: Geometry, v: seq<Sector>, f: FileState, v': seq<Sector>, f': FileState) {
    && Clusters(g, f'.chain) && (f'.fptr % 512 != 0 ==> f'.fptr / 512 < |FileSectors(g, f')|)
    && if f'.fptr % 512 != 0 && FileSectors(g, f')[f'.fptr / 512] != f.dsect then !f'.dirty && Exact(v', f')
       else f'.dsect == f.dsect && f'.dirty == f.dirty && f'.buf == f.buf && SameOutsideFat(g, v, v')
  }

  lemma LoadMoved(g: Geometry, v: seq<Sector>, f: FileState, v1: seq<Sector>, winsect: nat, f1: FileState, nsect: nat,
                  v': seq<Sector>, f': FileState)
    requires LoadState(g, v1, winsect, f1, nsect) && SameOutsideFat(g, v, v1)
    requires f1.dsect == f.dsect && f1.dirty == f.dirty && f1.buf == f.buf
    requires f' == f1.(dsect := f'.dsect, dirty := f'.dirty, buf := f'.buf)
    requires f1.fptr % 512 != 0 && nsect != f.dsect ==> !f'.dirty && Exact(v', f')
    requires f1.fptr % 512 == 0 || nsect == f.dsect ==>
               f'.dsect == f.dsect && f'.dirty == f.dirty && f'.buf == f.buf && v' == v1
    ensures Moved(g, v, f, v', f')
  {
    hide FatMap, Times, Sectors, Steady, Positioned, Exact;
  }

  lemma NoChange(g: Geometry, v: seq<Sector>, winsect: nat, f: FileState, hint: nat)
    requires Steady(g, v, winsect, f)
    ensures Fits(g, v) && Clusters(g, f.chain)
    ensures f.chain == Lengthened(g, FatMap(g, v), f.chain, hint, ClustersFor(g, 0))
  {
    hide FatMap, Times, Sectors, ClustersFor;
    ChainFacts(g, v, f);
    NoClusters(g);
  }

  lemma NoClusters(g: Geometry)
    requires g.csize > 0
    ensures ClustersFor(g, 0) == 0
  {
    DivUnique(ClusterBytes(g) - 1, ClusterBytes(g), 0, ClusterBytes(g) - 1);
  }

  // ----- a seek over a sector the clean buffer is wrong about -----

  /** The chain after a seek to target, and where the pointer comes to: a full volume may end the seek early. */
  ghost function SeekChain(g: Geometry, v: seq<Sector>, hint: nat, f: FileState, target: nat): seq<nat>
    requires Chained(g, v, f) && Clusters(g, f.chain)
  {
    Lengthened(g, FatMap(g, v), f.chain, hint, ClustersFor(g, target))
  }

  ghost function SeekEnd(g: Geometry, v: seq<Sector>, hint: nat, f: FileState, target: nat): nat
    requires Chained(g, v, f) && Clusters(g, f.chain)
  {
    var p := 512 * Times(|SeekChain(g, v, hint, f, target)|, g.csize);
    if target < p then target else p
  }

  /**
    What a caller has to check before f_lseek: it extends the file over the sector of the clean buffer, the
    buffer differs from that sector between the old end of the file and the new one, and no other sector is
    loaded in the end.
   */
  ghost predicate SeekSpoils(g: Geometry, v: seq<Sector>, hint: nat, f: FileState, target: nat)
    requires Chained(g, v, f) && Clusters(g, f.chain)
  {
    var cs, p := SeekChain(g, v, hint, f, target), SeekEnd(g, v, hint, f, target);
    && p > f.fsize && !f.dirty && Clusters(g, cs)
    && !RightTo(g, v, f.(chain := cs), p)
    && (p % 512 != 0 && p / 512 < |Sectors(g, cs)| ==> Sectors(g, cs)[p / 512] == f.dsect)
  }

  /** A file whose clean buffer is what its sector holds can seek anywhere. */
  lemma ExactSeeks(g: Geometry, v: seq<Sector>, hint: nat, f: FileState, target: nat)
    requires Chained(g, v, f) && Clusters(g, f.chain) && Exact(v, f)
    ensures !SeekSpoils(g, v, hint, f, target)
  {
    hide FatMap, Times, Sectors, Lengthened, ClustersFor;
    var cs := SeekChain(g, v, hint, f, target);
    if Clusters(g, cs) && f.dsect == 0 {
      forall j | 0 <= j < |Sectors(g, cs)|
        ensures Sectors(g, cs)[j] != 0
      {
        SectorsData(g, cs, j);
        DataFirst(g);
      }
    }
  }

  /** The body of f_lseek up to the size: the pointer and the buffer are moved. */
  method MovePointer(fp: File, ofs: dword) returns (res: FResult)
    requires fp.Valid() && (fp.canWrite || ofs <= fp.fsize)
    modifies fp`chain, fp`orgClust, fp`currClust, fp`csect, fp`dirty, fp`dsect, fp`fptr, fp.buf
    modifies fp.fs`winsect, fp.fs`wflag, fp.fs`fsiFlag, fp.fs`freeClust, fp.fs`lastClust, fp.fs.win, fp.fs.drive
    ensures |fp.fs.drive.sectors| == old(|fp.fs.drive.sectors|)
    ensures res == Ok || res == DiskErr || res == IntErr
    ensures (fp.dirty ==> old(fp.dirty)) && (ofs == 0 ==> fp.chain == old(fp.chain))
    ensures fp.fs.drive.reliable ==> res == Ok || (res == IntErr && HasBadEntry(old(fp.fs.Fat())))
    ensures fp.fs.drive.reliable && res == Ok ==>
              Good(fp) && Positioned(fp.fs.g, fp.State()) && Reached(fp, ofs)
              && Grew(fp.fs.g, old(fp.fs.Vol()), old(fp.State()), fp.fs.Vol(), fp.State())
    ensures fp.fs.drive.reliable && res == Ok ==>
              fp.chain == Lengthened(fp.fs.g, old(fp.fs.Fat()), old(fp.chain), old(StartPoint(fp.fs, 0)), ClustersFor(fp.fs.g, ofs))
              && Moved(fp.fs.g, old(fp.fs.Vol()), old(fp.State()), fp.fs.Vol(), fp.State())
    ensures fp.fs.drive.reliable && res == Ok ==> Upkeep(fp.fs)
    ensures fp.fs.drive.reliable && res == Ok ==> fp.fs.winsect == old(fp.fs.winsect) || fp.fs.g.InFat(fp.fs.winsect)
  {
    hide FatMap, Times, Steady, Store, Sectors, Grew, AllUsed, HasBadEntry, FreeCount, Chained, Positioned, LoadState, Lengthened, ClustersFor, Moved, Exact;
    hide FatFs.Mirrored, FatFs.Valid, FatFs.Shape, FatFs.Vol, FatFs.Fat;
    res := Ok;
    ghost var v, f := fp.fs.Vol(), fp.State();
    ghost var good := fp.fs.drive.reliable;
    Rewind(fp.fs.g, v, fp.fs.winsect, f);
    var ifptr := fp.fptr;
    var nsect := 0;
    fp.fptr := 0;
    fp.csect := 255;
    ghost var f0 := fp.State();
    if good {
      TopLoads(fp.fs.g, v, fp.fs.winsect, f0);
      NoChange(fp.fs.g, v, fp.fs.winsect, f, StartPoint(fp.fs, 0));
    }
    if ofs > 0 {
      res, nsect := SeekTo(fp, ifptr, ofs, f);
      if res != Ok {
        return;
      }
    }
    ghost var v1, f1 := fp.fs.Vol(), fp.State();
    res := LoadForSeek(fp, nsect);
    if good {
      if ofs > 0 {
        GrewTrans(fp.fs.g, v, f, v, f0, v1, f1);
      }
      GrewTrans(fp.fs.g, v, f, v1, f1, fp.fs.Vol(), fp.State());
      LoadMoved(fp.fs.g, v, f, v1, fp.fs.winsect, f1, nsect, fp.fs.Vol(), fp.State());
    }
  }

  lemma DataContent(fp: File)
    requires fp.IsSteady()
    ensures Chained(fp.fs.g, fp.fs.Vol(), fp.State()) && fp.Data() == Content(fp.fs.g, fp.fs.Vol(), fp.State())
  {
    hide Steady, Store, FatFs.Shape, FatFs.Vol, FatFs.Valid;
  }

  lemma ValidFileOk(fp: File)
    requires fp.Shape() && fp.fs.Valid()
    ensures fp.Valid() <==>
              FileOk(fp.fs.g, fp.fs.Vol(), fp.fs.winsect, fp.State())
              && (fp.written || Noted(fp.fs.Vol(), fp.State(), fp.dirOfs))
  {
    hide Noted, FatFs.Shape, FatFs.Vol, FatFs.Valid, Steady, Positioned;
  }

  /** The offset a seek aims at: clipped to the size unless the file is open for writing. */
  function Target(canWrite: bool, fsize: nat, ofs: nat): nat {
    if ofs > fsize && !canWrite then fsize else ofs
  }

  /**
    f_lseek. On a drive without failures the pointer is at the target, or at the end of a chain that a
    full volume could not lengthen; the bytes below the old size are unchanged, and those a raised size
    exposes are whatever the clusters held.
   */
  method Seek(fp: File, offset: dword) returns (res: FResult)
    requires fp.Valid()
    modifies fp`chain, fp`orgClust, fp`currClust, fp`csect, fp`dirty, fp`dsect, fp`fptr, fp`fsize, fp`written, fp`failed
    modifies fp.buf
    modifies fp.fs`winsect, fp.fs`wflag, fp.fs`fsiFlag, fp.fs`freeClust, fp.fs`lastClust, fp.fs.win, fp.fs.drive
    ensures |fp.fs.drive.sectors| == old(|fp.fs.drive.sectors|)
    ensures old(fp.failed) ==> res == IntErr && unchanged(fp, fp.buf, fp.fs, fp.fs.win, fp.fs.drive)
    ensures !old(fp.failed) ==> (res == Ok && !fp.failed) || ((res == DiskErr || res == IntErr) && fp.failed)
    ensures fp.fs.drive.reliable && !old(fp.failed) ==>
              res == Ok || (res == IntErr && HasBadEntry(old(fp.fs.Fat())))
    ensures fp.fs.drive.reliable && res == Ok ==>
              fp.Shape() && fp.fs.Valid() && Framed(fp.fs.g, fp.fs.Vol(), fp.fs.winsect, fp.State()) && Reached(fp, Target(fp.canWrite, old(fp.fsize), offset))
    ensures fp.fs.drive.reliable && res == Ok ==>
              (fp.Valid() <==> !old(SeekSpoils(fp.fs.g, fp.fs.Vol(), StartPoint(fp.fs, 0), fp.State(),
                                               Target(fp.canWrite, fp.fsize, offset))))
    ensures fp.fs.drive.reliable && res == Ok && !fp.canWrite ==>
              fp.fptr == if offset < old(fp.fsize) then offset else old(fp.fsize)
    ensures fp.fs.drive.reliable && res == Ok && fp.canWrite ==>
              fp.fptr == offset
              || (fp.fptr < offset && fp.fptr == 512 * Times(|fp.chain|, fp.fs.g.csize) && AllUsed(fp.fs.Fat()))
    ensures fp.fs.drive.reliable && res == Ok && old(fp.Tight()) ==> fp.Tight()
    ensures fp.fs.drive.reliable && res == Ok ==> fp.written || Noted(fp.fs.Vol(), fp.State(), fp.dirOfs)
    ensures fp.fs.drive.reliable && res == Ok ==>
              old(fp.Data()) <= Content(fp.fs.g, fp.fs.Vol(), fp.State()) && fp.fsize == Max(old(fp.fsize), fp.fptr)
              && fp.written == (old(fp.written) || fp.fsize > old(fp.fsize))
    ensures fp.fs.drive.reliable && res == Ok ==>
              Extends(fp.fs.g, old(fp.fs.Vol()), fp.fs.Vol(), old(fp.chain), fp.chain)
              && OnlyIn(fp.fs.g, old(fp.fs.Vol()), fp.fs.Vol(), FileSectors(fp.fs.g, fp.State()))
    ensures fp.dirty ==> old(fp.dirty)
    ensures fp.fs.drive.reliable && res == Ok ==> Upkeep(fp.fs)
    ensures fp.fs.drive.reliable && res == Ok ==> fp.fs.winsect == old(fp.fs.winsect) || fp.fs.g.InFat(fp.fs.winsect)
  {
    hide FatMap, Times, Steady, Store, Sectors, Grew, AllUsed, HasBadEntry, FreeCount, Chained, Positioned, LoadState;
    hide OnlyIn, Noted, FileOk, Framed, Content, Moved, Exact, Lengthened, ClustersFor, SeekSpoils, SeekEnd, Extends;
    hide FatFs.Mirrored, FatFs.Valid, FatFs.Shape, FatFs.Vol, FatFs.Fat;
    res := Ok;
    if fp.failed {
      return IntErr;
    }
    ghost var v, w, f, hint := fp.fs.Vol(), fp.fs.winsect, fp.State(), StartPoint(fp.fs, 0);
    ValidFileOk(fp);
    DataContent(fp);
    var ofs := offset;
    if ofs > fp.fsize && !fp.canWrite {
      ofs := fp.fsize;
    }
    res := MovePointer(fp, ofs);
    if res != Ok {
      fp.failed := true;
      return;
    }
    ghost var f1 := fp.State();
    if fp.fptr > fp.fsize {
      fp.fsize := fp.fptr;
      fp.written := true;
    }
    if fp.fs.drive.reliable {
      SeekDone(fp.fs.g, v, w, f, hint, ofs, fp.fs.Vol(), fp.fs.winsect, f1, fp.State(), fp.dirOfs);
      ValidFileOk(fp);
    }
  }

  /** A seek that raises no size gives an empty file no cluster. */
  lemma StartKept(g: Geometry, v: seq<Sector>, f: FileState, v': seq<Sector>, f': FileState, ofs: nat)
    requires g.csize > 0 && Chained(g, v, f) && Chained(g, v', f') && f.chain <= f'.chain && f'.fsize == f.fsize
    requires ofs == 0 ==> f'.chain == f.chain
    requires f'.fptr == ofs || f'.fptr == 512 * Times(|f'.chain|, g.csize)
    ensures f'.fptr <= f.fsize ==> f'.orgClust == f.orgClust
  {
    hide FatMap, IsChainOrNil;
  }
}
