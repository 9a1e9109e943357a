/** The state of an open file as a value, its invariant, and the bytes it stands for. */
module FileStates {
  import opened Words
  import opened Layout
  import opened Codec
  import opened Chains
  import opened FileData

  /** The fields of FIL, with the cluster chain the start cluster stands for. */
  datatype FileState = FileState(
    chain: seq<nat>,
    orgClust: nat,
    fsize: nat,
    fptr: nat,
    csect: nat,
    currClust: nat,
    dsect: nat,
    dirty: bool,
    buf: Sector,
    dirSect: nat
  )

  /** The chain is the file's, and long enough for its size. */
  ghost predicate Chained(g: Geometry, v: seq<Sector>, f: FileState) {
    && Fits(g, v)
    && IsChainOrNil(FatMap(g, v), f.chain)
    && f.orgClust == Head(f.chain)
    && f.fsize <= 512 * Times(|f.chain|, g.csize)
  }

  ghost function FileSectors(g: Geometry, f: FileState): (ss: seq<nat>)
    requires Clusters(g, f.chain)
    ensures |ss| == Times(|f.chain|, g.csize)
  {
    Sectors(g, f.chain)
  }

  lemma ChainFacts(g: Geometry, v: seq<Sector>, f: FileState)
    requires Chained(g, v, f)
    ensures Clusters(g, f.chain)
    ensures Inside(v, FileSectors(g, f)) && NoRepeat(FileSectors(g, f))
    ensures forall s :: s in FileSectors(g, f) ==> g.database <= s < End(g) && g.Live(s) && !g.InFat(s)
  {
    hide FatMap, Times, Sectors;
    var ss := FileSectors(g, f);
    forall j | 0 <= j < |ss|
      ensures g.database <= ss[j] < End(g) && g.Live(ss[j]) && !g.InFat(ss[j])
    {
      SectorsData(g, f.chain, j);
    }
    forall j, l | 0 <= j < |ss| && 0 <= l < |ss| && ss[j] == ss[l]
      ensures j == l
    {
      SectorsDistinct(g, f.chain, j, l);
    }
  }

  /** The volume overlaid by the file's dirty buffer. */
  ghost function FileVol(v: seq<Sector>, f: FileState): (w: seq<Sector>)
    ensures |w| == |v|
  {
    if f.dirty && f.dsect < |v| then v[f.dsect := f.buf] else v
  }

  /** All bytes the chain can hold, as the file sees them. */
  ghost function Store(g: Geometry, v: seq<Sector>, f: FileState): (b: seq<byte>)
    requires Chained(g, v, f)
    ensures |b| == 512 * Times(|f.chain|, g.csize)
  {
    ChainFacts(g, v, f);
    Bytes(FileVol(v, f), FileSectors(g, f))
  }

  /** The content of the file: the bytes below its size. */
  ghost function Content(g: Geometry, v: seq<Sector>, f: FileState): (b: seq<byte>)
    requires Chained(g, v, f)
    ensures |b| == f.fsize
  {
    Store(g, v, f)[..f.fsize]
  }

  // ----- the position -----

  /** The pointer lies behind the start of, or at the end of, sector csect-1 of cluster number ci of the chain. */
  ghost predicate At(g: Geometry, f: FileState, ci: nat) {
    && ci < |f.chain| && f.currClust == f.chain[ci]
    && 1 <= f.csect <= g.csize
    && 512 * (Times(ci, g.csize) + f.csect - 1) < f.fptr <= 512 * (Times(ci, g.csize) + f.csect)
  }

  /** csect, curr_clust and fptr fit together; at the top of the file only the cluster boundary is recorded. */
  ghost predicate Positioned(g: Geometry, f: FileState) {
    if f.fptr == 0 then f.csect >= g.csize else exists ci: nat :: At(g, f, ci)
  }

  /** The pointer is at the start of sector csect of cluster number ci: a transfer can begin. */
  ghost predicate Entering(g: Geometry, f: FileState, ci: nat) {
    && ci < |f.chain| && f.currClust == f.chain[ci]
    && f.csect < g.csize
    && f.fptr == 512 * (Times(ci, g.csize) + f.csect)
  }

  /** Position determines cluster and sector: any two ways to reach a pointer agree on them. */
  lemma PositionUnique(g: Geometry, e: FileState, f: FileState)
    requires g.Valid() && e.chain == f.chain && e.fptr == f.fptr && e.fptr > 0
    requires Positioned(g, e) && Positioned(g, f)
    ensures e.csect == f.csect && e.currClust == f.currClust
  {
    var c: nat :| At(g, e, c);
    var d: nat :| At(g, f, d);
    TimesUnique(c, e.csect - 1, d, f.csect - 1, g.csize);
  }

  /** The sector a position names is the file sector of the pointer. */
  lemma EnteringSector(g: Geometry, v: seq<Sector>, f: FileState, ci: nat)
    requires Chained(g, v, f) && Entering(g, f, ci)
    ensures Clusters(g, f.chain)
    ensures f.fptr % 512 == 0 && f.fptr / 512 < |FileSectors(g, f)|
    ensures f.currClust < 0x1_0000_0000 && Clust2Sect(g, f.currClust) != 0
    ensures FileSectors(g, f)[f.fptr / 512] == Clust2Sect(g, f.currClust) + f.csect
    ensures InRow(FileSectors(g, f), f.fptr / 512, Clust2Sect(g, f.currClust) + f.csect, g.csize - f.csect)
    ensures Clust2Sect(g, f.currClust) + g.csize <= |v|
  {
    ChainFacts(g, v, f);
    hide FatMap, Sectors;
    ClusterSectors(g, f.chain[ci]);
    var j := Times(ci, g.csize) + f.csect;
    Multiple(f.fptr, j);
    SectorAt(g, f.chain, ci, g.csize - 1);
    forall l | j <= l < j + (g.csize - f.csect)
      ensures FileSectors(g, f)[l] == Clust2Sect(g, f.currClust) + f.csect + (l - j)
    {
      SectorAt(g, f.chain, ci, l - Times(ci, g.csize));
    }
  }

  lemma Multiple(p: nat, j: nat)
    requires p == 512 * j
    ensures p / 512 == j && p % 512 == 0
  {
  }

  lemma AtEnters(g: Geometry, f: FileState, ci: nat)
    requires At(g, f, ci) && f.fptr % 512 == 0
    ensures f.csect < g.csize ==> Entering(g, f, ci)
    ensures f.csect == g.csize ==> f.fptr == 512 * Times(ci + 1, g.csize)
  {
  }

  /** The pointer is in, or at the start of, sector csect-1 of cluster number ci. */
  ghost predicate Within(g: Geometry, f: FileState, ci: nat) {
    && ci < |f.chain| && f.currClust == f.chain[ci]
    && 1 <= f.csect <= g.csize
    && 512 * (Times(ci, g.csize) + f.csect - 1) <= f.fptr < 512 * (Times(ci, g.csize) + f.csect)
  }

  lemma AtWithin(g: Geometry, f: FileState, ci: nat)
    requires At(g, f, ci) && f.fptr % 512 != 0
    ensures Within(g, f, ci)
  {
  }

  lemma EnteringWithin(g: Geometry, f: FileState, ci: nat)
    requires Entering(g, f, ci)
    ensures Within(g, f.(csect := f.csect + 1), ci)
  {
  }

  /** Moving on by n bytes within the row of sectors just entered. */
  lemma EnteringMoves(g: Geometry, f: FileState, ci: nat, f': FileState, k: nat, n: nat)
    requires Entering(g, f, ci)
    requires f'.chain == f.chain && f'.currClust == f.currClust
    requires f'.csect == f.csect + k && k >= 1 && f'.csect <= g.csize
    requires f'.fptr == f.fptr + n && 512 * (k - 1) < n <= 512 * k
    ensures At(g, f', ci) && Positioned(g, f')
  {
    assert At(g, f', ci);
  }

  /** Moving on inside one sector, at most to its end. */
  lemma WithinMoves(g: Geometry, f: FileState, ci: nat, f': FileState, n: nat)
    requires Within(g, f, ci)
    requires f'.chain == f.chain && f'.currClust == f.currClust && f'.csect == f.csect
    requires f'.fptr == f.fptr + n && n > 0 && f.fptr % 512 + n <= 512
    ensures At(g, f', ci) && Positioned(g, f')
  {
    assert At(g, f', ci);
  }

  // ----- buffer and placement -----

  /** A clean buffer may also be left on a data sector that a cut took from the file. */
  ghost predicate Left(g: Geometry, f: FileState) {
    !f.dirty && g.maxClust >= 2 && g.database <= f.dsect < End(g) && f.dsect != f.dirSect
  }

  /** Sector buffers b and c, as file sector j, hold the same bytes below n. */
  ghost predicate Alike(b: Sector, c: Sector, j: nat, n: nat) {
    forall i :: 0 <= i < 512 && 512 * j + i < n ==> b[i] == c[i]
  }

  /** A clean buffer on a sector of the file is right as far as byte n. */
  ghost predicate RightTo(g: Geometry, v: seq<Sector>, f: FileState, n: nat)
    requires Clusters(g, f.chain)
  {
    !f.dirty && f.dsect < |v| ==>
      forall j :: 0 <= j < |FileSectors(g, f)| && FileSectors(g, f)[j] == f.dsect ==> Alike(f.buf, v[f.dsect], j, n)
  }

  /** The end of the file's bytes, those under way to it included. */
  function Limit(f: FileState): nat {
    if f.fsize > f.fptr then f.fsize else f.fptr
  }

  /** A clean buffer is what its sector holds, the file's or not. */
  ghost predicate Exact(v: seq<Sector>, f: FileState) {
    f.dirty || f.dsect == 0 || (f.dsect < |v| && f.buf == v[f.dsect])
  }

  lemma ExactRight(g: Geometry, v: seq<Sector>, f: FileState, n: nat)
    requires Chained(g, v, f) && Exact(v, f)
    ensures Clusters(g, f.chain) && RightTo(g, v, f, n)
  {
    hide FatMap, Times, Sectors;
    ChainFacts(g, v, f);
    NoSectorZero(g, v, f);
  }

  lemma NoSectorZero(g: Geometry, v: seq<Sector>, f: FileState)
    requires Chained(g, v, f)
    ensures Clusters(g, f.chain) && forall j :: 0 <= j < |FileSectors(g, f)| ==> FileSectors(g, f)[j] != 0
  {
    hide FatMap, Times, Sectors;
    ChainFacts(g, v, f);
    DataFirst(g);
    forall j | 0 <= j < |FileSectors(g, f)|
      ensures FileSectors(g, f)[j] != 0
    {
      assert FileSectors(g, f)[j] in FileSectors(g, f);
    }
  }

  lemma DataFirst(g: Geometry)
    requires g.Valid()
    ensures 0 < g.database
  {
    hide Times;
  }

  /** The buffer shows a sector of the file, and the one under a pointer inside a sector. */
  ghost predicate Buffered(g: Geometry, v: seq<Sector>, f: FileState)
    requires Clusters(g, f.chain)
  {
    && (f.dsect == 0 || f.dsect in FileSectors(g, f) || Left(g, f))
    && (f.dirty ==> f.dsect != 0)
    && (!f.dirty && f.dsect != 0 ==> f.dsect < |v|) && RightTo(g, v, f, f.fsize)
    && (f.fptr % 512 != 0 ==> f.fptr / 512 < |FileSectors(g, f)| && f.dsect == FileSectors(g, f)[f.fptr / 512])
  }

  /** Neither the sector window nor the directory entry is on the file's data, nor the entry in a free cluster. */
  ghost predicate Placed(g: Geometry, v: seq<Sector>, winsect: nat, f: FileState)
    requires Clusters(g, f.chain) && Fits(g, v)
  {
    && winsect !in FileSectors(g, f)
    && g.FatEnd() <= f.dirSect < |v|
    && f.dirSect !in FileSectors(g, f)
    && EntryAllocated(g, v, f.dirSect)
  }

  ghost predicate EntryAllocated(g: Geometry, v: seq<Sector>, dirSect: nat)
    requires Fits(g, v)
  {
    forall c: nat {:trigger InCluster(g, c, dirSect)} :: IsCluster(g, c) && InCluster(g, c, dirSect) ==> FatMap(g, v)[c] != 0
  }

  /** The invariant of an open file, its position excepted. */
  ghost predicate Steady(g: Geometry, v: seq<Sector>, winsect: nat, f: FileState) {
    && Chained(g, v, f)
    && (ChainFacts(g, v, f); Buffered(g, v, f) && Placed(g, v, winsect, f))
  }

  /** The invariant of an open file. */
  ghost predicate FileOk(g: Geometry, v: seq<Sector>, winsect: nat, f: FileState) {
    && Steady(g, v, winsect, f)
    && Positioned(g, f)
    && f.fptr <= f.fsize
  }

  /** Chain and placement of a file. */
  ghost predicate Housed(g: Geometry, v: seq<Sector>, winsect: nat, f: FileState) {
    && Chained(g, v, f)
    && (ChainFacts(g, v, f); Placed(g, v, winsect, f))
  }

  /** The buffer is where it may be: a dirty one anywhere, and the right one under a pointer inside a sector. */
  ghost predicate Poised(g: Geometry, v: seq<Sector>, f: FileState)
    requires Clusters(g, f.chain)
  {
    && (f.dirty || f.dsect == 0 || f.dsect in FileSectors(g, f) || Left(g, f))
    && (if f.dirty then f.dsect != 0 else f.dsect == 0 || f.dsect < |v|)
    && (f.fptr % 512 != 0 ==> f.fptr / 512 < |FileSectors(g, f)| && f.dsect == FileSectors(g, f)[f.fptr / 512])
  }

  /** The invariant of an open file, what its buffer holds excepted. */
  ghost predicate Framed(g: Geometry, v: seq<Sector>, winsect: nat, f: FileState) {
    && Housed(g, v, winsect, f)
    && (SteadyHoused(g, v, winsect, f); Poised(g, v, f))
    && Positioned(g, f)
    && f.fptr <= f.fsize
  }

  /** The dirty buffer is on a sector the file does not have. */
  ghost predicate Stranded(g: Geometry, f: FileState)
    requires Clusters(g, f.chain)
  {
    f.dirty && f.dsect !in FileSectors(g, f)
  }

  /** The clean buffer is on a sector of the file and differs from it below the size. */
  ghost predicate Misled(g: Geometry, v: seq<Sector>, f: FileState)
    requires Clusters(g, f.chain)
  {
    !RightTo(g, v, f, f.fsize)
  }

  lemma SteadyHoused(g: Geometry, v: seq<Sector>, winsect: nat, f: FileState)
    ensures Steady(g, v, winsect, f) ==> Housed(g, v, winsect, f)
    ensures Housed(g, v, winsect, f) ==> Chained(g, v, f) && Clusters(g, f.chain)
    ensures Housed(g, v, winsect, f) && Clusters(g, f.chain) ==> (Steady(g, v, winsect, f) <==> Buffered(g, v, f))
  {
    hide Chained, Placed, Buffered;
    if Chained(g, v, f) {
      ChainFacts(g, v, f);
    }
  }

  /** The directory entry's sector is live, outside the table, and none of the file's. */
  lemma HousedEntry(g: Geometry, v: seq<Sector>, winsect: nat, f: FileState)
    requires Housed(g, v, winsect, f)
    ensures Clusters(g, f.chain) && EntryAllocated(g, v, f.dirSect)
    ensures f.dirSect < |v| && f.dirSect !in FileSectors(g, f) && g.Live(f.dirSect) && !g.InFat(f.dirSect)
  {
    hide FatMap, Times, Sectors, EntryAllocated;
    ChainFacts(g, v, f);
  }

  lemma PoisedBuffered(g: Geometry, v: seq<Sector>, f: FileState)
    requires Clusters(g, f.chain)
    ensures Buffered(g, v, f) <==> Poised(g, v, f) && !Stranded(g, f) && !Misled(g, v, f)
  {
    hide Sectors, Times;
  }

  /** What is wrong with a file that is proper but for its buffer: it is stranded, or misled. */
  lemma FramedOk(g: Geometry, v: seq<Sector>, winsect: nat, f: FileState)
    ensures FileOk(g, v, winsect, f) ==> Framed(g, v, winsect, f) && Steady(g, v, winsect, f)
    ensures Framed(g, v, winsect, f) ==>
              Chained(g, v, f) && Clusters(g, f.chain) && (FileOk(g, v, winsect, f) <==> Buffered(g, v, f))
              && (FileOk(g, v, winsect, f) <==> !Stranded(g, f) && !Misled(g, v, f))
  {
    hide Chained, Placed, Buffered, Positioned, Poised, Stranded, Misled;
    if Chained(g, v, f) {
      ChainFacts(g, v, f);
      PoisedBuffered(g, v, f);
    }
  }

  /** Two volumes that may differ in the table and in the given sectors only. */
  ghost predicate OnlyIn(g: Geometry, v: seq<Sector>, w: seq<Sector>, ss: seq<nat>) {
    |w| == |v| && forall s :: 0 <= s < |v| && !g.InFat(s) && s !in ss ==> w[s] == v[s]
  }

  lemma OnlyInSame(g: Geometry, v: seq<Sector>, ss: seq<nat>)
    ensures OnlyIn(g, v, v, ss)
  {
  }
}
