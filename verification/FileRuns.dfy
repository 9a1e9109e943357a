/** Whole runs of calls on an open file: they are runs of a byte array with a cursor. */
module FileRuns {
  import opened Words
  import opened Codec
  import opened Layout
  import opened Chains
  import opened Entries
  import opened Disk
  import opened FileSystem
  import opened Allocation
  import opened FileData
  import opened FileStates
  import opened FileSteps
  import opened FileGrow
  import opened Files
  import opened FileWrite
  import opened FileSeek
  import opened FileSync
  import opened FileTruncate
  import opened Isolation

  datatype Op = ReadOp(count: nat) | WriteOp(data: seq<byte>) | SeekOp(ofs: dword) | SyncOp(tim: dword) | TruncateOp

  /** A file for its user: bytes and a cursor. */
  datatype ByteFile = ByteFile(data: seq<byte>, ptr: nat)

  /** A call that was made: what a read delivered, and whether the volume had no free cluster afterwards. */
  datatype Call = Call(op: Op, out: seq<byte>, full: bool)

  /**
    What a call does to the bytes and the cursor. A write stops early on a full volume only, or does nothing
    if the size would pass 4 GB; a seek stops early on a full volume only.
  */
  ghost predicate ByteStep(canWrite: bool, x: ByteFile, c: Call, y: ByteFile) {
    x.ptr <= |x.data| && y.ptr <= |y.data|
    && match c.op
       case ReadOp(n) =>
         var k := Min(n, |x.data| - x.ptr);
         c.out == x.data[x.ptr..x.ptr + k] && y == x.(ptr := x.ptr + k)
       case WriteOp(data) =>
         var k := y.ptr - x.ptr;
         0 <= k <= |data| && y.data == Written(x.data, x.ptr, data[..k])
         && (if |x.data| + |data| >= 0x1_0000_0000 then k == 0 else k < |data| ==> c.full)
       case SeekOp(ofs) =>
         x.data <= y.data && |y.data| == Max(|x.data|, y.ptr)
         && if canWrite then y.ptr == ofs || (y.ptr < ofs && c.full)
            else y.ptr == if ofs < |x.data| then ofs else |x.data|
       case SyncOp(tim) => y == x
       case TruncateOp => y == ByteFile(x.data[..x.ptr], x.ptr)
  }

  /** A call in a state where it would leave the buffer wrong: the cut is not safe, or the seek spoils the buffer. */
  ghost predicate Spoils(fp: File, op: Op)
    requires fp.IsSteady()
    reads fp, fp.buf, fp.fs`winsect, fp.fs`wflag, fp.fs`fsiFlag, fp.fs`lastClust, fp.fs`freeClust, fp.fs.win, fp.fs.drive
  {
    match op
    case TruncateOp => !CutSafe(fp.fs.g, fp.State())
    case SeekOp(ofs) =>
      SeekSpoils(fp.fs.g, fp.fs.Vol(), StartPoint(fp.fs, 0), fp.State(), Target(fp.canWrite, fp.fsize, ofs))
    case _ => false
  }

  /** The file object, seen as bytes and a cursor. */
  ghost function View(fp: File): ByteFile
    requires fp.Shape() && Chained(fp.fs.g, fp.fs.Vol(), fp.State())
    reads fp, fp.buf, fp.fs`winsect, fp.fs`wflag, fp.fs.win, fp.fs.drive
  {
    ByteFile(Content(fp.fs.g, fp.fs.Vol(), fp.State()), fp.fptr)
  }

  /** An open file without an error, on a drive without failures and a table without bad entries, whatever its buffer holds. */
  ghost predicate Held(fp: File)
    reads fp, fp.buf, fp.fs`winsect, fp.fs`wflag, fp.fs`fsiFlag, fp.fs`lastClust, fp.fs`freeClust, fp.fs.win, fp.fs.drive
  {
    && fp.Shape() && fp.fs.Valid() && fp.fs.drive.reliable && !fp.failed && !HasBadEntry(fp.fs.Fat())
    && Framed(fp.fs.g, fp.fs.Vol(), fp.fs.winsect, fp.State()) && Chained(fp.fs.g, fp.fs.Vol(), fp.State())
    && (fp.written || Noted(fp.fs.Vol(), fp.State(), fp.dirOfs))
  }

  /** Such a file whose buffer is as it should be. */
  ghost predicate Usable(fp: File)
    reads fp, fp.buf, fp.fs`winsect, fp.fs`wflag, fp.fs`fsiFlag, fp.fs`lastClust, fp.fs`freeClust, fp.fs.win, fp.fs.drive
  {
    fp.Valid() && fp.fs.drive.reliable && !fp.failed && !HasBadEntry(fp.fs.Fat())
  }

  /** A file is out of use if its dirty buffer is on a foreign sector, or its clean one wrong about its own. */
  lemma HeldUsable(fp: File)
    ensures Usable(fp) ==> Held(fp) && fp.IsSteady() && View(fp) == ByteFile(fp.Data(), fp.fptr)
    ensures Held(fp) ==> Clusters(fp.fs.g, fp.chain)
    ensures Held(fp) ==>
              (Usable(fp) <==> !Stranded(fp.fs.g, fp.State()) && !Misled(fp.fs.g, fp.fs.Vol(), fp.State()))
    ensures Held(fp) && !Usable(fp) ==>
              if fp.dirty then Stranded(fp.fs.g, fp.State()) else Misled(fp.fs.g, fp.fs.Vol(), fp.State())
    ensures Held(fp) ==> (Usable(fp) <==> FileOk(fp.fs.g, fp.fs.Vol(), fp.fs.winsect, fp.State()))
  {
    hide FileOk, Steady, Framed, Stranded, Misled, Noted, Content, Chained, Clusters, HasBadEntry;
    hide FatFs.Valid, FatFs.Shape, FatFs.Vol, FatFs.Fat, File.Valid, File.IsSteady;
    if Usable(fp) {
      ValidShape(fp);
      DataContent(fp);
    }
    if fp.Shape() && fp.fs.Valid() {
      ValidFileOk(fp);
      FramedOk(fp.fs.g, fp.fs.Vol(), fp.fs.winsect, fp.State());
      if Held(fp) {
        DirtyOrClean(fp.fs.g, fp.fs.Vol(), fp.State());
      }
    }
  }

  lemma DirtyOrClean(g: Geometry, v: seq<Sector>, f: FileState)
    requires Clusters(g, f.chain)
    ensures (Stranded(g, f) ==> f.dirty) && (Misled(g, v, f) ==> !f.dirty)
  {
    hide Sectors, Times;
  }

  /** Only a cut leaves a dirty buffer wrong, and only a seek a clean one. */
  predicate Cause(dirty: bool, op: Op) {
    if dirty then op.TruncateOp? else op.SeekOp?
  }

  lemma SpoilsDirty(fp: File, op: Op)
    requires fp.IsSteady() && Spoils(fp, op)
    ensures Cause(fp.dirty, op)
  {
    hide Sectors, Times, Kept, Lengthened, FileStates.Steady;
  }

  lemma ValidShape(fp: File)
    requires fp.Valid()
    ensures fp.IsSteady() && fp.Shape() && fp.fs.Valid()
  {
    hide FatFs.Valid, FatFs.Shape, FatFs.Vol, Steady, Positioned, Noted;
  }

  /** The caller's memory is not the file's. */
  predicate Foreign(fp: File, buff: array<byte>) {
    buff != fp.buf && buff != fp.fs.win
  }

  /** What one call may do to the volume and the window, seen from the other files. */
  twostate predicate Bounded(fp: File)
    requires fp.buf.Length == 512 && fp.fs.Shape() && old(fp.fs.Shape())
    reads fp, fp.buf, fp.fs`winsect, fp.fs`wflag, fp.fs.win, fp.fs.drive
  {
    Touches(fp.fs.g, old(fp.fs.Vol()), old(fp.fs.winsect), old(fp.State()),
            fp.fs.Vol(), fp.fs.winsect, fp.State(), fp.dirOfs)
  }

  /** The sector of the directory entry is as it was. */
  twostate predicate EntryStays(fp: File)
    requires fp.fs.Shape() && old(fp.fs.Shape())
    reads fp.fs`winsect, fp.fs`wflag, fp.fs.win, fp.fs.drive
  {
    && fp.dirSect < |fp.fs.Vol()| == |old(fp.fs.Vol())|
    && fp.fs.Vol()[fp.dirSect] == old(fp.fs.Vol())[fp.dirSect]
  }

  predicate Permitted(fp: File, op: Op) {
    match op
    case ReadOp(_) => fp.canRead
    case WriteOp(_) => fp.canWrite
    case TruncateOp => fp.canWrite
    case _ => true
  }

  /** The arguments f_read and f_write take. */
  predicate Fitting(op: Op, buff: array<byte>) {
    match op
    case ReadOp(n) => n <= buff.Length
    case WriteOp(data) => |data| < 0x1_0000_0000
    case _ => true
  }

  // ----- tests a caller can make -----

  /** The buffered sector is in the cluster it was found in, and in no other. */
  lemma StaysMember(g: Geometry, f: FileState, n: nat, found: bool, k: nat)
    requires Clusters(g, f.chain) && Distinct(f.chain) && n <= |f.chain|
    requires found <==> f.dsect in FileSectors(g, f)
    requires found ==> k < |f.chain| && InCluster(g, f.chain[k], f.dsect)
    ensures Clusters(g, f.chain[..n])
    ensures f.dsect in Sectors(g, f.chain[..n]) <==> found && k < n
  {
    hide Sectors, Times, First;
    InSectors(g, f.chain[..n], f.dsect);
    InSectors(g, f.chain, f.dsect);
    if c :| c in f.chain[..n] && InCluster(g, c, f.dsect) {
      var i :| 0 <= i < n && f.chain[..n][i] == c;
      assert f.chain[i] == c;
      ClustersDisjoint(g, c, f.chain[k], f.dsect - First(g, c), f.dsect - First(g, f.chain[k]));
    }
    if found && k < n {
      assert f.chain[..n][k] == f.chain[k];
    }
  }

  lemma StaysStart(g: Geometry, v: seq<Sector>, winsect: nat, f: FileState)
    requires FileOk(g, v, winsect, f) && f.fptr < f.fsize
    ensures g.csize > 0 && ClustersFor(g, f.fptr) <= |f.chain| && Distinct(f.chain)
    ensures Kept(g, f.chain, f.fptr, f.fsize) == f.chain[..ClustersFor(g, f.fptr)]
  {
    hide Times, ClustersFor, FatMap;
    CutPosition(g, v, f);
  }

  /** One cluster of the chain: where its sectors are, and what its entry says. */
  lemma StaysAt(g: Geometry, v: seq<Sector>, f: FileState, k: nat)
    requires Chained(g, v, f) && k < |f.chain|
    ensures IsCluster(g, f.chain[k]) && Clust2Sect(g, f.chain[k]) == First(g, f.chain[k])
    ensures if k + 1 < |f.chain| then FatMap(g, v)[f.chain[k]] == f.chain[k + 1] else FatMap(g, v)[f.chain[k]] >= g.maxClust
  {
    hide Times, FatMap, Sectors;
    ChainFacts(g, v, f);
    ClusterSectors(g, f.chain[k]);
  }

  lemma WalkStarts(g: Geometry, v: seq<Sector>, f: FileState)
    requires Chained(g, v, f)
    ensures if f.chain == [] then f.orgClust == 0 else f.orgClust == f.chain[0]
    ensures Clusters(g, f.chain) && (forall i :: 0 <= i < |f.chain| ==> 2 <= f.chain[i] < g.maxClust)
  {
    hide Times, FatMap, Sectors;
    ChainFacts(g, v, f);
  }

  /** What a walk along the chain found: the cluster of the buffered sector, and its number among the file's sectors. */
  ghost predicate Found(g: Geometry, f: FileState, found: bool, k: nat, j: nat)
    requires Clusters(g, f.chain)
  {
    && (found <==> f.dsect in FileSectors(g, f))
    && (found ==> k < |f.chain| && InCluster(g, f.chain[k], f.dsect))
    && (found ==> j < |FileSectors(g, f)| && FileSectors(g, f)[j] == f.dsect)
  }

  lemma FoundAt(g: Geometry, v: seq<Sector>, f: FileState, k: nat)
    requires Chained(g, v, f) && Clusters(g, f.chain) && k < |f.chain| && InCluster(g, f.chain[k], f.dsect)
    ensures Found(g, f, true, k, Times(k, g.csize) + (f.dsect - First(g, f.chain[k])))
  {
    hide Times, FatMap, Sectors, First;
    SectorAt(g, f.chain, k, f.dsect - First(g, f.chain[k]));
  }

  lemma FoundNowhere(g: Geometry, f: FileState, k: nat, j: nat)
    requires Clusters(g, f.chain) && forall i :: 0 <= i < |f.chain| ==> !InCluster(g, f.chain[i], f.dsect)
    ensures Found(g, f, false, k, j)
  {
    hide Times, Sectors, First;
    InSectors(g, f.chain, f.dsect);
  }

  /** Follows the chain to the cluster with the buffered sector. It moves the window only. */
  method FindBuffer(fp: File) returns (found: bool, k: nat, j: nat)
    requires fp.Shape() && fp.fs.Valid() && fp.fs.drive.reliable && Chained(fp.fs.g, fp.fs.Vol(), fp.State())
    modifies fp.fs`winsect, fp.fs`wflag, fp.fs.win, fp.fs.drive
    ensures fp.fs.Valid() && fp.fs.Vol() == old(fp.fs.Vol()) && Upkeep(fp.fs)
    ensures fp.fs.winsect == old(fp.fs.winsect) || fp.fs.g.InFat(fp.fs.winsect)
    ensures |fp.fs.drive.sectors| == old(|fp.fs.drive.sectors|)
    ensures Clusters(fp.fs.g, fp.chain) && Found(fp.fs.g, fp.State(), found, k, j)
  {
    hide FatMap, Times, Store, Sectors, Chained, Clusters, First, Clust2Sect, FreeCount, Found;
    hide FatFs.Mirrored, FatFs.Valid, FatFs.Shape, FatFs.Vol, FatFs.Fat;
    ghost var g, v, w, f := fp.fs.g, fp.fs.Vol(), fp.fs.winsect, fp.State();
    WalkStarts(g, v, f);
    var clst := fp.orgClust;
    k, j := 0, 0;
    assert Times(0, g.csize) == 0 by {
      TimesZero(g.csize);
    }
    while 2 <= clst < fp.fs.g.maxClust
      invariant k <= |f.chain| && (if k < |f.chain| then clst == f.chain[k] else !(2 <= clst < g.maxClust))
      invariant fp.State() == f && fp.fs.Shape() && fp.fs.Valid() && fp.fs.Vol() == v && Upkeep(fp.fs)
      invariant |fp.fs.drive.sectors| == old(|fp.fs.drive.sectors|)
      invariant fp.fs.winsect == w || g.InFat(fp.fs.winsect)
      invariant j == Times(k, g.csize)
      invariant forall i :: 0 <= i < k ==> !InCluster(g, f.chain[i], f.dsect)
      decreases |f.chain| - k
    {
      StaysAt(g, v, f, k);
      var sect := Clust2Sect(fp.fs.g, clst);
      if sect <= fp.dsect < sect + fp.fs.g.csize {
        FoundAt(g, v, f, k);
        return true, k, j + (fp.dsect - sect);
      }
      clst := fp.fs.GetFat(clst);
      TimesNext(k, g.csize);
      k, j := k + 1, j + fp.fs.g.csize;
    }
    FoundNowhere(g, f, k, j);
    found := false;
  }

  lemma TimesZero(m: nat)
    ensures Times(0, m) == 0
  {
  }

  lemma TimesNext(k: nat, m: nat)
    ensures Times(k + 1, m) == Times(k, m) + m
  {
  }

  /** Whether f_truncate would keep the private buffer, found out before the call. */
  method BufferStays(fp: File) returns (stays: bool)
    requires fp.Valid() && fp.fs.drive.reliable
    modifies fp.fs`winsect, fp.fs`wflag, fp.fs.win, fp.fs.drive
    ensures fp.Valid() && fp.fs.Vol() == old(fp.fs.Vol()) && Upkeep(fp.fs)
    ensures fp.fs.winsect == old(fp.fs.winsect) || fp.fs.g.InFat(fp.fs.winsect)
    ensures |fp.fs.drive.sectors| == old(|fp.fs.drive.sectors|)
    ensures stays == old(CutSafe(fp.fs.g, fp.State()))
  {
    hide FatMap, Times, Steady, Store, Sectors, Chained, Positioned, Clusters, First, FreeCount, ClustersFor, Noted;
    hide FatFs.Mirrored, FatFs.Valid, FatFs.Shape, FatFs.Vol, FatFs.Fat;
    if fp.fptr >= fp.fsize || fp.dsect == 0 || !fp.dirty {
      return true;
    }
    ghost var g, v, w, f := fp.fs.g, fp.fs.Vol(), fp.fs.winsect, fp.State();
    assert FileOk(g, v, w, f);
    StaysStart(g, v, w, f);
    var found, k, j := FindBuffer(fp);
    stays := found && k < ClustersFor(fp.fs.g, fp.fptr);
    StaysMember(g, f, ClustersFor(g, f.fptr), found, k);
    StaysValid(g, v, w, f, fp.fs.winsect);
  }

  lemma StaysValid(g: Geometry, v: seq<Sector>, winsect: nat, f: FileState, winsect': nat)
    requires winsect' == winsect || g.InFat(winsect')
    ensures FileOk(g, v, winsect, f) ==> FileOk(g, v, winsect', f)
    ensures Framed(g, v, winsect, f) ==> Framed(g, v, winsect', f)
  {
    hide FatMap, Times, Sectors;
    if Chained(g, v, f) {
      ChainFacts(g, v, f);
    }
  }

  /** Bytes a clean buffer on file sector j has to have right. */
  lemma AlikePart(f: FileState, c: Sector, j: nat)
    ensures Alike(f.buf, c, j, f.fsize) <==> f.buf[..SectorPart(f.fsize, j)] == c[..SectorPart(f.fsize, j)]
  {
    var n := SectorPart(f.fsize, j);
    if f.buf[..n] == c[..n] {
      forall i | 0 <= i < 512 && 512 * j + i < f.fsize
        ensures f.buf[i] == c[i]
      {
        assert f.buf[..n][i] == c[..n][i];
      }
    }
  }

  /** The buffer is neither stranded nor misled, as a walk along the chain and a look at the sector find it. */
  lemma IntactExactly(g: Geometry, v: seq<Sector>, f: FileState, found: bool, k: nat, j: nat)
    requires Chained(g, v, f) && Clusters(g, f.chain) && Found(g, f, found, k, j)
    ensures Stranded(g, f) <==> f.dirty && !found
    ensures found ==> g.FatEnd() <= f.dsect < |v|
    ensures f.dirty || !found ==> !Misled(g, v, f)
    ensures !f.dirty && found ==> (Misled(g, v, f) <==> f.buf[..SectorPart(f.fsize, j)] != v[f.dsect][..SectorPart(f.fsize, j)])
  {
    hide FatMap, Times, Sectors, First;
    ChainFacts(g, v, f);
    if found {
      AlikePart(f, v[f.dsect], j);
    }
  }

  lemma FoundOutside(g: Geometry, v: seq<Sector>, winsect: nat, f: FileState, found: bool, k: nat, j: nat)
    requires Framed(g, v, winsect, f) && Clusters(g, f.chain) && Found(g, f, found, k, j) && found
    ensures f.dsect != winsect && f.dsect < |v|
  {
    hide FatMap, Times, Sectors, First, Positioned, Poised;
    ChainFacts(g, v, f);
  }

  /** Whether a file can be used on, found out after a call. It moves the window only. */
  method Intact(fp: File) returns (ok: bool)
    requires Held(fp)
    modifies fp.fs`winsect, fp.fs`wflag, fp.fs.win, fp.fs.drive
    ensures Held(fp) && fp.fs.Vol() == old(fp.fs.Vol()) && Upkeep(fp.fs)
    ensures fp.fs.winsect == old(fp.fs.winsect) || fp.fs.g.InFat(fp.fs.winsect)
    ensures |fp.fs.drive.sectors| == old(|fp.fs.drive.sectors|)
    ensures ok == Usable(fp) == old(Usable(fp))
  {
    hide FatMap, Times, Store, Sectors, Chained, Framed, FileOk, Clusters, First, FreeCount, Found, Noted, Stranded, Misled;
    hide HasBadEntry, SectorPart, Volume, Usable;
    hide FatFs.Mirrored, FatFs.Valid, FatFs.Shape, FatFs.Vol, FatFs.Fat;
    ghost var g, v, w, f := fp.fs.g, fp.fs.Vol(), fp.fs.winsect, fp.State();
    HeldUsable(fp);
    var found, k, j := FindBuffer(fp);
    StaysValid(g, v, w, f, fp.fs.winsect);
    IntactExactly(g, v, f, found, k, j);
    HeldUsable(fp);
    if fp.dirty {
      return found;
    }
    if !found {
      return true;
    }
    FoundOutside(g, v, fp.fs.winsect, f, found, k, j);
    var now := new byte[512](i => 0);
    var read := fp.fs.ReadData(now, fp.dsect);
    var n := SectorPart(fp.fsize, j);
    return fp.buf[..n] == now[..n];
  }

  // ----- single calls -----

  /** A chain that grew brings no bad entry into the table. */
  lemma GrownClean(g: Geometry, v: seq<Sector>, cs: seq<nat>, v': seq<Sector>, f': FileState)
    requires g.maxClust >= 2 && Fits(g, v) && Chained(g, v', f') && Clusters(g, f'.chain) && Extends(g, v, v', cs, f'.chain)
    requires !HasBadEntry(FatMap(g, v))
    ensures !HasBadEntry(FatMap(g, v'))
  {
    hide FatMap, Times;
    forall d | 2 <= d < g.maxClust
      ensures FatMap(g, v')[d] != 1
    {
      if d in f'.chain {
        ChainUsed(FatMap(g, v'), f'.chain, d);
      } else {
        assert FatMap(g, v')[d] == FatMap(g, v)[d];
      }
    }
  }

  /** Nor does a cut. */
  lemma CutClean(fat: seq<dword>, cs: seq<nat>, n: nat, eoc: dword)
    requires IsChain(fat, cs) && n <= |cs| && eoc >= |fat| && !HasBadEntry(fat)
    ensures !HasBadEntry(CutChain(fat, cs, n, eoc))
  {
  }

  lemma SpliceStart(a: seq<byte>, b: seq<byte>)
    ensures |a| <= |b| ==> Splice(b, 0, a)[..|a|] == a
  {
  }

  /** f_read, and what it delivers. */
  method ReadFile(fp: File, count: nat, buff: array<byte>) returns (out: seq<byte>)
    requires Usable(fp) && Foreign(fp, buff) && fp.canRead && count <= buff.Length
    modifies fp`csect, fp`currClust, fp`dirty, fp`dsect, fp`fptr, fp`failed, fp.buf, buff
    modifies fp.fs`winsect, fp.fs`wflag, fp.fs.win, fp.fs.drive
    ensures Usable(fp) && Held(fp) && Bounded(fp) && Upkeep(fp.fs)
    ensures EntryStays(fp) && (old(fp.Tight()) ==> fp.Tight())
    ensures old(Held(fp)) && ByteStep(fp.canWrite, old(View(fp)), Call(ReadOp(count), out, AllUsed(fp.fs.Fat())), View(fp))
  {
    hide FatMap, Times, Steady, Store, Sectors, Chained, Positioned, FileData.Clusters, OnlyIn, Touches, Noted;
    hide HasBadEntry, AllUsed, FreeCount, Framed, Content, File.Tight, Stranded, Misled;
    hide FatFs.Mirrored, FatFs.Valid, FatFs.Shape, FatFs.Vol, FatFs.Fat;
    HeldUsable(fp);
    ghost var x, v, w, f := View(fp), fp.fs.Vol(), fp.fs.winsect, fp.State();
    SteadyHoused(fp.fs.g, v, w, f);
    var res, br := fp.Read(buff, count);
    out := buff[..br];
    SpliceStart(x.data[x.ptr..x.ptr + br], old(buff[..]));
    HeldUsable(fp);
    ReadTouches(fp.fs.g, v, w, f, fp.fs.Vol(), fp.fs.winsect, fp.State(), fp.dirOfs);
  }

  /** f_sync changes nothing the user of the file sees. */
  method SaveFile(fp: File, tim: dword)
    requires Usable(fp)
    modifies fp`dirty, fp`written
    modifies fp.fs`winsect, fp.fs`wflag, fp.fs`fsiFlag, fp.fs.win, fp.fs.drive
    ensures Usable(fp) && Held(fp) && Bounded(fp) && Upkeep(fp.fs)
    ensures old(fp.Tight()) ==> fp.Tight()
    ensures old(Held(fp)) && View(fp) == old(View(fp))
  {
    hide FatMap, Times, Steady, Store, Sectors, Chained, Positioned, FileData.Clusters, Saved, OnlyEntry, Touches, Noted;
    hide HasBadEntry, AllUsed, FreeCount, Framed, Content, File.Tight, Stranded, Misled;
    hide FatFs.Mirrored, FatFs.Valid, FatFs.Shape, FatFs.Vol, FatFs.Fat;
    HeldUsable(fp);
    ghost var v, w, f := fp.fs.Vol(), fp.fs.winsect, fp.State();
    SteadyHoused(fp.fs.g, v, w, f);
    var res := SyncFile(fp, tim);
    HeldUsable(fp);
    SyncTouches(fp.fs.g, v, w, f, fp.fs.Vol(), fp.fs.winsect, fp.State(), fp.dirOfs);
  }

  /** f_write. */
  method WriteFile(fp: File, data: seq<byte>)
    requires Usable(fp) && fp.canWrite && |data| < 0x1_0000_0000
    modifies fp`chain, fp`orgClust, fp`currClust, fp`csect, fp`dirty, fp`dsect, fp`fptr, fp`fsize, fp`written, fp`failed
    modifies fp.buf
    modifies fp.fs`winsect, fp.fs`wflag, fp.fs`fsiFlag, fp.fs`freeClust, fp.fs`lastClust, fp.fs.win, fp.fs.drive
    ensures Usable(fp) && Held(fp) && Bounded(fp) && Upkeep(fp.fs)
    ensures EntryStays(fp) && (old(fp.Tight()) ==> fp.Tight())
    ensures old(Held(fp)) && ByteStep(fp.canWrite, old(View(fp)), Call(WriteOp(data), [], AllUsed(fp.fs.Fat())), View(fp))
  {
    hide FatMap, Times, Steady, Store, Sectors, Chained, Positioned, FileData.Clusters, OnlyIn, Touches, Extends, Written, Noted;
    hide HasBadEntry, AllUsed, FreeCount, Framed, Content, File.Tight, Stranded, Misled;
    hide FatFs.Mirrored, FatFs.Valid, FatFs.Shape, FatFs.Vol, FatFs.Fat;
    HeldUsable(fp);
    ghost var v, w, f := fp.fs.Vol(), fp.fs.winsect, fp.State();
    SteadyHoused(fp.fs.g, v, w, f);
    var res, bw := Write(fp, data);
    GrownClean(fp.fs.g, v, f.chain, fp.fs.Vol(), fp.State());
    HeldUsable(fp);
    SteadyHoused(fp.fs.g, fp.fs.Vol(), fp.fs.winsect, fp.State());
    GrowTouches(fp.fs.g, v, w, f, fp.fs.Vol(), fp.fs.winsect, fp.State(), fp.dirOfs);
  }

  /** f_lseek. The file can be used on if and only if the seek does not spoil its buffer. */
  method SeekFile(fp: File, ofs: dword)
    requires Usable(fp)
    modifies fp`chain, fp`orgClust, fp`currClust, fp`csect, fp`dirty, fp`dsect, fp`fptr, fp`fsize, fp`written, fp`failed
    modifies fp.buf
    modifies fp.fs`winsect, fp.fs`wflag, fp.fs`fsiFlag, fp.fs`freeClust, fp.fs`lastClust, fp.fs.win, fp.fs.drive
    ensures Held(fp) && Bounded(fp) && Upkeep(fp.fs)
    ensures Usable(fp) <==> !old(Spoils(fp, SeekOp(ofs)))
    ensures fp.dirty ==> old(fp.dirty)
    ensures EntryStays(fp) && (old(fp.Tight()) ==> fp.Tight())
    ensures old(Held(fp)) && ByteStep(fp.canWrite, old(View(fp)), Call(SeekOp(ofs), [], AllUsed(fp.fs.Fat())), View(fp))
  {
    hide FatMap, Times, Steady, Store, Sectors, Chained, Positioned, FileData.Clusters, OnlyIn, Touches, Extends, Noted;
    hide HasBadEntry, AllUsed, FreeCount, Framed, Content, File.Tight, Stranded, Misled, SeekSpoils, Housed;
    hide FatFs.Mirrored, FatFs.Valid, FatFs.Shape, FatFs.Vol, FatFs.Fat;
    HeldUsable(fp);
    ghost var v, w, f := fp.fs.Vol(), fp.fs.winsect, fp.State();
    SteadyHoused(fp.fs.g, v, w, f);
    var res := Seek(fp, ofs);
    FramedHoused(fp.fs.g, fp.fs.Vol(), fp.fs.winsect, fp.State());
    GrownClean(fp.fs.g, v, f.chain, fp.fs.Vol(), fp.State());
    HeldUsable(fp);
    GrowTouches(fp.fs.g, v, w, f, fp.fs.Vol(), fp.fs.winsect, fp.State(), fp.dirOfs);
  }

  lemma FramedHoused(g: Geometry, v: seq<Sector>, winsect: nat, f: FileState)
    requires Framed(g, v, winsect, f)
    ensures Housed(g, v, winsect, f) && Chained(g, v, f) && Clusters(g, f.chain)
  {
    hide Housed, Positioned, Poised, Chained, Clusters;
    SteadyHoused(g, v, winsect, f);
  }

  /**
    f_truncate, whatever the buffer. The bytes in front of the pointer stay and nothing outside the file is
    touched; the file can be used on if and only if the cut was safe.
   */
  method CutFile(fp: File)
    requires Usable(fp) && fp.canWrite
    modifies fp`chain, fp`orgClust, fp`fsize, fp`written, fp`failed
    modifies fp.fs`winsect, fp.fs`wflag, fp.fs`fsiFlag, fp.fs`freeClust, fp.fs.win, fp.fs.drive
    ensures Held(fp) && Bounded(fp) && Upkeep(fp.fs)
    ensures Usable(fp) <==> old(CutSafe(fp.fs.g, fp.State()))
    ensures EntryStays(fp) && (old(fp.Tight()) ==> fp.Tight())
    ensures old(Held(fp)) && View(fp) == ByteFile(old(View(fp)).data[..fp.fptr], fp.fptr)
    ensures fp.chain == Kept(fp.fs.g, old(fp.chain), fp.fptr, old(fp.fsize))
  {
    hide FatMap, Times, Steady, Store, Sectors, Chained, Positioned, FileData.Clusters, CutSafe, Touches, Noted;
    hide HasBadEntry, AllUsed, Kept, CutChain, FreeCount, Framed, Content, File.Tight, Stranded, Misled, Housed;
    hide FatFs.Mirrored, FatFs.Valid, FatFs.Shape, FatFs.Vol, FatFs.Fat;
    HeldUsable(fp);
    ghost var v, w, f, fat := fp.fs.Vol(), fp.fs.winsect, fp.State(), fp.fs.Fat();
    SteadyHoused(fp.fs.g, v, w, f);
    var res := Truncate(fp);
    EndMark(fp.fs.g);
    if fp.chain != f.chain {
      CutClean(fat, f.chain, |fp.chain|, Cut(fp.fs.g, END_OF_CHAIN));
    }
    if !fp.written {
      KeptWhole(fp.fs.g, f);
      CutNoted(fp.fs.g, v, w, f, fp.fs.Vol(), fp.State(), fp.dirOfs);
    }
    HeldUsable(fp);
    TruncateTouches(fp.fs.g, v, w, f, fp.fs.Vol(), fp.fs.winsect, fp.State(), fp.dirOfs, Cut(fp.fs.g, END_OF_CHAIN));
  }

  lemma KeptWhole(g: Geometry, f: FileState)
    requires g.csize > 0 && f.fptr >= f.fsize
    ensures Kept(g, f.chain, f.fptr, f.fsize) == f.chain
  {
  }

  /** A cut of nothing leaves a saved file saved. */
  lemma CutNoted(g: Geometry, v: seq<Sector>, winsect: nat, f: FileState, v': seq<Sector>, f': FileState, o: Slot)
    requires Housed(g, v, winsect, f) && Chained(g, v', f') && SameOutsideFat(g, v, v')
    requires f'.chain == f.chain && f'.fsize == f.fsize && f'.dirty == f.dirty && f'.dirSect == f.dirSect
    ensures Noted(v, f, o) ==> Noted(v', f', o)
  {
    hide FatMap, Times, Sectors, StartOf, SizeOf;
    HousedEntry(g, v, winsect, f);
  }

  /** The window may be moved over the FAT afterwards. */
  lemma TouchesWindow(g: Geometry, v: seq<Sector>, w: nat, f: FileState, v': seq<Sector>, w1: nat, w': nat, f': FileState, o: Slot)
    requires Touches(g, v, w, f, v', w1, f', o) && (w' == w1 || g.InFat(w'))
    ensures Touches(g, v, w, f, v', w', f', o)
  {
    hide OwnClusters, OwnSectors;
  }

  /**
    Any call the file is open for. Whatever becomes of the buffer, it is a step of the byte array; the file
    can be used on if and only if the state before the call is not one in which it spoils the buffer, and a
    file whose clean buffer is what its sector holds is spoilt by no seek.
   */
  method Perform(fp: File, op: Op, buff: array<byte>) returns (stays: bool, out: seq<byte>)
    requires Usable(fp) && Foreign(fp, buff) && Fitting(op, buff) && Permitted(fp, op)
    modifies fp, fp.buf, buff, fp.fs, fp.fs.win, fp.fs.drive
    ensures Held(fp) && Bounded(fp) && Upkeep(fp.fs)
    ensures !op.SyncOp? ==> EntryStays(fp)
    ensures stays == Usable(fp) == !old(Spoils(fp, op)) && (!stays ==> Cause(fp.dirty, op))
    ensures old(Held(fp)) && ByteStep(fp.canWrite, old(View(fp)), Call(op, out, AllUsed(fp.fs.Fat())), View(fp))
    ensures old(fp.Tight()) ==> fp.Tight() && (stays || op.TruncateOp?)
  {
    hide FatMap, Times, Steady, Store, Sectors, Chained, Positioned, FileData.Clusters, Touches, Written, CutSafe, Noted;
    hide HasBadEntry, AllUsed, FreeCount, Framed, Content, Exact, SeekSpoils, Kept, Target;
    hide FatFs.Mirrored, FatFs.Valid, FatFs.Shape, FatFs.Vol, FatFs.Fat;
    HeldUsable(fp);
    ghost var v, w, f := fp.fs.Vol(), fp.fs.winsect, fp.State();
    if Spoils(fp, op) {
      SpoilsDirty(fp, op);
    }
    out := [];
    stays := true;
    match op {
      case ReadOp(count) =>
        out := ReadFile(fp, count, buff);
      case WriteOp(data) =>
        WriteFile(fp, data);
      case SyncOp(tim) =>
        SaveFile(fp, tim);
      case SeekOp(ofs) =>
        if fp.Tight() {
          TightSeeks(fp, ofs);
        }
        SeekFile(fp, ofs);
      case TruncateOp =>
        CutFile(fp);
    }
    if op.SeekOp? || op.TruncateOp? {
      ghost var v', w' := fp.fs.Vol(), fp.fs.winsect;
      stays := Intact(fp);
      TouchesWindow(fp.fs.g, v, w, f, v', w', fp.fs.winsect, fp.State(), fp.dirOfs);
      HeldUsable(fp);
    }
  }

  lemma TightSeeks(fp: File, ofs: dword)
    requires Usable(fp) && fp.Tight()
    ensures !Spoils(fp, SeekOp(ofs))
  {
    hide FatFs.Valid, FatFs.Shape, FatFs.Vol, FatFs.Fat, SeekSpoils, Noted, Positioned, HasBadEntry, Steady;
    ExactSeeks(fp.fs.g, fp.fs.Vol(), StartPoint(fp.fs, 0), fp.State(), Target(fp.canWrite, fp.fsize, ofs));
  }

  // ----- runs -----

  /** The calls made are a run of the byte array with a cursor. */
  ghost predicate ByteRun(canWrite: bool, trace: seq<ByteFile>, calls: seq<Call>) {
    && |trace| == |calls| + 1
    && forall i :: 0 <= i < |calls| ==> ByteStep(canWrite, trace[i], calls[i], trace[i + 1])
  }

  lemma RunStart(canWrite: bool, x: ByteFile)
    ensures ByteRun(canWrite, [x], [])
  {
  }

  lemma RunMore(canWrite: bool, trace: seq<ByteFile>, calls: seq<Call>, c: Call, y: ByteFile)
    requires ByteRun(canWrite, trace, calls) && ByteStep(canWrite, trace[|calls|], c, y)
    ensures ByteRun(canWrite, trace + [y], calls + [c])
  {
    hide ByteStep;
  }

  /** The operations of the calls. */
  function OpsOf(calls: seq<Call>): seq<Op> {
    if calls == [] then [] else OpsOf(calls[..|calls| - 1]) + [calls[|calls| - 1].op]
  }

  lemma OpsMore(calls: seq<Call>, c: Call)
    ensures OpsOf(calls + [c]) == OpsOf(calls) + [c.op]
  {
    assert (calls + [c])[..|calls|] == calls;
  }

  /** What a file went through: from first, by the given calls, to last. */
  ghost predicate History(canWrite: bool, first: ByteFile, calls: seq<Call>, last: ByteFile) {
    exists trace :: ByteRun(canWrite, trace, calls) && trace[0] == first && trace[|calls|] == last
  }

  lemma HistoryStart(canWrite: bool, x: ByteFile)
    ensures History(canWrite, x, [], x)
  {
    hide ByteRun;
    RunStart(canWrite, x);
    assert [x][0] == x;
  }

  lemma HistoryMore(canWrite: bool, first: ByteFile, calls: seq<Call>, last: ByteFile, c: Call, y: ByteFile)
    requires History(canWrite, first, calls, last) && ByteStep(canWrite, last, c, y)
    ensures History(canWrite, first, calls + [c], y)
  {
    hide ByteStep;
    var trace :| ByteRun(canWrite, trace, calls) && trace[0] == first && trace[|calls|] == last;
    RunMore(canWrite, trace, calls, c, y);
    assert (trace + [y])[|calls + [c]|] == y;
  }

  /**
    Any sequence of calls, up to the first one the file is not open for; a call that leaves the buffer wrong
    is the last one. It is a truncation or a seek, and a truncation if the clean buffer was what its sector
    holds at the start, as it is after f_open.
   */
  method Run(fp: File, ops: seq<Op>, buff: array<byte>) returns (done: nat, usable: bool, ghost calls: seq<Call>)
    requires Usable(fp) && Foreign(fp, buff)
    requires forall i :: 0 <= i < |ops| ==> Fitting(ops[i], buff)
    modifies fp, fp.buf, buff, fp.fs, fp.fs.win, fp.fs.drive
    ensures Held(fp) && Upkeep(fp.fs) && usable == Usable(fp)
    ensures done <= |ops| && OpsOf(calls) == ops[..done]
    ensures old(Held(fp)) && History(fp.canWrite, old(View(fp)), calls, View(fp))
    ensures done < |ops| ==> !usable || !Permitted(fp, ops[done])
    ensures !usable ==> done > 0 && Cause(fp.dirty, ops[done - 1])
    ensures old(fp.Tight()) ==> fp.Tight() && (!usable ==> ops[done - 1].TruncateOp?)
  {
    hide ByteStep, View, History, File.Valid, File.IsSteady, File.Tight, Bounded, Usable, Held, OpsOf, Fitting, Spoils, Permitted;
    hide FreeCount, FatFs.Mirrored, FatFs.Shape, FatFs.Vol, FatFs.Fat;
    HeldShape(fp);
    ghost var first := View(fp);
    HistoryStart(fp.canWrite, first);
    OpsNone();
    done, usable, calls := 0, true, [];
    while done < |ops| && usable && Permitted(fp, ops[done])
      invariant Held(fp) && fp.Shape() && Chained(fp.fs.g, fp.fs.Vol(), fp.State()) && Upkeep(fp.fs) && usable == Usable(fp)
      invariant done <= |ops| && OpsOf(calls) == ops[..done]
      invariant History(fp.canWrite, first, calls, View(fp))
      invariant !usable ==> done > 0 && Cause(fp.dirty, ops[done - 1])
      invariant old(fp.Tight()) ==> fp.Tight() && (!usable ==> ops[done - 1].TruncateOp?)
    {
      ghost var x := View(fp);
      var op := ops[done];
      var out;
      usable, out := Perform(fp, op, buff);
      HeldShape(fp);
      ghost var c := Call(op, out, AllUsed(fp.fs.Fat()));
      HistoryMore(fp.canWrite, first, calls, x, c, View(fp));
      OpsMore(calls, c);
      TakeMore(ops, done);
      calls := calls + [c];
      done := done + 1;
    }
  }

  lemma HeldShape(fp: File)
    ensures Usable(fp) ==> Held(fp)
    ensures Held(fp) ==> fp.Shape() && fp.fs.Shape() && fp.fs.Valid() && Chained(fp.fs.g, fp.fs.Vol(), fp.State())
    ensures Held(fp) ==> fp.fs.drive.reliable && !HasBadEntry(fp.fs.Fat())
  {
    hide Usable, Framed, Noted, HasBadEntry, Chained, FatFs.Valid, FatFs.Vol, FatFs.Fat, FatFs.Shape;
    HeldUsable(fp);
  }

  lemma TakeMore(ops: seq<Op>, n: nat)
    requires n < |ops|
    ensures ops[..n + 1] == ops[..n] + [ops[n]]
  {
  }

  lemma OpsNone()
    ensures OpsOf([]) == []
  {
  }
}
