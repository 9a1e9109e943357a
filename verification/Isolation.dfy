/** Several open files on one volume: no operation on one of them is seen by another. */
module Isolation {
  import opened Words
  import opened Layout
  import opened Codec
  import opened Chains
  import opened Entries
  import opened FileData
  import opened FileStates
  import opened FileGrow
  import opened Files
  import opened FileSync
  import opened FileWrite
  import opened FileTruncate

  /** The table changed for clusters of the file only, and what the file gained was free. */
  ghost predicate OwnClusters(g: Geometry, v: seq<Sector>, v': seq<Sector>, cs: seq<nat>, cs': seq<nat>) {
    && Fits(g, v) && Fits(g, v')
    && (forall c :: 0 <= c < g.maxClust && c !in cs && c !in cs' ==> FatMap(g, v')[c] == FatMap(g, v)[c])
    && (forall c :: c in cs' && c !in cs && c < g.maxClust ==> FatMap(g, v)[c] == 0)
  }

  /** Apart from the table, only sectors of the file and its own directory entry changed. */
  ghost predicate OwnSectors(g: Geometry, v: seq<Sector>, v': seq<Sector>, f: FileState, f': FileState, o: Slot) {
    && Clusters(g, f.chain) && Clusters(g, f'.chain)
    && |v'| == |v| && f.dirSect < |v|
    && (forall s :: 0 <= s < |v| && !g.InFat(s) && s != f.dirSect && s !in FileSectors(g, f) && s !in FileSectors(g, f')
          ==> v'[s] == v[s])
    && SameOutsideEntry(v[f.dirSect], v'[f.dirSect], o)
  }

  /** All an operation on file f, whose entry is at offset o, may do to the volume and the window. */
  ghost predicate Touches(g: Geometry, v: seq<Sector>, winsect: nat, f: FileState,
                          v': seq<Sector>, winsect': nat, f': FileState, o: Slot) {
    && OwnClusters(g, v, v', f.chain, f'.chain)
    && OwnSectors(g, v, v', f, f', o)
    && f'.dirSect == f.dirSect
    && (winsect' == winsect || winsect' == 0 || winsect' == f.dirSect || g.InFat(winsect'))
  }

  // ----- the operations touch only what is theirs -----

  /** f_write and f_lseek, by what their contracts say of the volume. */
  lemma GrowTouches(g: Geometry, v: seq<Sector>, winsect: nat, f: FileState, v': seq<Sector>, winsect': nat, f': FileState, o: Slot)
    requires Housed(g, v, winsect, f) && Housed(g, v', winsect', f') && f'.dirSect == f.dirSect
    requires Clusters(g, f'.chain) && Extends(g, v, v', f.chain, f'.chain) && OnlyIn(g, v, v', FileSectors(g, f'))
    requires winsect' == winsect || g.InFat(winsect')
    ensures Touches(g, v, winsect, f, v', winsect', f', o)
    ensures f.dirSect < |v| && |v'| == |v| && v'[f.dirSect] == v[f.dirSect]
  {
    hide FatMap, Times, Sectors;
    HousedEntry(g, v, winsect, f);
    HousedEntry(g, v', winsect', f');
    forall c | c in f'.chain && c !in f.chain && c < g.maxClust
      ensures FatMap(g, v)[c] == 0
    {
      var k := NewMember(f.chain, f'.chain, c);
    }
  }

  lemma NewMember(cs: seq<nat>, ds: seq<nat>, c: nat) returns (k: nat)
    requires cs <= ds && c in ds && c !in cs
    ensures |cs| <= k < |ds| && ds[k] == c
  {
    k :| k < |ds| && ds[k] == c && (k < |cs| ==> cs[k] == c);
  }

  /** f_read, by what its contract says of the volume. */
  lemma ReadTouches(g: Geometry, v: seq<Sector>, winsect: nat, f: FileState, v': seq<Sector>, winsect': nat, f': FileState, o: Slot)
    requires Housed(g, v, winsect, f) && f'.chain == f.chain && f'.dirSect == f.dirSect
    requires Fits(g, v') && FatMap(g, v') == FatMap(g, v)
    requires Clusters(g, f'.chain) && OnlyIn(g, v, v', FileSectors(g, f'))
    requires winsect' == winsect || g.InFat(winsect')
    ensures Touches(g, v, winsect, f, v', winsect', f', o)
    ensures f.dirSect < |v| && |v'| == |v| && v'[f.dirSect] == v[f.dirSect]
  {
    hide FatMap, Times, Sectors;
    HousedEntry(g, v, winsect, f);
  }

  /** f_sync, by what its contract says of the volume. */
  lemma SyncTouches(g: Geometry, v: seq<Sector>, winsect: nat, f: FileState, v': seq<Sector>, winsect': nat, f': FileState, o: Slot)
    requires Housed(g, v, winsect, f) && f'.chain == f.chain && f'.dirSect == f.dirSect
    requires Fits(g, v') && FatMap(g, v') == FatMap(g, v)
    requires Clusters(g, f'.chain) && OnlyEntry(v, v', FileSectors(g, f'), f.dirSect, o)
    requires winsect' in {0, f.dirSect, winsect}
    ensures Touches(g, v, winsect, f, v', winsect', f', o)
  {
    hide FatMap, Times, Sectors;
    HousedEntry(g, v, winsect, f);
  }

  /** f_truncate, by what its contract says of the volume. */
  lemma TruncateTouches(g: Geometry, v: seq<Sector>, winsect: nat, f: FileState, v': seq<Sector>, winsect': nat, f': FileState,
                        o: Slot, eoc: dword)
    requires Housed(g, v, winsect, f) && f'.dirSect == f.dirSect
    requires f'.chain <= f.chain && eoc >= g.maxClust
    requires Fits(g, v') && SameOutsideFat(g, v, v')
    requires f'.chain == f.chain ==> FatMap(g, v') == FatMap(g, v)
    requires f'.chain != f.chain ==>
               IsChain(FatMap(g, v), f.chain) && FatMap(g, v') == CutChain(FatMap(g, v), f.chain, |f'.chain|, eoc)
    requires winsect' == winsect || g.InFat(winsect')
    ensures Touches(g, v, winsect, f, v', winsect', f', o)
    ensures f.dirSect < |v| && |v'| == |v| && v'[f.dirSect] == v[f.dirSect]
  {
    hide FatMap, Times, Sectors, CutChain, IsChain;
    HousedEntry(g, v, winsect, f);
    if f'.chain != f.chain {
      CutChainFacts(FatMap(g, v), f.chain, |f'.chain|, eoc);
    }
    assert forall c :: c in f'.chain ==> c in f.chain;
    PrefixClusters(g, f'.chain, f.chain);
  }

  lemma PrefixClusters(g: Geometry, cs: seq<nat>, ds: seq<nat>)
    requires cs <= ds && Clusters(g, ds)
    ensures Clusters(g, cs)
  {
  }

  // ----- what an open file needs of the others -----

  /** Chain, sectors and entry of file e, and what the window must not show, are left alone. */
  ghost predicate Spared(g: Geometry, v: seq<Sector>, e: FileState, v': seq<Sector>, winsect': nat) {
    && Fits(g, v) && Fits(g, v') && |v'| == |v| && Clusters(g, e.chain)
    && (forall c :: c in e.chain ==> FatMap(g, v')[c] == FatMap(g, v)[c])
    && (forall s :: s in FileSectors(g, e) ==> s < |v| && v'[s] == v[s])
    && EntryAllocated(g, v', e.dirSect)
    && winsect' !in FileSectors(g, e)
  }

  lemma SparedHoused(g: Geometry, v: seq<Sector>, winsect: nat, e: FileState, v': seq<Sector>, winsect': nat)
    requires Housed(g, v, winsect, e) && Spared(g, v, e, v', winsect')
    ensures Housed(g, v', winsect', e) && Chained(g, v, e) && Chained(g, v', e)
  {
    hide FatMap, Times, Sectors, EntryAllocated;
    ChainFacts(g, v, e);
    if e.chain != [] {
      forall i | 0 <= i < |e.chain|
        ensures FatMap(g, v')[e.chain[i]] == FatMap(g, v)[e.chain[i]]
      {
        assert e.chain[i] in e.chain;
      }
      ChainKept(FatMap(g, v), FatMap(g, v'), e.chain);
    }
  }

  /** The buffer is as good as before: what counts are the sectors of the file. */
  lemma SparedBuffered(g: Geometry, v: seq<Sector>, e: FileState, v': seq<Sector>, winsect': nat)
    requires Spared(g, v, e, v', winsect')
    ensures Buffered(g, v', e) <==> Buffered(g, v, e)
    ensures Poised(g, v', e) <==> Poised(g, v, e)
  {
    hide FatMap, Times, Sectors, EntryAllocated, Fits;
    assert forall j :: 0 <= j < |FileSectors(g, e)| ==> FileSectors(g, e)[j] in FileSectors(g, e);
  }

  lemma SparedStore(g: Geometry, v: seq<Sector>, e: FileState, v': seq<Sector>, winsect': nat)
    requires Spared(g, v, e, v', winsect') && Chained(g, v, e) && Chained(g, v', e)
    ensures Store(g, v', e) == Store(g, v, e)
  {
    hide FatMap, Times, Sectors, Chained, EntryAllocated;
    ChainFacts(g, v, e);
    ChainFacts(g, v', e);
    BytesAgree(FileVol(v, e), FileVol(v', e), FileSectors(g, e));
  }

  /** A file that is spared keeps its invariant, its position and every byte; if its buffer was bad, it stays bad. */
  lemma SparedKept(g: Geometry, v: seq<Sector>, winsect: nat, e: FileState, v': seq<Sector>, winsect': nat)
    requires Framed(g, v, winsect, e) && Spared(g, v, e, v', winsect')
    ensures Framed(g, v', winsect', e) && (FileOk(g, v', winsect', e) <==> FileOk(g, v, winsect, e))
    ensures Chained(g, v, e) && Chained(g, v', e) && Content(g, v', e) == Content(g, v, e)
  {
    hide FatMap, Times, Sectors, Buffered, Poised, Stranded, Misled, Housed, Chained, Positioned, Store, Spared, FileOk;
    SparedHoused(g, v, winsect, e, v', winsect');
    SparedBuffered(g, v, e, v', winsect');
    SparedStore(g, v, e, v', winsect');
    FramedOk(g, v, winsect, e);
    FramedOk(g, v', winsect', e);
  }

  // ----- what another open file leaves alone -----

  /** Two open files that share no cluster, and neither's directory entry lies on the other's data. */
  ghost predicate Apart(g: Geometry, e: FileState, f: FileState) {
    && Clusters(g, e.chain) && Clusters(g, f.chain)
    && Disjoint(e.chain, f.chain)
    && e.dirSect !in FileSectors(g, f) && f.dirSect !in FileSectors(g, e)
  }

  /** Chains without a common cluster have no common sector. */
  lemma SectorsApart(g: Geometry, cs: seq<nat>, ds: seq<nat>, s: nat)
    requires Clusters(g, cs) && Clusters(g, ds) && Disjoint(cs, ds)
    ensures !(s in Sectors(g, cs) && s in Sectors(g, ds))
  {
    hide Sectors, Times;
    if s in Sectors(g, cs) && s in Sectors(g, ds) {
      InSectors(g, cs, s);
      InSectors(g, ds, s);
      var c :| c in cs && InCluster(g, c, s);
      var d :| d in ds && InCluster(g, d, s);
      ClustersDisjoint(g, c, d, s - First(g, c), s - First(g, d));
    }
  }

  /** A file that grows by free clusters stays clear of the other file's chain and entry. */
  lemma StillApart(g: Geometry, v: seq<Sector>, winsect: nat, e: FileState, f: FileState, v': seq<Sector>, f': FileState)
    requires Housed(g, v, winsect, e) && Apart(g, e, f)
    requires OwnClusters(g, v, v', f.chain, f'.chain) && Clusters(g, f'.chain) && f'.dirSect == f.dirSect
    ensures Apart(g, e, f')
    ensures forall c: nat :: IsCluster(g, c) && InCluster(g, c, e.dirSect) ==> c !in f.chain && c !in f'.chain
  {
    hide FatMap, Times, Sectors;
    ChainFacts(g, v, e);
    forall c | c in e.chain
      ensures c !in f'.chain
    {
      ChainUsed(FatMap(g, v), e.chain, c);
    }
    forall c: nat | IsCluster(g, c) && InCluster(g, c, e.dirSect)
      ensures c !in f.chain && c !in f'.chain
    {
      InSectors(g, f.chain, e.dirSect);
      assert FatMap(g, v)[c] != 0;
    }
    InSectors(g, f'.chain, e.dirSect);
  }

  /** No sector of the other file changes. */
  lemma OtherSectors(g: Geometry, v: seq<Sector>, winsect: nat, e: FileState, f: FileState, v': seq<Sector>, f': FileState, o: Slot)
    requires Housed(g, v, winsect, e) && Apart(g, e, f) && Apart(g, e, f') && OwnSectors(g, v, v', f, f', o)
    ensures forall s :: s in FileSectors(g, e) ==> s < |v| && v'[s] == v[s]
  {
    hide FatMap, Times, Sectors;
    ChainFacts(g, v, e);
    forall s | s in FileSectors(g, e)
      ensures s < |v| && v'[s] == v[s]
    {
      SectorsApart(g, e.chain, f.chain, s);
      SectorsApart(g, e.chain, f'.chain, s);
    }
  }

  /** An operation on f spares every file that is apart from it. */
  lemma OtherSpared(g: Geometry, v: seq<Sector>, winsect: nat, e: FileState, f: FileState,
                    v': seq<Sector>, winsect': nat, f': FileState, o: Slot)
    requires Housed(g, v, winsect, e) && Apart(g, e, f)
    requires Touches(g, v, winsect, f, v', winsect', f', o)
    ensures Spared(g, v, e, v', winsect') && Apart(g, e, f') && Apart(g, f', e)
  {
    hide FatMap, Times, Sectors, Fits, EntryAllocated, Buffered, Apart;
    ApartFacts(g, e, f);
    StillApart(g, v, winsect, e, f, v', f');
    ApartFacts(g, e, f');
    OtherSectors(g, v, winsect, e, f, v', f', o);
    OtherPlaced(g, v, winsect, e, f, v', winsect', f');
  }

  lemma OtherPlaced(g: Geometry, v: seq<Sector>, winsect: nat, e: FileState, f: FileState,
                    v': seq<Sector>, winsect': nat, f': FileState)
    requires Housed(g, v, winsect, e) && Apart(g, e, f) && |v'| == |v|
    requires OwnClusters(g, v, v', f.chain, f'.chain)
    requires forall c: nat :: IsCluster(g, c) && InCluster(g, c, e.dirSect) ==> c !in f.chain && c !in f'.chain
    requires winsect' == winsect || winsect' == 0 || winsect' == f.dirSect || g.InFat(winsect')
    ensures Placed(g, v', winsect', e)
  {
    hide FatMap, Times, Sectors;
    ChainFacts(g, v, e);
  }

  lemma ApartFacts(g: Geometry, e: FileState, f: FileState)
    requires Apart(g, e, f)
    ensures Clusters(g, e.chain) && Clusters(g, f.chain) && Apart(g, f, e)
    ensures forall c :: c in e.chain ==> c !in f.chain && c < g.maxClust
  {
    hide Sectors, Times;
    forall c | c in e.chain
      ensures c < g.maxClust
    {
      var i :| 0 <= i < |e.chain| && e.chain[i] == c;
      assert IsCluster(g, e.chain[i]);
    }
  }

  /** An operation on f leaves the invariant, the position and every byte of e as they were. */
  lemma OtherKept(g: Geometry, v: seq<Sector>, winsect: nat, e: FileState, f: FileState,
                  v': seq<Sector>, winsect': nat, f': FileState, o: Slot)
    requires Framed(g, v, winsect, e) && Apart(g, e, f)
    requires Touches(g, v, winsect, f, v', winsect', f', o)
    ensures Framed(g, v', winsect', e) && (FileOk(g, v', winsect', e) <==> FileOk(g, v, winsect, e))
    ensures Apart(g, e, f') && Apart(g, f', e)
    ensures Chained(g, v, e) && Chained(g, v', e) && Content(g, v', e) == Content(g, v, e)
  {
    hide FileOk, Spared, Apart, Touches, Chained, Content, Times, Housed, Positioned;
    OtherSpared(g, v, winsect, e, f, v', winsect', f', o);
    SparedKept(g, v, winsect, e, v', winsect');
  }

  // ----- directory entries -----

  /** Distinct files have distinct directory entries. */
  ghost predicate OwnEntry(e: FileState, p: Slot, f: FileState, o: Slot) {
    e.dirSect != f.dirSect || p + 32 <= o || o + 32 <= p
  }

  /** The 32 bytes of a directory entry. */
  ghost function EntryBytes(v: seq<Sector>, f: FileState, o: Slot): seq<byte>
    requires f.dirSect < |v|
  {
    v[f.dirSect][o..o + 32]
  }

  /** An operation on f leaves the directory entry of e as it was. */
  lemma EntryKept(g: Geometry, v: seq<Sector>, winsect: nat, e: FileState, p: Slot, f: FileState, v': seq<Sector>, f': FileState, o: Slot)
    requires Housed(g, v, winsect, e) && Apart(g, e, f) && Apart(g, e, f') && OwnEntry(e, p, f, o)
    requires OwnSectors(g, v, v', f, f', o)
    ensures e.dirSect < |v| && e.dirSect < |v'|
    ensures EntryBytes(v', e, p) == EntryBytes(v, e, p)
  {
    hide FatMap, Times, Sectors;
    HousedEntry(g, v, winsect, e);
  }

  /** An entry that stayed the same still says that the file is saved. */
  lemma NotedStays(v: seq<Sector>, v': seq<Sector>, e: FileState, p: Slot)
    requires e.dirSect < |v| && e.dirSect < |v'| && EntryBytes(v', e, p) == EntryBytes(v, e, p)
    ensures Noted(v, e, p) ==> Noted(v', e, p)
  {
    hide StartOf, SizeOf;
    SameEntry(v[e.dirSect], v'[e.dirSect], p, v, v', e);
  }

  lemma SameEntry(x: Sector, y: Sector, p: Slot, v: seq<Sector>, v': seq<Sector>, e: FileState)
    requires e.dirSect < |v| && e.dirSect < |v'| && x == v[e.dirSect] && y == v'[e.dirSect]
    requires EntryBytes(v', e, p) == EntryBytes(v, e, p)
    ensures StartOf(y, p) == StartOf(x, p) && SizeOf(y, p) == SizeOf(x, p)
  {
    hide LdWord, LdDword;
    forall k | p <= k < p + 32
      ensures y[k] == x[k]
    {
      assert y[k] == y[p..p + 32][k - p] == x[p..p + 32][k - p] == x[k];
    }
    SameDword(x, y, p + DIR_FILE_SIZE);
    SameWord(x, y, p + DIR_FST_CLUS_LO);
    SameWord(x, y, p + DIR_FST_CLUS_HI);
  }
}
