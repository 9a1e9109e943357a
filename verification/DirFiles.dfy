/** Directory operations beside open files: registering and removing names is not seen by the files. */
module DirFiles {
  import opened Words
  import opened Layout
  import opened Codec
  import opened Disk
  import opened Chains
  import opened Entries
  import opened FileSystem
  import opened Allocation
  import opened FileData
  import opened FileStates
  import opened Files
  import opened FileTruncate
  import opened FileSync
  import opened Isolation
  import opened FileRuns
  import opened OpenFiles
  import opened Listings
  import opened DirTables
  import opened Directories
  import opened DirOps

  // ----- one open file, by value -----

  /** A longer chain elsewhere changes no entry of this one, and no used entry to a free one. */
  lemma TabledKeeps(g: Geometry, v: seq<Sector>, cs: seq<nat>, v': seq<Sector>, cs': seq<nat>, grew: bool, c: nat)
    requires Tabled(g, v, cs, v', cs', grew) && 2 <= c < g.maxClust
    ensures c !in cs && FatMap(g, v)[c] != 0 ==> FatMap(g, v')[c] == FatMap(g, v)[c] && c !in cs'
    ensures FatMap(g, v)[c] != 0 ==> FatMap(g, v')[c] != 0
    ensures FatMap(g, v)[c] != 1 ==> FatMap(g, v')[c] != 1
  {
    hide FatMap, Cut, Rank;
    Allocation.EndMark(g);
  }

  /** The sectors of a directory are none of the file's. */
  lemma TableApart(g: Geometry, v: seq<Sector>, start: nat, cs: seq<nat>, ds: seq<nat>, s: nat)
    requires TableOk(g, v, start, cs) && Clusters(g, cs) && Clusters(g, ds) && Disjoint(ds, cs)
    ensures !(s in TableSectors(g, cs) && s in Sectors(g, ds))
  {
    hide FatMap, Times, Sectors;
    if s in TableSectors(g, cs) && s in Sectors(g, ds) {
      if cs == [] {
        StaticFacts(g, v);
        var j :| 0 <= j < |Sectors(g, ds)| && Sectors(g, ds)[j] == s;
        SectorsData(g, ds, j);
      } else {
        SectorsApart(g, ds, cs, s);
      }
    }
  }

  /** A directory operation spares every open file that has no cluster of the directory. */
  lemma DirectorySpares(g: Geometry, v: seq<Sector>, winsect: nat, e: FileState, start: nat, cs: seq<nat>,
                        v': seq<Sector>, winsect': nat, cs': seq<nat>, grew: bool)
    requires Housed(g, v, winsect, e) && Disjoint(e.chain, cs)
    requires TableOk(g, v', start, cs') && Clusters(g, cs') && |v'| == |v|
    requires Tabled(g, v, cs, v', cs', grew) && OnlyIn(g, v, v', TableSectors(g, cs'))
    requires Windowed(g, winsect, winsect', TableSectors(g, cs'))
    ensures Spared(g, v, e, v', winsect') && Disjoint(e.chain, cs')
  {
    hide FatMap, Times, Sectors, Tabled, TableOk, TableSectors;
    ChainFacts(g, v, e);
    forall c | c in e.chain
      ensures FatMap(g, v')[c] == FatMap(g, v)[c] && c !in cs'
    {
      ChainUsed(FatMap(g, v), e.chain, c);
      TabledKeeps(g, v, cs, v', cs', grew, c);
    }
    forall s | s in FileSectors(g, e)
      ensures v'[s] == v[s] && s !in TableSectors(g, cs')
    {
      TableApart(g, v', start, cs', e.chain, s);
    }
    forall c: nat | IsCluster(g, c) && InCluster(g, c, e.dirSect)
      ensures FatMap(g, v')[c] != 0
    {
      TabledKeeps(g, v, cs, v', cs', grew, c);
    }
  }

  // ----- its directory entry -----

  /** The entry at offset p of sector s is number k of the directory. */
  ghost predicate IsEntry(ss: seq<nat>, es: seq<Entry>, s: nat, p: Slot, k: nat) {
    k < |es| && k / 16 < |ss| && s == ss[k / 16] && p == SlotOf(k)
  }

  /** If the entry lies in this directory, it is one in use. */
  ghost predicate Enrolled(ss: seq<nat>, es: seq<Entry>, s: nat, p: Slot) {
    s in ss ==> exists k: nat :: IsEntry(ss, es, s, p, k) && !Unused(es[k])
  }

  /** A sector of the lengthened table that holds an entry of a used cluster was in the table before. */
  lemma OldSector(g: Geometry, v: seq<Sector>, cs: seq<nat>, v': seq<Sector>, cs': seq<nat>, grew: bool, s: nat)
    requires Tabled(g, v, cs, v', cs', grew) && Clusters(g, cs) && Clusters(g, cs') && EntryAllocated(g, v, s)
    requires s in TableSectors(g, cs')
    ensures s in TableSectors(g, cs)
  {
    hide FatMap, Sectors, Times, Rank, Linked, Cut;
    if grew {
      InSectors(g, cs', s);
      var c :| c in cs' && InCluster(g, c, s);
      assert IsCluster(g, c);
      InSectors(g, cs, s);
    }
  }

  /** The entry is where it was, and says what it said, if its number in the listing was not written. */
  lemma EntryLeft(g: Geometry, v: seq<Sector>, ss: seq<nat>, v': seq<Sector>, ss': seq<nat>, h: FileState, p: Slot)
    requires Inside(v, ss) && Inside(v', ss') && ss <= ss' && |Listing(v, ss)| <= |Listing(v', ss')|
    requires OnlyIn(g, v, v', ss') && h.dirSect < |v| && !g.InFat(h.dirSect)
    requires h.dirSect in ss' ==>
               exists k: nat :: IsEntry(ss, Listing(v, ss), h.dirSect, p, k) && Listing(v', ss')[k] == Listing(v, ss)[k]
    ensures |v'| == |v| && EntryBytes(v', h, p) == EntryBytes(v, h, p)
  {
    if h.dirSect in ss' {
      var k: nat :| IsEntry(ss, Listing(v, ss), h.dirSect, p, k) && Listing(v', ss')[k] == Listing(v, ss)[k];
      assert ss'[k / 16] == ss[k / 16];
      assert EntryAt(v'[h.dirSect], p) == EntryAt(v[h.dirSect], p);
    }
  }

  /** The listing may be longer, and entry number i may have changed; the others are as they were. */
  ghost predicate Rewritten(es: seq<Entry>, es': seq<Entry>, i: nat) {
    |es| <= |es'| && forall k :: 0 <= k < |es| && k != i ==> es'[k] == es[k]
  }

  /** An open file beside a directory operation shows the same bytes, its buffer is as good as it was, and its entry stays. */
  lemma DirectoryBystander(g: Geometry, v: seq<Sector>, winsect: nat, h: FileState, p: Slot, start: nat,
                           cs: seq<nat>, v': seq<Sector>, winsect': nat, cs': seq<nat>, grew: bool, i: nat)
    requires Framed(g, v, winsect, h) && Disjoint(h.chain, cs)
    requires TableOk(g, v, start, cs) && TableOk(g, v', start, cs') && |v'| == |v|
    requires Clusters(g, cs) && Clusters(g, cs') && TableSectors(g, cs) <= TableSectors(g, cs')
    requires Inside(v, TableSectors(g, cs)) && Inside(v', TableSectors(g, cs'))
    requires Tabled(g, v, cs, v', cs', grew) && OnlyIn(g, v, v', TableSectors(g, cs'))
    requires Windowed(g, winsect, winsect', TableSectors(g, cs'))
    requires Rewritten(Listing(v, TableSectors(g, cs)), Listing(v', TableSectors(g, cs')), i)
    requires h.dirSect in TableSectors(g, cs) ==>
               exists k: nat :: IsEntry(TableSectors(g, cs), Listing(v, TableSectors(g, cs)), h.dirSect, p, k) && k != i
    ensures Framed(g, v', winsect', h) && (FileOk(g, v', winsect', h) <==> FileOk(g, v, winsect, h))
    ensures Disjoint(h.chain, cs')
    ensures Chained(g, v, h) && Chained(g, v', h) && Content(g, v', h) == Content(g, v, h)
    ensures h.dirSect < |v| && EntryBytes(v', h, p) == EntryBytes(v, h, p)
    ensures Noted(v, h, p) ==> Noted(v', h, p)
  {
    hide FatMap, Times, Sectors, Steady, Positioned, Store, Chained, Noted, FileOk, Framed, EntryBytes, Tabled, TableOk, TableSectors;
    hide Listing, OnlyIn, Spared, Clusters, Inside, Windowed, Housed;
    FramedHoused(g, v, winsect, h);
    DirectorySpares(g, v, winsect, h, start, cs, v', winsect', cs', grew);
    SparedKept(g, v, winsect, h, v', winsect');
    HousedEntry(g, v, winsect, h);
    if h.dirSect in TableSectors(g, cs') {
      OldSector(g, v, cs, v', cs', grew, h.dirSect);
    }
    EntryLeft(g, v, TableSectors(g, cs), v', TableSectors(g, cs'), h, p);
    NotedStays(v, v', h, p);
  }

  // ----- directory calls in a session of open files -----

  /** The file has no cluster of the directory; if its entry lies there, it is one in use. */
  ghost predicate Beside(dj: Dir, e: File)
    requires dj.Rooted()
    reads dj`chain, e`chain, dj.fs`winsect, dj.fs`wflag, dj.fs`fsiFlag, dj.fs`lastClust, dj.fs`freeClust, dj.fs.win, dj.fs.drive
  {
    Disjoint(e.chain, dj.chain) && Enrolled(dj.Table(), dj.Listed(), e.dirSect, e.dirOfs)
  }

  /** Entry number i of the directory is not the file's. */
  ghost predicate NotOpen(dj: Dir, e: File, i: nat)
    requires dj.Rooted()
    reads dj`chain, e`chain, dj.fs`winsect, dj.fs`wflag, dj.fs`fsiFlag, dj.fs`lastClust, dj.fs`freeClust, dj.fs.win, dj.fs.drive
  {
    !IsEntry(dj.Table(), dj.Listed(), e.dirSect, e.dirOfs, i)
  }

  /** All files are beside the directory. */
  ghost predicate AllBeside(dj: Dir, files: seq<File>)
    requires dj.Rooted()
    reads files, dj`chain, dj.fs`winsect, dj.fs`wflag, dj.fs`fsiFlag, dj.fs`lastClust, dj.fs`freeClust, dj.fs.win, dj.fs.drive
  {
    forall j :: 0 <= j < |files| ==> Beside(dj, files[j])
  }

  /** A lengthened chain has the old sectors in front. */
  lemma TabledTable(g: Geometry, v: seq<Sector>, cs: seq<nat>, v': seq<Sector>, cs': seq<nat>, grew: bool)
    requires Tabled(g, v, cs, v', cs', grew) && Clusters(g, cs) && Clusters(g, cs')
    ensures TableSectors(g, cs) <= TableSectors(g, cs')
  {
    hide FatMap, Times, Sectors, FirstFree, Linked, Cut;
    if grew {
      AppendSectors(g, cs, cs'[|cs|]);
    }
  }

  lemma TabledClean(g: Geometry, v: seq<Sector>, cs: seq<nat>, v': seq<Sector>, cs': seq<nat>, grew: bool)
    requires Tabled(g, v, cs, v', cs', grew) && !HasBadEntry(FatMap(g, v))
    ensures !HasBadEntry(FatMap(g, v'))
  {
    hide FatMap, Tabled;
    TabledFits(g, v, cs, v', cs', grew);
    forall c | 2 <= c < g.maxClust
      ensures FatMap(g, v')[c] != 1
    {
      TabledKeeps(g, v, cs, v', cs', grew, c);
    }
  }

  lemma TabledFits(g: Geometry, v: seq<Sector>, cs: seq<nat>, v': seq<Sector>, cs': seq<nat>, grew: bool)
    requires Tabled(g, v, cs, v', cs', grew)
    ensures Fits(g, v) && Fits(g, v')
  {
    hide FatMap, Fits;
  }

  lemma StillEnrolled(g: Geometry, v: seq<Sector>, cs: seq<nat>, v': seq<Sector>, cs': seq<nat>, grew: bool,
                      es: seq<Entry>, es': seq<Entry>, i: nat, s: nat, p: Slot)
    requires Tabled(g, v, cs, v', cs', grew) && Clusters(g, cs) && Clusters(g, cs') && EntryAllocated(g, v, s)
    requires Enrolled(TableSectors(g, cs), es, s, p) && Rewritten(es, es', i)
    requires forall k: nat :: IsEntry(TableSectors(g, cs), es, s, p, k) && !Unused(es[k]) ==> k != i
    ensures Enrolled(TableSectors(g, cs'), es', s, p)
    ensures s in TableSectors(g, cs) ==> exists k: nat :: IsEntry(TableSectors(g, cs), es, s, p, k) && k != i
  {
    hide FatMap, Times, Sectors, TableSectors, Tabled, Unused, SlotOf;
    if s in TableSectors(g, cs') {
      OldSector(g, v, cs, v', cs', grew, s);
      TabledTable(g, v, cs, v', cs', grew);
      var k: nat :| IsEntry(TableSectors(g, cs), es, s, p, k) && !Unused(es[k]);
      assert IsEntry(TableSectors(g, cs'), es', s, p, k);
    }
  }

  /** What the directory was before the call. */
  ghost predicate Was(dj: Dir, v: seq<Sector>, cs: seq<nat>, es: seq<Entry>) {
    && TableOk(dj.fs.g, v, StartCluster(dj.fs.g, dj.sclust), cs) && Clusters(dj.fs.g, cs)
    && Inside(v, TableSectors(dj.fs.g, cs)) && es == Listing(v, TableSectors(dj.fs.g, cs))
  }

  /** An open file, before and after a call on a directory. */
  lemma FileBeside(dj: Dir, v: seq<Sector>, w: nat, cs: seq<nat>, es: seq<Entry>, grew: bool, i: nat, e: File, x: Face)
    requires dj.Rooted() && e.fs == dj.fs && Was(dj, v, cs, es) && FileWas(e, v, w, x)
    requires dj.fs.drive.reliable && !HasBadEntry(dj.fs.Fat())
    requires |dj.fs.Vol()| == |v| && Tabled(dj.fs.g, v, cs, dj.fs.Vol(), dj.chain, grew)
    requires OnlyIn(dj.fs.g, v, dj.fs.Vol(), dj.Table()) && Windowed(dj.fs.g, w, dj.fs.winsect, dj.Table())
    requires Rewritten(es, dj.Listed(), i)
    requires Disjoint(e.chain, cs) && Enrolled(TableSectors(dj.fs.g, cs), es, e.dirSect, e.dirOfs)
    requires forall k: nat :: IsEntry(TableSectors(dj.fs.g, cs), es, e.dirSect, e.dirOfs, k) && !Unused(es[k]) ==> k != i
    ensures Held(e) && Shows(e, x) && Beside(dj, e) && (Usable(e) <==> FileOk(e.fs.g, v, w, e.State()))
  {
    hide FatMap, Times, Sectors, TableOk, TableSectors, Listing, OnlyIn, Tabled, Inside, Clusters, Windowed, Rewritten;
    hide Framed, Chained, Content, EntryBytes, IsEntry, Unused, FatFs.Valid, FatFs.Shape, FatFs.Vol, FatFs.Fat;
    hide Noted, FileOk, HasBadEntry, Held, Shows, Usable;
    var g, h, v' := dj.fs.g, e.State(), dj.fs.Vol();
    FramedEntry(g, v, w, h);
    StillEnrolled(g, v, cs, v', dj.chain, grew, es, dj.Listed(), i, e.dirSect, e.dirOfs);
    TabledTable(g, v, cs, v', dj.chain, grew);
    hide Enrolled;
    DirectoryBystander(g, v, w, h, e.dirOfs, StartCluster(g, dj.sclust), cs, v', dj.fs.winsect, dj.chain, grew, i);
    StillHeld(e, v, w, x);
  }

  lemma FramedEntry(g: Geometry, v: seq<Sector>, winsect: nat, h: FileState)
    requires Framed(g, v, winsect, h)
    ensures Fits(g, v) && EntryAllocated(g, v, h.dirSect)
  {
    hide FatMap, Times, Sectors, EntryAllocated, Positioned, Poised, Fits;
    SteadyHoused(g, v, winsect, h);
    HousedEntry(g, v, winsect, h);
  }

  /** No open file has the entry that was registered: it was not in use. */
  lemma FreshEntry(es: seq<Entry>, m: nat, i: nat, x: Entry, es': seq<Entry>)
    requires Registered(es, m, i, x, es')
    ensures Rewritten(es, es', i) && (i < |es| ==> Unused(es[i]))
  {
  }

  lemma SameListing(es: seq<Entry>)
    ensures Rewritten(es, es, |es|)
  {
  }

  /** All open files before a call on something else. */
  ghost predicate AllWere(files: seq<File>, v: seq<Sector>, w: nat, faces: seq<Face>)
    reads files, set i | 0 <= i < |files| :: files[i].buf
  {
    |faces| == |files| && forall j :: 0 <= j < |files| ==> FileWas(files[j], v, w, faces[j])
  }

  lemma SessionWere(fs: FatFs, files: seq<File>, faces: seq<Face>)
    requires Session(fs, files) && Showing(files, faces)
    ensures AllWere(files, fs.Vol(), fs.winsect, faces)
    ensures forall j :: 0 <= j < |files| ==> files[j].buf != fs.win
    ensures forall j :: 0 <= j < |files| ==> (Usable(files[j]) <==> FileOk(fs.g, fs.Vol(), fs.winsect, files[j].State()))
  {
    hide Held, Shows, Usable, FileOk, FileWas, Neighbours, FatFs.Vol, FatFs.Valid, FatFs.Shape, FatFs.Fat, HasBadEntry;
    forall j | 0 <= j < |files|
      ensures FileWas(files[j], fs.Vol(), fs.winsect, faces[j]) && files[j].buf != fs.win
      ensures Usable(files[j]) <==> FileOk(fs.g, fs.Vol(), fs.winsect, files[j].State())
    {
      WasHeld(files[j], faces[j]);
    }
  }

  /** dir_find while files are open: no open file sees it. */
  method FindAmong(dj: Dir, files: seq<File>, ghost faces: seq<Face>) returns (res: FResult)
    requires dj.Rooted() && |dj.fn| == 12 && Session(dj.fs, files) && Showing(files, faces) && AllBeside(dj, files)
    modifies dj`index, dj`clust, dj`sect, dj`dir, dj`chain
    modifies dj.fs`winsect, dj.fs`wflag, dj.fs`fsiFlag, dj.fs`freeClust, dj.fs`lastClust, dj.fs.win, dj.fs.drive
    ensures res == Ok || res == NoFile || res == IntErr
    ensures res == IntErr <==> old(dj.Table()) == []
    ensures Session(dj.fs, files) && Showing(files, faces)
    ensures forall j :: 0 <= j < |files| ==> (Usable(files[j]) <==> old(Usable(files[j])))
    ensures dj.Rooted() && AllBeside(dj, files) && dj.chain == old(dj.chain) && dj.Listed() == old(dj.Listed())
    ensures res == Ok ==> Loaded(dj) && FindFrom(dj.Listed(), NameOf(dj), 0) == Some(dj.index as nat)
    ensures res == NoFile ==> FindFrom(dj.Listed(), NameOf(dj), 0) == None
    ensures Upkeep(dj.fs)
  {
    hide FatMap, Times, Sectors, TableOk, TableSectors, Stands, NoRepeat, Listing, FreeCount, OnlyIn, AllUsed, HasBadEntry;
    hide EntryAt, FindFrom, Inside, Tabled, Content, Chained, Framed;
    hide Enrolled, Neighbours, FileData.Clusters, Windowed, EntryBytes, Unused, FileWas, Held, Shows;
    hide Usable, FileOk, FatFs.Mirrored, FatFs.Valid, FatFs.Shape, FatFs.Vol, FatFs.Fat;
    ghost var v, w, cs, es := dj.fs.Vol(), dj.fs.winsect, dj.chain, dj.Listed();
    assert Was(dj, v, cs, es);
    SessionWere(dj.fs, files, faces);
    res := Find(dj);
    VolFits(dj.fs);
    TabledSame(dj.fs.g, v, cs, dj.fs.Vol());
    OnlyInSame(dj.fs.g, v, dj.Table());
    SameListing(es);
    forall j | 0 <= j < |files|
      ensures Held(files[j]) && Shows(files[j], faces[j]) && Beside(dj, files[j])
      ensures Usable(files[j]) <==> old(Usable(files[j]))
    {
      BehindListing(dj.Table(), es, files[j].dirSect, files[j].dirOfs);
      FileBeside(dj, v, w, cs, es, false, |es|, files[j], faces[j]);
    }
  }

  lemma BehindListing(ss: seq<nat>, es: seq<Entry>, s: nat, p: Slot)
    ensures forall k: nat :: IsEntry(ss, es, s, p, k) ==> k != |es|
  {
    hide SlotOf;
  }

  /**
    dir_register while files are open. Whatever it does to the directory and to the table of clusters, every
    open file shows the same bytes, and so does its directory entry, and what was usable stays so.
   */
  method RegisterAmong(dj: Dir, files: seq<File>, ghost faces: seq<Face>) returns (res: FResult, ghost m: nat)
    requires dj.Rooted() && |dj.fn| == 12 && Session(dj.fs, files) && Showing(files, faces) && AllBeside(dj, files)
    modifies dj`index, dj`clust, dj`sect, dj`dir, dj`chain
    modifies dj.fs`winsect, dj.fs`wflag, dj.fs`fsiFlag, dj.fs`freeClust, dj.fs`lastClust, dj.fs.win, dj.fs.drive
    ensures res == Ok || res == NoFile || res == Denied || res == IntErr
    ensures res == IntErr <==> old(dj.Table()) == []
    ensures res != IntErr ==> Session(dj.fs, files) && Showing(files, faces)
    ensures res != IntErr ==> forall j :: 0 <= j < |files| ==> (Usable(files[j]) <==> old(Usable(files[j])))
    ensures res != IntErr ==> dj.Rooted() && AllBeside(dj, files) && old(dj.Table()) <= dj.Table()
    ensures res == Ok ==> Loaded(dj) && Registered(old(dj.Listed()), m, dj.index, NewEntry(dj.fn), dj.Listed())
    ensures res == Ok && Proper(old(dj.Listed())) && Storable(NameOf(dj))
            && Lookup(old(dj.Listed()), NameOf(dj)) == None ==>
              Proper(dj.Listed()) && Adds(old(dj.Listed()), NewEntry(dj.fn), dj.Listed())
    ensures res == NoFile || res == Denied ==> dj.Listed() == old(dj.Listed())
    ensures dj.fs.Shape() && Upkeep(dj.fs)
  {
    hide FatMap, Times, Sectors, TableOk, TableSectors, Stands, NoRepeat, Listing, FreeCount, OnlyIn, AllUsed, HasBadEntry;
    hide Stretched, FirstBlank, NoBlank, EntryAt, NewEntry, Proper, Adds, Lookup, Inside, Tabled, Fixed, Content, Chained, Framed;
    hide Enrolled, Neighbours, FileData.Clusters, Registered, Windowed, EntryBytes, Rewritten, Unused, FileWas, Held, Shows;
    hide Usable, FileOk, FatFs.Mirrored, FatFs.Valid, FatFs.Shape, FatFs.Vol, FatFs.Fat;
    ghost var v, w, cs, es := dj.fs.Vol(), dj.fs.winsect, dj.chain, dj.Listed();
    assert Was(dj, v, cs, es);
    SessionWere(dj.fs, files, faces);
    res, m := Register(dj);
    if res != IntErr {
      ghost var i := if res == Ok then dj.index as nat else |es|;
      SameListing(es);
      if res == Ok {
        FreshEntry(es, m, i, NewEntry(dj.fn), dj.Listed());
      }
      TabledClean(dj.fs.g, v, cs, dj.fs.Vol(), dj.chain, m > 0);
      TabledTable(dj.fs.g, v, cs, dj.fs.Vol(), dj.chain, m > 0);
      forall j | 0 <= j < |files|
        ensures Held(files[j]) && Shows(files[j], faces[j]) && Beside(dj, files[j])
        ensures Usable(files[j]) <==> old(Usable(files[j]))
      {
        FileBeside(dj, v, w, cs, es, m > 0, i, files[j], faces[j]);
      }
    }
  }

  /** dir_remove of an entry that no open file has: no open file sees it. */
  method RemoveAmong(dj: Dir, files: seq<File>, ghost faces: seq<Face>) returns (res: FResult)
    requires dj.Rooted() && Session(dj.fs, files) && Showing(files, faces) && AllBeside(dj, files)
    requires forall j :: 0 <= j < |files| ==> NotOpen(dj, files[j], dj.index)
    modifies dj`index, dj`clust, dj`sect, dj`dir, dj.fs`winsect, dj.fs`wflag, dj.fs.win, dj.fs.drive
    ensures res == Ok || res == IntErr
    ensures dj.index == old(dj.index) && (res == Ok <==> dj.index / 16 < |dj.Table()|)
    ensures res == Ok ==> Session(dj.fs, files) && Showing(files, faces)
    ensures res == Ok ==> forall j :: 0 <= j < |files| ==> (Usable(files[j]) <==> old(Usable(files[j])))
    ensures res == Ok ==> dj.Rooted() && AllBeside(dj, files)
    ensures res == Ok ==>
              dj.index < |old(dj.Listed())|
              && dj.Listed() == old(dj.Listed())[dj.index := Deleted(old(dj.Listed())[dj.index])]
    ensures dj.fs.Shape() && (res == Ok ==> Upkeep(dj.fs))
  {
    hide FatMap, Times, Sectors, TableOk, TableSectors, Stands, NoRepeat, Listing, FreeCount, OnlyIn, AllUsed, HasBadEntry;
    hide EntryAt, Proper, Drops, FindFrom, Inside, Tabled, Content, Chained, Framed;
    hide Enrolled, Neighbours, FileData.Clusters, Windowed, EntryBytes, Unused, FileWas, Held, Shows;
    hide Usable, FileOk, FatFs.Mirrored, FatFs.Valid, FatFs.Shape, FatFs.Vol, FatFs.Fat;
    ghost var v, w, cs, es := dj.fs.Vol(), dj.fs.winsect, dj.chain, dj.Listed();
    assert Was(dj, v, cs, es);
    SessionWere(dj.fs, files, faces);
    res := Remove(dj);
    if res == Ok {
      VolFits(dj.fs);
      TabledSame(dj.fs.g, v, cs, dj.fs.Vol());
      TabledClean(dj.fs.g, v, cs, dj.fs.Vol(), dj.chain, false);
      forall j | 0 <= j < |files|
        ensures Held(files[j]) && Shows(files[j], faces[j]) && Beside(dj, files[j])
        ensures Usable(files[j]) <==> old(Usable(files[j]))
      {
        FileBeside(dj, v, w, cs, es, false, dj.index, files[j], faces[j]);
      }
    }
  }

  // ----- a directory beside a call on a file -----

  /** A call on a file leaves the chain of a directory beside it alone. */
  lemma TableLeft(g: Geometry, v: seq<Sector>, winsect: nat, f: FileState, v': seq<Sector>, winsect': nat, f': FileState, o: Slot,
                  start: nat, cs: seq<nat>)
    requires Touches(g, v, winsect, f, v', winsect', f', o) && TableOk(g, v, start, cs) && Disjoint(f.chain, cs)
    ensures TableOk(g, v', start, cs) && Disjoint(f'.chain, cs)
  {
    hide FatMap, Times, Sectors, OwnSectors;
    TableFacts(g, v, start, cs);
    forall c | c in cs
      ensures c !in f.chain && c !in f'.chain && 0 <= c < g.maxClust
    {
      ChainUsed(FatMap(g, v), cs, c);
    }
    if start != 0 {
      ChainKept(FatMap(g, v), FatMap(g, v'), cs);
    }
  }

  /** Of its sectors only the one with the file's entry may change, and only in that entry. */
  lemma SectorLeft(g: Geometry, v: seq<Sector>, winsect: nat, f: FileState, v': seq<Sector>, winsect': nat, f': FileState, o: Slot,
                   start: nat, cs: seq<nat>, s: nat)
    requires Touches(g, v, winsect, f, v', winsect', f', o) && TableOk(g, v, start, cs)
    requires Disjoint(f.chain, cs) && Disjoint(f'.chain, cs)
    requires Clusters(g, cs) && s in TableSectors(g, cs)
    ensures s < |v| == |v'| && (s != f.dirSect ==> v'[s] == v[s])
    ensures f.dirSect < |v| && SameOutsideEntry(v[f.dirSect], v'[f.dirSect], o)
  {
    hide FatMap, Times, Sectors, OwnClusters, TableSectors, TableOk, SameOutsideEntry;
    TableFacts(g, v, start, cs);
    TableApart(g, v, start, cs, f.chain, s);
    TableApart(g, v, start, cs, f'.chain, s);
  }

  /** Storing into the entry at offset o changes no other entry of the sector, and not the name of this one. */
  lemma SlotNames(x: Sector, y: Sector, o: Slot, i: nat, k: nat)
    requires SameOutsideEntry(x, y, o) && o == SlotOf(i)
    ensures SameName(EntryAt(x, SlotOf(k)), EntryAt(y, SlotOf(k)))
    ensures SlotOf(k) != o ==> EntryAt(y, SlotOf(k)) == EntryAt(x, SlotOf(k))
  {
    hide Archived;
    var p := SlotOf(k);
    if p != o {
      SlotsApart(i, k);
      assert EntryAt(y, p) == EntryAt(x, p);
    } else {
      assert EntryAt(y, p)[..11] == EntryAt(x, p)[..11];
      ArchivedKind(x[o + DIR_ATTR]);
    }
  }

  lemma SlotsApart(i: nat, k: nat)
    requires SlotOf(i) != SlotOf(k)
    ensures SlotOf(i) + 32 <= SlotOf(k) || SlotOf(k) + 32 <= SlotOf(i)
  {
  }

  /** Setting the archive bit makes no volume label of a name. */
  lemma ArchivedKind(a: byte)
    ensures Archived(a) as int / AM_VOL % 2 == a as int / AM_VOL % 2
  {
  }

  /**
    A call on a file beside a directory: the directory is the same table with the same names, and no entry
    but the file's own has changed.
   */
  lemma DirectoryKept(g: Geometry, v: seq<Sector>, winsect: nat, f: FileState, v': seq<Sector>, winsect': nat, f': FileState, o: Slot,
                      start: nat, cs: seq<nat>)
    requires Touches(g, v, winsect, f, v', winsect', f', o) && TableOk(g, v, start, cs) && Disjoint(f.chain, cs)
    requires Clusters(g, cs) && Inside(v, TableSectors(g, cs))
    requires Enrolled(TableSectors(g, cs), Listing(v, TableSectors(g, cs)), f.dirSect, o)
    ensures TableOk(g, v', start, cs) && Disjoint(f'.chain, cs) && Inside(v', TableSectors(g, cs))
    ensures SameNames(Listing(v, TableSectors(g, cs)), Listing(v', TableSectors(g, cs)))
    ensures forall k: nat :: k < |Listing(v, TableSectors(g, cs))|
                             && !IsEntry(TableSectors(g, cs), Listing(v, TableSectors(g, cs)), f.dirSect, o, k) ==>
              Listing(v', TableSectors(g, cs))[k] == Listing(v, TableSectors(g, cs))[k]
  {
    hide FatMap, Times, Sectors, TableSectors, TableOk, SameOutsideEntry, SameName, Touches, Clusters, Unused, EntryAt, SlotOf;
    TableLeft(g, v, winsect, f, v', winsect', f', o, start, cs);
    TableFacts(g, v, start, cs);
    TableFacts(g, v', start, cs);
    var ss := TableSectors(g, cs);
    var es, es' := Listing(v, ss), Listing(v', ss);
    forall k | 0 <= k < |es|
      ensures SameName(es[k], es'[k]) && (!IsEntry(ss, es, f.dirSect, o, k) ==> es'[k] == es[k])
    {
      SectorLeft(g, v, winsect, f, v', winsect', f', o, start, cs, ss[k / 16]);
      if ss[k / 16] == f.dirSect {
        var i: nat :| IsEntry(ss, es, f.dirSect, o, i);
        SlotNames(v[f.dirSect], v'[f.dirSect], o, i, k);
      } else {
        SameNameSelf(es[k]);
      }
    }
  }

  lemma SameNameSelf(e: Entry)
    ensures SameName(e, e)
  {
  }

  /** An entry in use stays one. */
  lemma NamesEnrolled(ss: seq<nat>, es: seq<Entry>, es': seq<Entry>, s: nat, p: Slot)
    requires Enrolled(ss, es, s, p) && SameNames(es, es')
    ensures Enrolled(ss, es', s, p)
  {
    hide SameName, Unused, SlotOf;
    if s in ss {
      var k: nat :| IsEntry(ss, es, s, p, k) && !Unused(es[k]);
      SameNameFacts(es[k], es'[k], es[k][..11]);
      assert IsEntry(ss, es', s, p, k);
    }
  }

  // ----- a full root -----

  /**
    A volume whose static root has no unused entry, and whose table has no bad entry. By the conditions proved
    for dir_register its answer there is NoFile.
   */
  lemma FullRoot() returns (g: Geometry, v: seq<Sector>)
    ensures g.fsType == FAT12 && TableOk(g, v, 0, []) && Clusters(g, [])
    ensures |TableSectors(g, [])| == 1 && Inside(v, TableSectors(g, []))
    ensures |Listing(v, TableSectors(g, []))| == 16
    ensures NoBlank(Listing(v, TableSectors(g, []))) && Fixed(Listing(v, TableSectors(g, [])), [])
    ensures !HasBadEntry(FatMap(g, v))
  {
    var h, w := SmallExists();
    var names: Sector := seq(512, i => 0x41);
    g, v := h, w[2 := names];
    SmallFits(g, v);
    hide Fits, Times, SmallVolume, FatMap, HasBadEntry, NoBlank, Fixed, Listing;
    SmallClean(g, v);
    SmallRoot(g);
    AllUsedUp(v, 2);
  }

  lemma AllUsedUp(v: seq<Sector>, s: nat)
    requires s < |v| && forall k :: 0 <= k < 512 ==> v[s][k] == 0x41
    ensures |Listing(v, [s])| == 16 && NoBlank(Listing(v, [s])) && Fixed(Listing(v, [s]), [])
  {
    var es := Listing(v, [s]);
    forall k | 0 <= k < |es|
      ensures es[k][0] == 0x41
    {
      assert es[k] == EntryAt(v[s], SlotOf(k));
    }
  }

  lemma SmallClean(g: Geometry, v: seq<Sector>)
    requires SmallVolume(g) && SmallImage(v) && Fits(g, v)
    ensures !HasBadEntry(FatMap(g, v))
  {
    SmallEntries(g, v);
    TwoEntries(FatMap(g, v));
    hide FatMap, Fits, SmallImage, SmallVolume, HasBadEntry;
  }

  lemma TwoEntries(fat: seq<dword>)
    requires |fat| == 4 && fat[2] == 3 && fat[3] == 0xFFF
    ensures !HasBadEntry(fat)
  {
  }

  lemma SmallRoot(g: Geometry)
    requires SmallVolume(g)
    ensures g.fsType == FAT12 && TableSectors(g, []) == [2]
  {
    assert Consecutive(2, 1) == [2];
  }
}
