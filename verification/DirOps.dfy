/** Search, registration and removal of directory entries. */
module DirOps {
  import opened Words
  import opened Layout
  import opened Codec
  import opened Disk
  import Mirror
  import opened Chains
  import opened Entries
  import opened FileSystem
  import opened Allocation
  import opened FileData
  import opened FileStates
  import opened Listings
  import opened DirTables
  import opened Directories

  /** The name an object looks for. */
  function NameOf(dj: Dir): Name
    requires |dj.fn| == 12
  {
    dj.fn[..11]
  }

  /** A live sector in the table: it may be brought into the window. */
  lemma StandsLive(dj: Dir)
    requires dj.Rooted() && dj.Standing()
    ensures dj.sect != 0 && dj.sect < |dj.fs.drive.sectors| && dj.fs.g.Live(dj.sect) && !dj.fs.g.InFat(dj.sect)
    ensures dj.fs.g.FatEnd() <= dj.sect && dj.sect in dj.Table()
    ensures dj.index < |dj.Listed()| && dj.dir == SlotOf(dj.index) && dj.sect == dj.Table()[dj.index / 16]
    ensures NoRepeat(dj.Table())
  {
    hide FatMap, Times, Sectors;
    TableFacts(dj.fs.g, dj.fs.Vol(), StartCluster(dj.fs.g, dj.sclust), dj.chain);
    assert dj.sect in dj.Table();
    RowOf(dj.index, |dj.Table()|);
  }

  /** The object stands on an entry, and the entry's sector is in the window. */
  ghost predicate Loaded(dj: Dir)
    reads dj, dj.fs`winsect, dj.fs`wflag, dj.fs`fsiFlag, dj.fs`lastClust, dj.fs`freeClust, dj.fs.win, dj.fs.drive
  {
    && dj.Rooted() && dj.Standing() && dj.fs.winsect == dj.sect && dj.index < |dj.Listed()|
    && EntryAt(dj.fs.win[..], dj.dir) == dj.Listed()[dj.index]
  }

  /** move_window on the sector of the current entry. */
  method Load(dj: Dir) returns (res: FResult)
    requires dj.Rooted() && dj.Standing()
    modifies dj.fs`winsect, dj.fs`wflag, dj.fs.win, dj.fs.drive
    ensures dj.fs.Shape() && dj.fs.Vol() == old(dj.fs.Vol()) && |dj.fs.drive.sectors| == old(|dj.fs.drive.sectors|)
    ensures res == Ok || res == DiskErr
    ensures dj.fs.drive.reliable ==> res == Ok
    ensures res == Ok ==> Loaded(dj) && dj.Listed() == old(dj.Listed()) && dj.fs.winsect in dj.Table()
    ensures dj.fs.drive.reliable && old(dj.fs.Mirrored()) ==> dj.fs.Mirrored()
  {
    hide FatMap, Times, Sectors, TableOk, TableSectors, Stands, NoRepeat;
    hide FatFs.Mirrored, FatFs.Valid, FatFs.Shape, FatFs.Vol, FatFs.Fat;
    StandsLive(dj);
    res := dj.fs.MoveWindow(dj.sect);
  }

  /** dir_next without stretching: on to the next entry, if there is one. */
  method Advance(dj: Dir) returns (res: FResult)
    requires dj.Rooted() && dj.Standing()
    modifies dj`index, dj`clust, dj`sect, dj`dir, dj`chain
    modifies dj.fs`winsect, dj.fs`wflag, dj.fs`fsiFlag, dj.fs`freeClust, dj.fs`lastClust, dj.fs.win, dj.fs.drive
    ensures |dj.fs.drive.sectors| == old(|dj.fs.drive.sectors|) && dj.chain == old(dj.chain)
    ensures res == Ok || res == NoFile || res == DiskErr
    ensures dj.fs.drive.reliable ==> res != DiskErr
    ensures res != DiskErr ==> dj.Rooted() && dj.fs.Vol() == old(dj.fs.Vol()) && dj.Listed() == old(dj.Listed())
    ensures res != DiskErr ==> (res == Ok <==> old(dj.index) + 1 < |dj.Listed()|)
    ensures res == Ok ==> dj.Standing() && dj.index == old(dj.index) + 1
    ensures res != DiskErr ==> Windowed(dj.fs.g, old(dj.fs.winsect), dj.fs.winsect, dj.Table())
    ensures res != DiskErr && dj.fs.drive.reliable ==> Upkeep(dj.fs)
  {
    hide FatMap, Times, Sectors, TableOk, TableSectors, Stands, NoRepeat, Listing, FreeCount, Inside, Clusters, Fits, Windowed;
    hide FatFs.Mirrored, FatFs.Valid, FatFs.Shape, FatFs.Vol, FatFs.Fat;
    ghost var more := dj.HasNext();
    HasNextListed(dj);
    res := dj.Next(false);
  }

  /** The current entry in the window: is it the end mark, and is it the name's? */
  method Compare(dj: Dir) returns (res: FResult, end: bool, same: bool)
    requires dj.Rooted() && dj.Standing() && |dj.fn| == 12
    modifies dj.fs`winsect, dj.fs`wflag, dj.fs.win, dj.fs.drive
    ensures |dj.fs.drive.sectors| == old(|dj.fs.drive.sectors|)
    ensures res == Ok || res == DiskErr
    ensures dj.fs.drive.reliable ==> res == Ok
    ensures res == Ok ==> Loaded(dj) && dj.Rooted() && dj.Standing() && dj.index < |dj.Listed()|
    ensures res == Ok ==> dj.Listed() == old(dj.Listed()) && dj.fs.Vol() == old(dj.fs.Vol())
    ensures res == Ok ==> dj.fs.winsect in dj.Table()
    ensures res == Ok ==>
              end == (dj.Listed()[dj.index][0] == 0) && same == Matches(dj.Listed()[dj.index], NameOf(dj))
    ensures dj.fs.drive.reliable && old(dj.fs.Mirrored()) ==> dj.fs.Mirrored()
  {
    hide FatMap, Times, Sectors, TableOk, TableSectors, Stands, NoRepeat, Listing, Matches, Inside, Clusters, Fits;
    hide FatFs.Mirrored, FatFs.Valid, FatFs.Shape, FatFs.Vol, FatFs.Fat;
    end, same := false, false;
    res := Load(dj);
    if res == Ok {
      var e := EntryAt(dj.fs.win[..], dj.dir);
      end, same := e[0] == 0, Matches(e, dj.fn[..11]);
    }
  }

  /** dir_find: the object stops at the entry of its name, if the directory has one. */
  method Find(dj: Dir) returns (res: FResult)
    requires dj.Rooted() && |dj.fn| == 12
    modifies dj`index, dj`clust, dj`sect, dj`dir, dj`chain
    modifies dj.fs`winsect, dj.fs`wflag, dj.fs`fsiFlag, dj.fs`freeClust, dj.fs`lastClust, dj.fs.win, dj.fs.drive
    ensures |dj.fs.drive.sectors| == old(|dj.fs.drive.sectors|) && dj.chain == old(dj.chain)
    ensures res == Ok || res == NoFile || res == IntErr || res == DiskErr
    ensures dj.fs.drive.reliable ==> res != DiskErr
    ensures res != DiskErr ==> dj.Rooted() && dj.fs.Vol() == old(dj.fs.Vol()) && dj.Listed() == old(dj.Listed())
    ensures res == IntErr <==> dj.Table() == [] && res != DiskErr
    ensures res == Ok ==> Loaded(dj) && FindFrom(dj.Listed(), NameOf(dj), 0) == Some(dj.index as nat)
    ensures res == NoFile ==> FindFrom(dj.Listed(), NameOf(dj), 0) == None
    ensures res != DiskErr ==> Windowed(dj.fs.g, old(dj.fs.winsect), dj.fs.winsect, dj.Table())
    ensures res != DiskErr && dj.fs.drive.reliable ==> Upkeep(dj.fs)
  {
    hide FatMap, Times, Sectors, TableOk, TableSectors, Stands, NoRepeat, FindFrom, Listing, Matches;
    hide FreeCount, Inside, Clusters, Fits, Loaded, Dir.Standing;
    hide FatFs.Mirrored, FatFs.Valid, FatFs.Shape, FatFs.Vol, FatFs.Fat;
    ghost var es, n := dj.Listed(), NameOf(dj);
    res := dj.Seek(0);
    if res != Ok {
      return;
    }
    while true
      invariant |dj.fs.drive.sectors| == old(|dj.fs.drive.sectors|)
      invariant dj.Rooted() && dj.Standing() && dj.chain == old(dj.chain) && dj.fs.Vol() == old(dj.fs.Vol())
      invariant dj.Listed() == es
      invariant dj.index <= |es| && FindFrom(es, n, 0) == FindFrom(es, n, dj.index)
      invariant Windowed(dj.fs.g, old(dj.fs.winsect), dj.fs.winsect, dj.Table())
      invariant dj.fs.drive.reliable ==> Upkeep(dj.fs)
      decreases 0x1_0000 - dj.index
    {
      var end, same;
      res, end, same := Compare(dj);
      if res != Ok {
        return;
      }
      FindStep(es, n, dj.index);
      if end {
        return NoFile;
      }
      if same {
        return Ok;
      }
      res := Advance(dj);
      if res != Ok {
        return;
      }
    }
  }

  lemma HasNextListed(dj: Dir)
    requires dj.Rooted() && dj.Standing()
    ensures dj.HasNext() <==> dj.index + 1 < |dj.Listed()|
  {
    hide FatMap, Times, Sectors, TableOk, TableSectors, Stands;
    RowOf(dj.index + 1, |dj.Table()|);
  }

  lemma FindStep(es: seq<Entry>, n: Name, i: nat)
    requires i < |es|
    ensures es[i][0] == 0 ==> FindFrom(es, n, i) == None
    ensures es[i][0] != 0 && Matches(es[i], n) ==> FindFrom(es, n, i) == Some(i)
    ensures es[i][0] != 0 && !Matches(es[i], n) ==> FindFrom(es, n, i) == FindFrom(es, n, i + 1)
    ensures FindFrom(es, n, |es|) == None
  {
  }

  lemma SpliceName(x: seq<byte>, o: nat, fn: seq<byte>)
    requires o + 32 <= |x| && |fn| == 12
    ensures forall i :: 0 <= i < |x| ==> Splice(x, o, fn[0..11])[i] == if o <= i < o + 11 then fn[i - o] else x[i]
  {
  }

  lemma EntryMade(x: Sector, o: Slot, fn: seq<byte>)
    requires |fn| == 12
    requires forall i :: 0 <= i < 11 ==> x[o + i] == fn[i]
    requires x[o + 11] == 0 && x[o + 12] == NtFlags(fn[11])
    requires forall k :: o + 13 <= k < o + 32 ==> x[k] == 0
    ensures EntryAt(x, o) == NewEntry(fn)
  {
    var e, n := EntryAt(x, o), NewEntry(fn);
    forall i | 0 <= i < 32
      ensures e[i] == n[i]
    {
      assert e[i] == x[o + i];
    }
  }

  /** The stores of dir_register into the entry under the object. */
  method StoreEntry(win: array<byte>, o: Slot, fn: seq<byte>)
    requires win.Length == 512 && |fn| == 12
    modifies win
    ensures EntryAt(win[..], o) == NewEntry(fn)
    ensures forall i :: 0 <= i < 512 && !(o <= i < o + 32) ==> win[i] == old(win[i])
  {
    hide Splice;
    MemSet(win, o, 0, 32);
    ghost var cleared := win[..];
    MemCpy(win, o, fn, 0, 11);
    SpliceName(cleared, o, fn);
    ghost var named := win[..];
    win[o + DIR_NTRES] := NtFlags(fn[11]);
    assert win[..] == named[o + DIR_NTRES := NtFlags(fn[11])];
    EntryMade(win[..], o, fn);
  }

  /** A store into the sector of entry k, at that entry: one entry of the listing changes. */
  lemma EntryStored(g: Geometry, v: seq<Sector>, start: nat, cs: seq<nat>, ss: seq<nat>, k: nat, x: Sector)
    requires TableOk(g, v, start, cs) && Clusters(g, cs) && ss == TableSectors(g, cs)
    requires Inside(v, ss) && k < |Listing(v, ss)|
    requires forall i :: 0 <= i < 512 && !(SlotOf(k) <= i < SlotOf(k) + 32) ==> x[i] == v[ss[k / 16]][i]
    ensures var w := v[ss[k / 16] := x];
            && TableOk(g, w, start, cs) && FatMap(g, w) == FatMap(g, v) && Inside(w, ss)
            && Listing(w, ss) == Listing(v, ss)[k := EntryAt(x, SlotOf(k))]
            && OnlyIn(g, v, w, ss)
  {
    hide FatMap, Times, Sectors, TableSectors, Listing, SlotOf;
    TableFacts(g, v, start, cs);
    assert ss[k / 16] in ss;
    ListingStore(v, ss, k, x);
    FatMapAgree(g, v, v[ss[k / 16] := x]);
  }

  /** Chain and table are as they were, or exactly this chain was lengthened by the first free cluster. */
  ghost predicate Tabled(g: Geometry, v: seq<Sector>, cs: seq<nat>, v': seq<Sector>, cs': seq<nat>, grew: bool) {
    && Fits(g, v) && Fits(g, v')
    && if grew then ChainGrew(g, v, cs, v', cs') else cs' == cs && FatMap(g, v') == FatMap(g, v)
  }

  lemma TabledAgain(g: Geometry, v: seq<Sector>, cs: seq<nat>, v': seq<Sector>, cs': seq<nat>, v'': seq<Sector>, grew: bool)
    requires Tabled(g, v, cs, v', cs', grew) && Fits(g, v'') && FatMap(g, v'') == FatMap(g, v')
    ensures Tabled(g, v, cs, v'', cs', grew)
  {
    hide FatMap, Linked, FirstFree, Cut;
  }

  lemma TabledSame(g: Geometry, v: seq<Sector>, cs: seq<nat>, v': seq<Sector>)
    requires Fits(g, v) && Fits(g, v') && FatMap(g, v') == FatMap(g, v)
    ensures Tabled(g, v, cs, v', cs, false)
  {
    hide FatMap;
  }

  /** A chain grows only if there is one and a cluster is free. */
  lemma GrewTabled(g: Geometry, v: seq<Sector>, cs: seq<nat>, v': seq<Sector>, cs': seq<nat>)
    requires Fits(g, v) && Fits(g, v') && TableGrew(g, v, cs, v', cs')
    ensures cs != [] && !AllUsed(FatMap(g, v)) && Tabled(g, v, cs, v', cs', true)
  {
    hide FatMap, Linked, Cut;
  }

  /** What the search of dir_register makes of a directory: m blank entries more, in a chain that grew if there are any. */
  ghost predicate Grown(g: Geometry, v: seq<Sector>, cs: seq<nat>, es: seq<Entry>, v': seq<Sector>, cs': seq<nat>, m: nat) {
    && Clusters(g, cs') && Inside(v', TableSectors(g, cs')) && Listing(v', TableSectors(g, cs')) == Stretched(es, m)
    && Clusters(g, cs) && TableSectors(g, cs) <= TableSectors(g, cs')
    && OnlyIn(g, v, v', TableSectors(g, cs'))
    && Tabled(g, v, cs, v', cs', m > 0)
  }

  lemma GrownNothing(dj: Dir)
    requires dj.Rooted()
    ensures Grown(dj.fs.g, dj.fs.Vol(), dj.chain, dj.Listed(), dj.fs.Vol(), dj.chain, 0)
  {
    hide FatMap, Times, Sectors, TableOk, TableSectors, Listing, Stretched;
    StretchedNothing(dj.Listed());
    OnlyInSame(dj.fs.g, dj.fs.Vol(), dj.Table());
    VolFits(dj.fs);
    TabledSame(dj.fs.g, dj.fs.Vol(), dj.chain, dj.fs.Vol());
  }

  lemma WindowedOn(g: Geometry, w: nat, w1: nat, ss: seq<nat>, w2: nat, tt: seq<nat>)
    requires Windowed(g, w, w1, ss) && Windowed(g, w1, w2, tt) && ss <= tt
    ensures Windowed(g, w, w2, tt)
  {
    if w1 in ss {
      var j :| 0 <= j < |ss| && ss[j] == w1;
      assert tt[j] == w1;
    }
  }

  lemma GrownTable(g: Geometry, v: seq<Sector>, cs: seq<nat>, es: seq<Entry>, v': seq<Sector>, cs': seq<nat>, m: nat)
    requires Grown(g, v, cs, es, v', cs', m)
    ensures Clusters(g, cs) && Clusters(g, cs') && TableSectors(g, cs) <= TableSectors(g, cs')
  {
    hide TableSectors, Listing, Stretched, Tabled, OnlyIn;
  }

  lemma GrownFacts(dj: Dir, v: seq<Sector>, cs: seq<nat>, es: seq<Entry>, m: nat)
    requires dj.Rooted() && Grown(dj.fs.g, v, cs, es, dj.fs.Vol(), dj.chain, m)
    ensures dj.Listed() == Stretched(es, m)
    ensures OnlyIn(dj.fs.g, v, dj.fs.Vol(), dj.Table()) && Tabled(dj.fs.g, v, cs, dj.fs.Vol(), dj.chain, m > 0)
  {
    hide FatMap, Times, Sectors, TableOk, TableSectors, Listing, Stretched, Tabled, OnlyIn;
  }

  /** The table cannot be stretched: it is the static root, or as long as an index reaches. */
  ghost predicate Fixed(es: seq<Entry>, cs: seq<nat>) {
    cs == [] || |es| == MAX_ENTRIES
  }

  /** The search of dir_register for a blank entry; m entries are appended if there is none. */
  method FindBlank(dj: Dir) returns (res: FResult, ghost m: nat)
    requires dj.Rooted() && dj.fs.drive.reliable
    modifies dj`index, dj`clust, dj`sect, dj`dir, dj`chain
    modifies dj.fs`winsect, dj.fs`wflag, dj.fs`fsiFlag, dj.fs`freeClust, dj.fs`lastClust, dj.fs.win, dj.fs.drive
    ensures |dj.fs.drive.sectors| == old(|dj.fs.drive.sectors|) && dj.fs.Shape()
    ensures res == Ok || res == NoFile || res == Denied || res == IntErr
    ensures res == Ok ==> Loaded(dj) && FirstBlank(dj.Listed(), dj.index)
    ensures Judged(res, m, old(dj.Listed()), old(dj.chain), old(dj.fs.Fat()))
    ensures old(dj.Table()) == [] ==> res == IntErr
    ensures res == IntErr ==> old(dj.Table()) == [] || HasBadEntry(old(dj.fs.Fat()))
    ensures res != IntErr ==>
              dj.Rooted() && Windowed(dj.fs.g, old(dj.fs.winsect), dj.fs.winsect, dj.Table())
              && Grown(dj.fs.g, old(dj.fs.Vol()), old(dj.chain), old(dj.Listed()), dj.fs.Vol(), dj.chain, m)
    ensures Upkeep(dj.fs)
  {
    hide FatMap, Times, Sectors, TableOk, TableSectors, Stands, NoRepeat, Listing, FreeCount, AllUsed, HasBadEntry;
    hide Stretched, FirstBlank, NoBlank, Grown, Fixed, Inside, Clusters;
    hide FatFs.Mirrored, FatFs.Valid, FatFs.Shape, FatFs.Vol, FatFs.Fat;
    ghost var es, v, cs := dj.Listed(), dj.fs.Vol(), dj.chain;
    m := 0;
    GrownNothing(dj);
    res := dj.Seek(0);
    if res != Ok {
      return;
    }
    while true
      invariant |dj.fs.drive.sectors| == old(|dj.fs.drive.sectors|)
      invariant dj.Rooted() && dj.Standing() && SearchedTo(es, m, dj.index)
      invariant m == 0 ==> dj.fs.Vol() == v && dj.chain == cs && dj.Listed() == es && dj.fs.Fat() == old(dj.fs.Fat())
      invariant m > 0 ==> NoBlank(es) && !Fixed(es, cs) && !AllUsed(old(dj.fs.Fat()))
      invariant Grown(dj.fs.g, v, cs, es, dj.fs.Vol(), dj.chain, m)
      invariant Windowed(dj.fs.g, old(dj.fs.winsect), dj.fs.winsect, dj.Table())
      invariant Upkeep(dj.fs)
      decreases 0x1_0000 - dj.index
    {
      res := Load(dj);
      GrownFacts(dj, v, cs, es, m);
      SearchStep(es, m, dj.index);
      var c := dj.fs.win[dj.dir];
      if c == DELETED || c == 0 {
        BlankJudged(es, m, dj.index, cs, old(dj.fs.Fat()));
        return;
      }
      ghost var w1 := dj.fs.winsect;
      res, m := NextBlank(dj, es);
      if res != IntErr {
        GrownTable(dj.fs.g, v, cs, es, dj.fs.Vol(), dj.chain, m);
        WindowedOn(dj.fs.g, old(dj.fs.winsect), w1, TableSectors(dj.fs.g, cs), dj.fs.winsect, dj.Table());
      }
      if res != Ok {
        return;
      }
    }
  }

  /** When dir_register finds an entry, when it reports the table full, and when the volume. */
  ghost predicate Judged(res: FResult, m: nat, es: seq<Entry>, cs: seq<nat>, fat: seq<dword>) {
    && (res == NoFile ==> m == 0 && NoBlank(es) && Fixed(es, cs))
    && (res == Denied ==> m == 0 && NoBlank(es) && !Fixed(es, cs) && AllUsed(fat))
    && (res == Ok && m == 0 ==> !NoBlank(es))
    && (res == Ok && m > 0 ==> NoBlank(es) && !Fixed(es, cs) && !AllUsed(fat))
  }

  lemma BlankJudged(es: seq<Entry>, m: nat, i: nat, cs: seq<nat>, fat: seq<dword>)
    requires FirstBlank(Stretched(es, m), i) && (m > 0 ==> NoBlank(es) && !Fixed(es, cs) && !AllUsed(fat))
    ensures Judged(Ok, m, es, cs, fat)
  {
    hide AllUsed, Fixed;
  }

  /** The three outcomes exclude each other, so each has its exact condition. */
  lemma JudgedExactly(res: FResult, m: nat, es: seq<Entry>, cs: seq<nat>, fat: seq<dword>)
    requires Judged(res, m, es, cs, fat) && (res == Ok || res == NoFile || res == Denied)
    ensures res == NoFile || res == Denied ==> m == 0
    ensures res == NoFile <==> NoBlank(es) && Fixed(es, cs)
    ensures res == Denied <==> NoBlank(es) && !Fixed(es, cs) && AllUsed(fat)
    ensures res == Ok && m == 0 <==> !NoBlank(es)
    ensures res == Ok && m > 0 <==> NoBlank(es) && !Fixed(es, cs) && !AllUsed(fat)
  {
    hide NoBlank, Fixed, AllUsed;
  }

  /** On from an entry in use: to the next one, or to the first of a stretch. */
  method NextBlank(dj: Dir, ghost es: seq<Entry>) returns (res: FResult, ghost m: nat)
    requires dj.Rooted() && dj.Standing() && dj.fs.drive.reliable && dj.Listed() == es
    requires dj.index < |es| && SearchedTo(es, 0, dj.index + 1) && (dj.index + 1 == |es| ==> NoBlank(es))
    modifies dj`index, dj`clust, dj`sect, dj`dir, dj`chain
    modifies dj.fs`winsect, dj.fs`wflag, dj.fs`fsiFlag, dj.fs`freeClust, dj.fs`lastClust, dj.fs.win, dj.fs.drive
    ensures |dj.fs.drive.sectors| == old(|dj.fs.drive.sectors|) && dj.fs.Shape()
    ensures res == Ok || res == NoFile || res == Denied || res == IntErr
    ensures res == Ok ==> dj.Rooted() && dj.Standing() && SearchedTo(es, m, dj.index) && dj.index == old(dj.index) + 1
    ensures res == Ok && m == 0 ==>
              dj.fs.Vol() == old(dj.fs.Vol()) && dj.chain == old(dj.chain) && dj.fs.Fat() == old(dj.fs.Fat()) && dj.Listed() == es
    ensures res != Ok || m > 0 ==> Judged(res, m, es, old(dj.chain), old(dj.fs.Fat()))
    ensures res == IntErr ==> HasBadEntry(old(dj.fs.Fat()))
    ensures res != IntErr ==>
              dj.Rooted() && Windowed(dj.fs.g, old(dj.fs.winsect), dj.fs.winsect, dj.Table())
              && Grown(dj.fs.g, old(dj.fs.Vol()), old(dj.chain), es, dj.fs.Vol(), dj.chain, m)
    ensures Upkeep(dj.fs)
  {
    hide FatMap, Times, Sectors, TableOk, TableSectors, Stands, NoRepeat, Listing, FreeCount, OnlyIn, AllUsed, HasBadEntry;
    hide Stretched, FirstBlank, NoBlank, TableGrew, Grown;
    hide FatFs.Mirrored, FatFs.Valid, FatFs.Shape, FatFs.Vol, FatFs.Fat;
    ghost var v, cs := dj.fs.Vol(), dj.chain;
    m := 0;
    GrownNothing(dj);
    HasNextListed(dj);
    ghost var more := dj.HasNext();
    res := dj.Next(true);
    if res == Denied {
      DeniedKeeps(dj, v, cs);
    }
    if res == Ok && !more {
      m := StretchedListing(dj, v, cs);
      SearchedAll(es, m);
    }
  }

  /** A refused stretch leaves the directory alone. */
  lemma DeniedKeeps(dj: Dir, v: seq<Sector>, cs: seq<nat>)
    requires dj.Rooted() && dj.chain == cs && TableOk(dj.fs.g, v, StartCluster(dj.fs.g, dj.sclust), cs)
    requires SameOutsideFat(dj.fs.g, v, dj.fs.Vol()) && dj.fs.Fat() == FatMap(dj.fs.g, v)
    ensures Clusters(dj.fs.g, cs) && Inside(v, TableSectors(dj.fs.g, cs))
    ensures dj.Listed() == Listing(v, TableSectors(dj.fs.g, cs))
    ensures Grown(dj.fs.g, v, cs, dj.Listed(), dj.fs.Vol(), cs, 0)
  {
    hide FatMap, Times, Sectors, TableOk, TableSectors, Listing, Stretched;
    TableFacts(dj.fs.g, v, StartCluster(dj.fs.g, dj.sclust), cs);
    ListingAgree(v, dj.fs.Vol(), TableSectors(dj.fs.g, cs));
    StretchedNothing(dj.Listed());
    VolFits(dj.fs);
    TabledSame(dj.fs.g, v, cs, dj.fs.Vol());
  }

  lemma VolFits(fs: FatFs)
    requires fs.Shape()
    ensures Fits(fs.g, fs.Vol())
  {
  }

  /** No blank entry in front of index i; the table has been lengthened only when it had none at all. */
  ghost predicate SearchedTo(es: seq<Entry>, m: nat, i: nat) {
    && i <= |es| && (forall j :: 0 <= j < i ==> !Unused(es[j]))
    && (m > 0 ==> i == |es|)
  }

  lemma SearchStep(es: seq<Entry>, m: nat, i: nat)
    requires SearchedTo(es, m, i) && i < |Stretched(es, m)|
    ensures var e := Stretched(es, m)[i];
            && (Unused(e) ==> FirstBlank(Stretched(es, m), i) && (m > 0 ==> NoBlank(es)))
            && (!Unused(e) ==> m == 0 && i < |es|)
            && (!Unused(e) ==> SearchedTo(es, 0, i + 1))
            && (!Unused(e) && i + 1 == |es| ==> NoBlank(es))
  {
  }

  lemma SearchedAll(es: seq<Entry>, m: nat)
    ensures NoBlank(es) ==> SearchedTo(es, m, |es|)
  {
  }

  lemma OnlyTrans(g: Geometry, v: seq<Sector>, v1: seq<Sector>, v2: seq<Sector>, ss: seq<nat>)
    requires OnlyIn(g, v, v1, ss) && OnlyIn(g, v1, v2, ss)
    ensures OnlyIn(g, v, v2, ss)
  {
  }

  /** A grown table lists the old entries and blank ones. */
  lemma StretchedListing(dj: Dir, v: seq<Sector>, cs: seq<nat>) returns (m: nat)
    requires dj.Rooted() && TableOk(dj.fs.g, v, StartCluster(dj.fs.g, dj.sclust), cs)
    requires TableGrew(dj.fs.g, v, cs, dj.fs.Vol(), dj.chain)
    requires Clusters(dj.fs.g, cs) && 16 * |TableSectors(dj.fs.g, cs)| < MAX_ENTRIES
    ensures Inside(v, TableSectors(dj.fs.g, cs)) && m > 0 && cs != [] && !AllUsed(FatMap(dj.fs.g, v))
    ensures Grown(dj.fs.g, v, cs, Listing(v, TableSectors(dj.fs.g, cs)), dj.fs.Vol(), dj.chain, m)
  {
    GrownSectors(dj.fs.g, v, StartCluster(dj.fs.g, dj.sclust), cs, dj.fs.Vol(), dj.chain);
    hide FatMap, Times, Sectors, TableGrew, TableOk, Listing, AllUsed;
    m := ListingStretched(v, dj.fs.Vol(), TableSectors(dj.fs.g, cs), dj.Table());
    VolFits(dj.fs);
    GrewTabled(dj.fs.g, v, cs, dj.fs.Vol(), dj.chain);
  }

  lemma AppendSectors(g: Geometry, cs: seq<nat>, r: nat)
    requires Clusters(g, cs) && IsCluster(g, r)
    ensures Clusters(g, cs + [r])
    ensures Sectors(g, cs + [r]) == Sectors(g, cs) + Consecutive(First(g, r), g.csize)
  {
    assert (cs + [r])[..|cs|] == cs;
  }

  lemma GrownSectors(g: Geometry, v: seq<Sector>, start: nat, cs: seq<nat>, v': seq<Sector>, cs': seq<nat>)
    requires TableOk(g, v, start, cs) && TableOk(g, v', start, cs') && TableGrew(g, v, cs, v', cs')
    ensures Clusters(g, cs) && Clusters(g, cs')
    ensures var ss, tt := TableSectors(g, cs), TableSectors(g, cs');
            && Inside(v, ss) && Inside(v', tt) && ss <= tt && |ss| < |tt|
            && (forall j :: 0 <= j < |ss| ==> v'[ss[j]] == v[ss[j]])
            && (forall j :: |ss| <= j < |tt| ==> v'[tt[j]] == Words.Blank())
            && OnlyIn(g, v, v', tt)
  {
    hide FatMap, Times, FirstFree, Linked, Cut, TableOk;
    TableFacts(g, v, start, cs);
    TableFacts(g, v', start, cs');
    var r := cs'[|cs|];
    hide Sectors;
    AppendSectors(g, cs, r);
    GrownBytes(g, v, TableSectors(g, cs), v', r);
  }

  lemma GrownBytes(g: Geometry, v: seq<Sector>, ss: seq<nat>, v': seq<Sector>, r: nat)
    requires g.Valid() && IsCluster(g, r) && |v'| == |v| && Inside(v, ss)
    requires NoRepeat(ss + Consecutive(First(g, r), g.csize))
    requires forall s :: s in ss + Consecutive(First(g, r), g.csize) ==> s < |v| && !g.InFat(s)
    requires forall s :: 0 <= s < |v| && !g.InFat(s) ==>
                           v'[s] == if First(g, r) <= s < First(g, r) + g.csize then Words.Blank() else v[s]
    ensures var tt := ss + Consecutive(First(g, r), g.csize);
            && Inside(v', tt) && |ss| < |tt|
            && (forall j :: 0 <= j < |ss| ==> v'[ss[j]] == v[ss[j]])
            && (forall j :: |ss| <= j < |tt| ==> v'[tt[j]] == Words.Blank())
            && OnlyIn(g, v, v', tt)
  {
    hide Geometry.InFat, First, Geometry.Valid;
    var n := First(g, r);
    var tt := ss + Consecutive(n, g.csize);
    CsizePositive(g);
    assert forall j :: 0 <= j < |tt| ==> tt[j] in tt;
    forall j | 0 <= j < |ss|
      ensures v'[ss[j]] == v[ss[j]]
    {
      assert tt[j] == ss[j];
      InTail(ss, n, g.csize, ss[j]);
    }
    forall j | |ss| <= j < |tt|
      ensures v'[tt[j]] == Words.Blank()
    {
      assert tt[j] in tt;
    }
    forall s | 0 <= s < |v| && !g.InFat(s) && s !in tt
      ensures v'[s] == v[s]
    {
      InTail(ss, n, g.csize, s);
    }
  }

  lemma InTail(ss: seq<nat>, n: nat, c: nat, s: nat)
    ensures n <= s < n + c ==>
              s in ss + Consecutive(n, c) && (ss + Consecutive(n, c))[|ss| + (s - n)] == s
  {
    if n <= s < n + c {
      assert (ss + Consecutive(n, c))[|ss| + (s - n)] == s;
    }
  }

  /** The entry store of dir_register, and of dir_remove: the window holds the changed sector and is dirty. */
  lemma WindowEntry(dj: Dir, before: seq<Sector>, v: seq<Sector>, start: nat)
    requires TableOk(dj.fs.g, v, start, dj.chain) && start == StartCluster(dj.fs.g, dj.sclust)
    requires dj.Standing() && dj.index < MAX_ENTRIES
    requires dj.fs.Shape() && dj.fs.Hinted() && dj.fs.wflag && v == Volume(dj.fs.g, before) && |before| == |dj.fs.drive.sectors|
    requires dj.fs.winsect == dj.sect && dj.sect < |v|
    requires forall s :: 0 <= s < |before| && s != dj.sect ==> before[s] == dj.fs.drive.sectors[s]
    requires forall i :: 0 <= i < 512 && !(dj.dir <= i < dj.dir + 32) ==> dj.fs.win[i] == v[dj.sect][i]
    ensures Inside(v, dj.Table()) && dj.index < |Listing(v, dj.Table())|
    ensures dj.Rooted() && dj.fs.Fat() == FatMap(dj.fs.g, v)
    ensures dj.Listed() == Listing(v, dj.Table())[dj.index := EntryAt(dj.fs.win[..], dj.dir)]
    ensures OnlyIn(dj.fs.g, v, dj.fs.Vol(), dj.Table())
  {
    hide FatMap, Times, Sectors, TableOk, TableSectors, Listing, EntryAt, Volume, OnlyIn;
    hide FatFs.Shape, FatFs.Vol, FatFs.Fat;
    TableFacts(dj.fs.g, v, start, dj.chain);
    RowOf(dj.index, |dj.Table()|);
    dj.fs.WindowStored(before, v);
    EntryStored(dj.fs.g, v, start, dj.chain, dj.Table(), dj.index, dj.fs.win[..]);
    TableFacts(dj.fs.g, dj.fs.Vol(), start, dj.chain);
    ShapeValid(dj.fs);
  }

  lemma ShapeValid(fs: FatFs)
    requires fs.Shape() && fs.Hinted() && fs.wflag
    ensures fs.Valid()
  {
  }

  /**
    dir_register: the object's name gets the first unused entry, in a table stretched by a zeroed cluster
    of m entries if all are used. A full static root, and a table of 65536 entries, is reported as NoFile.
   */
  method Register(dj: Dir) returns (res: FResult, ghost m: nat)
    requires dj.Rooted() && dj.fs.drive.reliable && |dj.fn| == 12
    modifies dj`index, dj`clust, dj`sect, dj`dir, dj`chain
    modifies dj.fs`winsect, dj.fs`wflag, dj.fs`fsiFlag, dj.fs`freeClust, dj.fs`lastClust, dj.fs.win, dj.fs.drive
    ensures |dj.fs.drive.sectors| == old(|dj.fs.drive.sectors|) && dj.fs.Shape()
    ensures res == Ok || res == NoFile || res == Denied || res == IntErr
    ensures res == Ok ==> Loaded(dj) && Registered(old(dj.Listed()), m, dj.index, NewEntry(dj.fn), dj.Listed())
    ensures res == Ok && Proper(old(dj.Listed())) && Storable(NameOf(dj))
            && Lookup(old(dj.Listed()), NameOf(dj)) == None ==>
              Proper(dj.Listed()) && Adds(old(dj.Listed()), NewEntry(dj.fn), dj.Listed())
    ensures res == NoFile || res == Denied ==> dj.Rooted() && dj.Listed() == old(dj.Listed())
    ensures res != IntErr ==> (res == NoFile <==> NoBlank(old(dj.Listed())) && Fixed(old(dj.Listed()), old(dj.chain)))
    ensures res != IntErr ==>
              (res == Denied <==>
                NoBlank(old(dj.Listed())) && !Fixed(old(dj.Listed()), old(dj.chain)) && AllUsed(old(dj.fs.Fat())))
    ensures res == Ok ==> (m > 0 <==> NoBlank(old(dj.Listed())))
    ensures old(dj.Table()) == [] ==> res == IntErr
    ensures res == IntErr ==> old(dj.Table()) == [] || HasBadEntry(old(dj.fs.Fat()))
    ensures res != IntErr ==> dj.Rooted() && OnlyIn(dj.fs.g, old(dj.fs.Vol()), dj.fs.Vol(), dj.Table())
    ensures res != IntErr ==> Tabled(dj.fs.g, old(dj.fs.Vol()), old(dj.chain), dj.fs.Vol(), dj.chain, m > 0)
    ensures res != IntErr ==> Windowed(dj.fs.g, old(dj.fs.winsect), dj.fs.winsect, dj.Table())
    ensures Upkeep(dj.fs)
  {
    hide FatMap, Times, Sectors, TableOk, TableSectors, Stands, NoRepeat, Listing, FreeCount, OnlyIn, AllUsed, HasBadEntry;
    hide Stretched, FirstBlank, NoBlank, EntryAt, NewEntry, Proper, Adds, Lookup, Inside, Tabled, Fixed, Judged, Grown;
    hide FatFs.Mirrored, FatFs.Valid, FatFs.Shape, FatFs.Vol, FatFs.Fat;
    ghost var es, v, cs, fat := dj.Listed(), dj.fs.Vol(), dj.chain, dj.fs.Fat();
    res, m := FindBlank(dj);
    if res != IntErr {
      JudgedExactly(res, m, es, cs, fat);
      GrownFacts(dj, v, cs, es, m);
      StretchedNothing(es);
    }
    if res == Ok {
      res := Load(dj);
      ghost var v1 := dj.fs.Vol();
      StoreName(dj);
      OnlyTrans(dj.fs.g, v, v1, dj.fs.Vol(), dj.Table());
      TabledAgain(dj.fs.g, v, cs, v1, dj.chain, dj.fs.Vol(), m > 0);
      RegisteredAdds(es, m, dj.index, dj.fn, dj.Listed());
    }
  }

  lemma RegisteredAdds(es: seq<Entry>, m: nat, i: nat, fn: seq<byte>, fs: seq<Entry>)
    requires |fn| == 12 && Registered(es, m, i, NewEntry(fn), fs)
    ensures Proper(es) && Storable(fn[..11]) && Lookup(es, fn[..11]) == None ==>
              Proper(fs) && Adds(es, NewEntry(fn), fs)
  {
    hide Proper, Adds, Lookup, Registered;
    if Proper(es) && Storable(fn[..11]) && Lookup(es, fn[..11]) == None {
      RegisterAdds(es, m, i, NewEntry(fn), fs);
    }
  }

  /** The end of dir_register: the entry is written in the window. */
  method StoreName(dj: Dir)
    requires Loaded(dj) && |dj.fn| == 12
    modifies dj.fs`wflag, dj.fs.win
    ensures Loaded(dj) && dj.Listed() == old(dj.Listed())[dj.index := NewEntry(dj.fn)]
    ensures OnlyIn(dj.fs.g, old(dj.fs.Vol()), dj.fs.Vol(), dj.Table()) && FatMap(dj.fs.g, dj.fs.Vol()) == old(FatMap(dj.fs.g, dj.fs.Vol()))
    ensures Upkeep(dj.fs)
  {
    hide FatMap, Times, Sectors, TableOk, TableSectors, Stands, NoRepeat, Listing, FreeCount, OnlyIn, EntryAt, NewEntry;
    hide FatFs.Hinted, IsFsInfo, FatFs.Fat, Volume, Mirror.CopiesAgree, Fits, Clusters, Inside, Geometry.Live;
    ghost var before, v, dirty := dj.fs.Image(), dj.fs.Vol(), dj.fs.wflag;
    StandsLive(dj);
    LoadedSector(dj);
    StoreEntry(dj.fs.win, dj.dir, dj.fn);
    dj.fs.wflag := true;
    WindowEntry(dj, before, v, StartCluster(dj.fs.g, dj.sclust));
    DirtyMirrored(dj.fs, dirty);
  }

  /** The window of a loaded entry shows the logical sector. */
  lemma LoadedSector(dj: Dir)
    requires Loaded(dj)
    ensures dj.sect != 0 && dj.sect < |dj.fs.Vol()| && dj.fs.win[..] == dj.fs.Vol()[dj.sect]
  {
    StandsLive(dj);
  }

  lemma DirtyMirrored(fs: FatFs, wasDirty: bool)
    requires fs.Shape() && fs.wflag && !fs.g.InFat(fs.winsect)
    ensures Mirror.CopiesAgree(fs.g, fs.drive.sectors, if wasDirty then fs.winsect else 0) ==> fs.Mirrored()
  {
    hide Times, Mirror.CopiesAgree;
    Mirror.DirtyOutside(fs.g, fs.drive.sectors, fs.winsect);
  }

  /** dir_remove: the entry at the object's index is marked deleted. */
  method Remove(dj: Dir) returns (res: FResult)
    requires dj.Rooted()
    modifies dj`index, dj`clust, dj`sect, dj`dir, dj.fs`winsect, dj.fs`wflag, dj.fs.win, dj.fs.drive
    ensures |dj.fs.drive.sectors| == old(|dj.fs.drive.sectors|) && dj.fs.Shape() && dj.index == old(dj.index)
    ensures res == Ok || res == IntErr || res == DiskErr
    ensures dj.fs.drive.reliable ==> res != DiskErr
    ensures res == Ok ==> dj.index < |old(dj.Listed())| && Loaded(dj)
    ensures res == Ok ==> dj.Listed() == old(dj.Listed())[dj.index := Deleted(old(dj.Listed())[dj.index])]
    ensures res == Ok ==> forall n: Name {:trigger Drops(old(dj.Listed()), n, dj.Listed())} ::
                Proper(old(dj.Listed())) && Storable(n) && FindFrom(old(dj.Listed()), n, 0) == Some(dj.index as nat) ==>
                  Proper(dj.Listed()) && Drops(old(dj.Listed()), n, dj.Listed())
    ensures res == IntErr <==> res != DiskErr && dj.index / 16 >= |dj.Table()|
    ensures res == Ok ==> OnlyIn(dj.fs.g, old(dj.fs.Vol()), dj.fs.Vol(), dj.Table())
    ensures res == Ok ==> dj.fs.Fat() == old(dj.fs.Fat()) && Windowed(dj.fs.g, old(dj.fs.winsect), dj.fs.winsect, dj.Table())
    ensures res == Ok && dj.fs.drive.reliable ==> Upkeep(dj.fs)
  {
    hide FatMap, Times, Sectors, TableOk, TableSectors, Stands, NoRepeat, Listing, FreeCount, OnlyIn, EntryAt;
    hide Proper, Drops, FindFrom;
    hide FatFs.Mirrored, FatFs.Valid, FatFs.Shape, FatFs.Vol, FatFs.Fat;
    ghost var es := dj.Listed();
    res := dj.Seek(dj.index);
    if res == Ok {
      res := Load(dj);
      if res == Ok {
        MarkDeleted(dj);
        forall n: Name | Proper(es) && Storable(n) && FindFrom(es, n, 0) == Some(dj.index as nat)
          ensures Proper(dj.Listed()) && Drops(es, n, dj.Listed())
        {
          RemoveDrops(es, dj.index, n);
        }
      }
    }
  }

  /** The end of dir_remove: the deletion mark in the window. */
  method MarkDeleted(dj: Dir)
    requires Loaded(dj)
    modifies dj.fs`wflag, dj.fs.win
    ensures Loaded(dj) && dj.Listed() == old(dj.Listed())[dj.index := Deleted(old(dj.Listed())[dj.index])]
    ensures OnlyIn(dj.fs.g, old(dj.fs.Vol()), dj.fs.Vol(), dj.Table())
    ensures FatMap(dj.fs.g, dj.fs.Vol()) == old(FatMap(dj.fs.g, dj.fs.Vol()))
    ensures Upkeep(dj.fs)
  {
    hide FatMap, Times, Sectors, TableOk, TableSectors, Stands, NoRepeat, Listing, FreeCount, OnlyIn, EntryAt;
    hide FatFs.Hinted, IsFsInfo, FatFs.Fat, Volume, Mirror.CopiesAgree, Fits, Clusters, Inside, Geometry.Live;
    ghost var before, v, dirty := dj.fs.Image(), dj.fs.Vol(), dj.fs.wflag;
    StandsLive(dj);
    LoadedSector(dj);
    MarkEntry(dj.fs.win, dj.dir);
    dj.fs.wflag := true;
    WindowEntry(dj, before, v, StartCluster(dj.fs.g, dj.sclust));
    DirtyMirrored(dj.fs, dirty);
  }

  /** The deletion mark is the first byte of the entry at offset o. */
  method MarkEntry(win: array<byte>, o: Slot)
    requires win.Length == 512
    modifies win
    ensures EntryAt(win[..], o) == Deleted(old(EntryAt(win[..], o)))
    ensures forall i :: 0 <= i < 512 && !(o <= i < o + 32) ==> win[i] == old(win[i])
  {
    ghost var was: Sector := win[..];
    win[o] := DELETED;
    assert win[..] == was[o := DELETED];
    MarkedEntry(was, o);
  }

  lemma MarkedEntry(x: Sector, o: Slot)
    ensures EntryAt(x[o := DELETED], o) == Deleted(EntryAt(x, o))
  {
  }
}
