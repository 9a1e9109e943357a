/** f_sync: the file as the disk alone shows it, and the file as f_open reads it back. */
module FileSync {
  import opened Words
  import opened Layout
  import opened Codec
  import opened Disk
  import opened Chains
  import opened Entries
  import opened FileSystem
  import opened FileData
  import opened FileStates
  import opened FileSteps
  import opened FileGrow
  import opened Files
  import opened FileWrite

  /** Rewriting the file's directory sector changes neither its bytes nor its invariant. */
  lemma EntryKeeps(g: Geometry, v: seq<Sector>, winsect: nat, f: FileState, x: Sector, winsect': nat)
    requires Steady(g, v, winsect, f) && f.dirSect < |v|
    requires winsect' == f.dirSect || winsect' == 0 || winsect' == winsect
    ensures var w := v[f.dirSect := x];
            && Fits(g, w) && FatMap(g, w) == FatMap(g, v)
            && Steady(g, w, winsect', f)
            && Store(g, w, f) == Store(g, v, f)
  {
    hide FatMap, Times, Sectors, Buffered, Placed;
    var w := v[f.dirSect := x];
    ChainFacts(g, v, f);
    DirSector(g, v, winsect, f);
    FatMapAgree(g, v, w);
    BytesAgree(FileVol(v, f), FileVol(w, f), FileSectors(g, f));
    EntryBuffered(g, v, winsect, f, x);
    EntryPlaced(g, v, winsect, f, w, winsect');
  }

  lemma DirSector(g: Geometry, v: seq<Sector>, winsect: nat, f: FileState)
    requires Steady(g, v, winsect, f)
    ensures Clusters(g, f.chain)
    ensures f.dirSect < |v| && f.dirSect !in FileSectors(g, f) && g.Live(f.dirSect) && !g.InFat(f.dirSect)
    ensures f.dirty ==> f.dsect < |v| && f.dsect != f.dirSect
    ensures f.dsect != f.dirSect
  {
    hide FatMap, Times, Sectors;
    ChainFacts(g, v, f);
  }

  lemma EntryBuffered(g: Geometry, v: seq<Sector>, winsect: nat, f: FileState, x: Sector)
    requires Steady(g, v, winsect, f) && f.dirSect < |v|
    ensures Clusters(g, f.chain) && Buffered(g, v[f.dirSect := x], f)
  {
    hide FatMap, Times, Sectors;
    DirSector(g, v, winsect, f);
  }

  lemma EntryPlaced(g: Geometry, v: seq<Sector>, winsect: nat, f: FileState, w: seq<Sector>, winsect': nat)
    requires Steady(g, v, winsect, f)
    requires Fits(g, w) && |w| == |v| && FatMap(g, w) == FatMap(g, v)
    requires winsect' == f.dirSect || winsect' == 0 || winsect' == winsect
    ensures Clusters(g, f.chain) && Placed(g, w, winsect', f)
  {
    hide FatMap, Times, Sectors;
    ChainFacts(g, v, f);
  }

  // ----- the file as the disk shows it -----

  /** A clean file whose entry is up to date is, bytes included, what f_open makes of the volume. */
  lemma Reopens(g: Geometry, v: seq<Sector>, winsect: nat, f: FileState, o: Slot)
    requires Steady(g, v, winsect, f) && !f.dirty && f.dirSect < |v|
    requires StartOf(v[f.dirSect], o) == f.orgClust && SizeOf(v[f.dirSect], o) == f.fsize
    ensures Openable(g, v, f.dirSect, o, f.chain)
    ensures Content(g, v, Opened(v[f.dirSect], f.dirSect, o, f.chain)) == Content(g, v, f)
  {
    hide FatMap, Times, Sectors, StartOf, SizeOf;
    ChainFacts(g, v, f);
  }

  /** No other chain can be read from the start cluster an entry records. */
  lemma OpenedUnique(g: Geometry, v: seq<Sector>, dirSect: nat, o: Slot, cs: seq<nat>, ds: seq<nat>)
    requires Openable(g, v, dirSect, o, cs) && Openable(g, v, dirSect, o, ds)
    ensures cs == ds
  {
    hide FatMap, Times, StartOf, SizeOf, Sectors;
    if cs != [] && ds != [] {
      ChainUnique(FatMap(g, v), cs, ds);
    }
  }

  /** The entry update of f_sync: time stamps are a parameter. */
  method UpdateEntry(fp: File, tim: dword)
    requires fp.Shape() && fp.fs.winsect == fp.dirSect && fp.dirSect != 0
    modifies fp.fs`wflag, fp.fs.win
    ensures fp.fs.win[..] == Updated(old(fp.fs.win[..]), fp.dirOfs, fp.fsize, fp.orgClust, tim)
    ensures fp.fs.wflag && fp.fs.Shape() && (old(fp.fs.Valid()) ==> fp.fs.Valid())
    ensures old(fp.fs.Valid()) ==> fp.fs.Vol() == old(fp.fs.Vol())[fp.dirSect := fp.fs.win[..]]
    ensures old(fp.fs.Mirrored()) && fp.fs.g.FatEnd() <= fp.dirSect ==> fp.fs.Mirrored()
  {
    hide Updated;
    ghost var before, v := fp.fs.Image(), fp.fs.Vol();
    StoreEntry(fp.fs.win, fp.dirOfs, fp.fsize, fp.orgClust, tim);
    fp.fs.wflag := true;
    hide Times, Mirror.CopiesAgree;
    if fp.fs.Valid() {
      fp.fs.WindowStored(before, v);
    }
    if fp.fs.g.FatEnd() <= fp.dirSect {
      DataBase(fp.fs.g);
      Mirror.DirtyOutside(fp.fs.g, fp.fs.drive.sectors, fp.dirSect);
    }
  }

  /** The stores of f_sync into the entry at offset o of a sector buffer. */
  method StoreEntry(win: array<byte>, o: Slot, fsize: dword, clst: dword, tim: dword)
    requires win.Length == 512
    modifies win
    ensures win[..] == Updated(old(win[..]), o, fsize, clst, tim)
  {
    hide StWord, StDword, Archived;
    win[o + DIR_ATTR] := Archived(win[o + DIR_ATTR]);
    StDwordAt(win, o + DIR_FILE_SIZE, fsize);
    StWordAt(win, o + DIR_FST_CLUS_LO, clst % 0x1_0000);
    StWordAt(win, o + DIR_FST_CLUS_HI, clst / 0x1_0000);
    StDwordAt(win, o + DIR_WRT_TIME, tim);
  }

  /** The bytes of a directory sector are the same but for attribute, start, time and size in the entry at offset o. */
  ghost predicate SameOutsideEntry(x: Sector, y: Sector, o: Slot) {
    && (forall k :: 0 <= k < 512 && k != o + DIR_ATTR && !(o + DIR_FST_CLUS_HI <= k < o + 32) ==> y[k] == x[k])
    && (y[o + DIR_ATTR] == x[o + DIR_ATTR] || y[o + DIR_ATTR] == Archived(x[o + DIR_ATTR]))
  }

  /** The entry at offset o has the time stamp in bytes 22 to 25 and the archive bit set. */
  ghost predicate Stamped(x: Sector, o: Slot, tim: dword) {
    LdDword(x, o + 22) == tim && x[o + 11] as int / 0x20 % 2 == 1
  }

  /** Outside the given sectors the volumes differ in one directory entry at most, the table included. */
  ghost predicate OnlyEntry(v: seq<Sector>, w: seq<Sector>, ss: seq<nat>, dirSect: nat, o: Slot) {
    && |w| == |v| && dirSect < |v|
    && (forall s :: 0 <= s < |v| && s != dirSect && s !in ss ==> w[s] == v[s])
    && SameOutsideEntry(v[dirSect], w[dirSect], o)
  }

  lemma UpdatedOnly(s: Sector, o: Slot, fsize: dword, clst: dword, tim: dword)
    ensures SameOutsideEntry(s, Updated(s, o, fsize, clst, tim), o)
    ensures SizeOf(Updated(s, o, fsize, clst, tim), o) == fsize && StartOf(Updated(s, o, fsize, clst, tim), o) == clst
    ensures Stamped(Updated(s, o, fsize, clst, tim), o, tim)
  {
    hide Updated, SizeOf, StartOf, Archived, LdDword;
    ArchiveBit(s[o + DIR_ATTR]);
    UpdatedReads(s, o, fsize, clst, tim);
  }

  /** Write-back of the buffer, then the entry update: what the volume is afterwards. */
  lemma SyncedVolume(g: Geometry, v: seq<Sector>, winsect: nat, f: FileState, o: Slot, tim: dword, fsize: dword, clst: dword)
    requires Steady(g, v, winsect, f) && fsize == f.fsize && clst == f.orgClust
    requires f.dirSect < |v|
    ensures var v1 := FileVol(v, f);
            var v2 := v1[f.dirSect := Updated(v1[f.dirSect], o, fsize, clst, tim)];
            var h := f.(dirty := false);
            && Fits(g, v) && Fits(g, v2) && FatMap(g, v2) == FatMap(g, v)
            && Steady(g, v2, f.dirSect, h) && Steady(g, v2, 0, h) && Clusters(g, f.chain)
            && Store(g, v2, h) == Store(g, v, f)
            && Openable(g, v2, f.dirSect, o, f.chain)
            && Content(g, v2, Opened(v2[f.dirSect], f.dirSect, o, f.chain)) == Content(g, v, f)
            && Opened(v2[f.dirSect], f.dirSect, o, f.chain).fsize == fsize
            && Opened(v2[f.dirSect], f.dirSect, o, f.chain).orgClust == clst
            && OnlyEntry(v, v2, FileSectors(g, f), f.dirSect, o) && Noted(v2, h, o) && Stamped(v2[f.dirSect], o, tim)
            && (Exact(v, f) ==> Exact(v2, h))
  {
    hide FatMap, Times, Sectors, Steady, Store, Updated, Openable, Opened, StartOf, SizeOf, OnlyEntry, Stamped;
    var v1, h := FileVol(v, f), f.(dirty := false);
    DirSector(g, v, winsect, f);
    if f.dirty {
      FlushKeeps(g, v, winsect, f);
    } else {
      assert h == f;
      SteadyFacts(g, v, winsect, f);
    }
    var x := Updated(v1[f.dirSect], o, fsize, clst, tim);
    UpdatedOnly(v1[f.dirSect], o, fsize, clst, tim);
    EntryKeeps(g, v1, winsect, h, x, f.dirSect);
    EntryKeeps(g, v1, winsect, h, x, 0);
    Reopens(g, v1[f.dirSect := x], 0, h, o);
    OpenedEntry(x, f.dirSect, o, f.chain);
    FlushedOnly(g, v, winsect, f, x, o);
  }

  lemma OpenedEntry(x: Sector, dirSect: nat, o: Slot, cs: seq<nat>)
    ensures Opened(x, dirSect, o, cs).fsize == SizeOf(x, o) && Opened(x, dirSect, o, cs).orgClust == StartOf(x, o)
  {
  }

  lemma OnlyEntrySame(v: seq<Sector>, ss: seq<nat>, dirSect: nat, o: Slot)
    requires dirSect < |v|
    ensures OnlyEntry(v, v, ss, dirSect, o)
  {
  }

  lemma FlushedOnly(g: Geometry, v: seq<Sector>, winsect: nat, f: FileState, x: Sector, o: Slot)
    requires Steady(g, v, winsect, f) && f.dirSect < |v| && SameOutsideEntry(FileVol(v, f)[f.dirSect], x, o)
    ensures Clusters(g, f.chain)
    ensures OnlyEntry(v, FileVol(v, f)[f.dirSect := x], FileSectors(g, f), f.dirSect, o)
  {
    hide FatMap, Times, Sectors;
    DirSector(g, v, winsect, f);
  }

  /** f_sync on a file marked written. */
  method SyncWritten(fp: File, tim: dword) returns (res: FResult)
    requires fp.Valid() && fp.written
    modifies fp`dirty, fp`written
    modifies fp.fs`winsect, fp.fs`wflag, fp.fs`fsiFlag, fp.fs.win, fp.fs.drive
    ensures |fp.fs.drive.sectors| == old(|fp.fs.drive.sectors|)
    ensures res == Ok || res == DiskErr
    ensures fp.fs.drive.reliable ==> res == Ok
    ensures res == Ok ==> !fp.written && !fp.fs.wflag && fp.Valid() && fp.Data() == old(fp.Data())
    ensures res == Ok ==> fp.State() == old(fp.State()).(dirty := false) && Saved(fp, fp.fs.Vol(), old(fp.Data()))
    ensures res == Ok ==>
              fp.fs.Fat() == old(fp.fs.Fat()) && fp.dirSect < |fp.fs.Vol()|
              && OnlyEntry(old(fp.fs.Vol()), fp.fs.Vol(), FileSectors(fp.fs.g, fp.State()), fp.dirSect, fp.dirOfs)
    ensures res == Ok ==> fp.fs.CountOnDisk() && Stamped(fp.fs.Vol()[fp.dirSect], fp.dirOfs, tim)
    ensures res == Ok && old(fp.Tight()) ==> fp.Tight()
    ensures res == Ok ==> fp.fs.winsect in {0, fp.dirSect, old(fp.fs.winsect)}
    ensures fp.fs.drive.reliable && old(fp.fs.Mirrored()) ==> fp.fs.Shape() && fp.fs.Mirrored()
  {
    hide FatMap, Times, Steady, Store, Sectors, Chained, Positioned, Updated, OnlyEntry, FileVol, Openable, Opened, Noted, Stamped;
    hide FatFs.Mirrored, FatFs.Valid, FatFs.Shape, FatFs.Vol, FatFs.Fat, FatFs.CountOnDisk, Volume;
    ghost var g, v, w, f := fp.fs.g, fp.fs.Vol(), fp.fs.winsect, fp.State();
    DirSector(g, v, w, f);
    SyncedVolume(g, v, w, f, fp.dirOfs, tim, fp.fsize, fp.orgClust);
    PositionedSame(g, f, f.(dirty := false));
    res := fp.FlushBuffer();
    if res != Ok {
      return;
    }
    res := fp.fs.MoveWindow(fp.dirSect);
    if res == Ok {
      UpdateEntry(fp, tim);
      fp.written := false;
      res := fp.fs.Sync();
    }
  }

  /**
    f_sync. After a success the volume carries the file: its entry names the same size and start cluster,
    and f_open would find the same chain and the same bytes. If the file was written, or the window is
    clean anyway, the disk alone does, all caches discarded. An unwritten file is left alone: it was saved
    before. The time stamp is a parameter.
   */
  method SyncFile(fp: File, tim: dword) returns (res: FResult)
    requires fp.Valid()
    modifies fp`dirty, fp`written
    modifies fp.fs`winsect, fp.fs`wflag, fp.fs`fsiFlag, fp.fs.win, fp.fs.drive
    ensures |fp.fs.drive.sectors| == old(|fp.fs.drive.sectors|)
    ensures res == Ok || res == DiskErr
    ensures fp.fs.drive.reliable ==> res == Ok
    ensures !old(fp.written) ==> res == Ok && unchanged(fp, fp.fs, fp.fs.win, fp.fs.drive)
    ensures res == Ok ==> !fp.written && fp.Valid() && fp.Data() == old(fp.Data())
    ensures res == Ok ==> !fp.dirty && fp.State() == old(fp.State()).(dirty := false)
    ensures res == Ok ==> Saved(fp, fp.fs.Vol(), old(fp.Data()))
    ensures res == Ok && old(fp.written) ==> !fp.fs.wflag
    ensures res == Ok && old(fp.written) ==> fp.fs.CountOnDisk()
    ensures res == Ok && !fp.fs.wflag ==> Saved(fp, Volume(fp.fs.g, fp.fs.drive.sectors), old(fp.Data()))
    ensures res == Ok ==>
              fp.fs.Fat() == old(fp.fs.Fat()) && fp.dirSect < |fp.fs.Vol()|
              && OnlyEntry(old(fp.fs.Vol()), fp.fs.Vol(), FileSectors(fp.fs.g, fp.State()), fp.dirSect, fp.dirOfs)
    ensures res == Ok && old(fp.written) ==> Stamped(fp.fs.Vol()[fp.dirSect], fp.dirOfs, tim)
    ensures res == Ok && old(fp.Tight()) ==> fp.Tight()
    ensures res == Ok ==> fp.fs.winsect in {0, fp.dirSect, old(fp.fs.winsect)}
    ensures fp.fs.drive.reliable && old(fp.fs.Mirrored()) ==> fp.fs.Shape() && fp.fs.Mirrored()
  {
    hide FatMap, Times, Steady, Store, Sectors, Chained, Positioned, OnlyEntry, FileVol, Openable, Opened, Noted, Saved, Stamped;
    hide FatFs.Mirrored, FatFs.Valid, FatFs.Shape, FatFs.Vol, FatFs.Fat, FatFs.CountOnDisk, Volume;
    res := Ok;
    if fp.written {
      res := SyncWritten(fp, tim);
    } else {
      UnwrittenSaved(fp);
    }
    CleanDisk(fp.fs);
  }

  /** A file that is not marked written was saved before. */
  lemma UnwrittenSaved(fp: File)
    requires fp.Valid() && !fp.written
    ensures !fp.dirty && fp.State() == fp.State().(dirty := false) && Saved(fp, fp.fs.Vol(), fp.Data())
    ensures fp.dirSect < |fp.fs.Vol()|
    ensures OnlyEntry(fp.fs.Vol(), fp.fs.Vol(), FileSectors(fp.fs.g, fp.State()), fp.dirSect, fp.dirOfs)
  {
    hide FatMap, Times, Steady, Store, Sectors, Chained, Positioned, OnlyEntry, Openable, Opened, Noted;
    hide FatFs.Mirrored, FatFs.Valid, FatFs.Shape, FatFs.Vol, FatFs.Fat;
    ghost var g, v, w, f := fp.fs.g, fp.fs.Vol(), fp.fs.winsect, fp.State();
    DirSector(g, v, w, f);
    OnlyEntrySame(v, FileSectors(g, f), f.dirSect, fp.dirOfs);
    NotedReopens(g, v, w, f, fp.dirOfs);
    NotedClean(v, f, fp.dirOfs);
  }

  /** With a clean window the logical volume is the disk. */
  lemma CleanDisk(fs: FatFs)
    ensures fs.Shape() && !fs.wflag ==> fs.Vol() == Volume(fs.g, fs.drive.sectors)
  {
    hide Volume;
  }

  lemma NotedClean(v: seq<Sector>, f: FileState, o: Slot)
    requires Noted(v, f, o)
    ensures !f.dirty && f.(dirty := false) == f
  {
    hide StartOf, SizeOf;
  }

  lemma NotedReopens(g: Geometry, v: seq<Sector>, winsect: nat, f: FileState, o: Slot)
    requires Steady(g, v, winsect, f) && Noted(v, f, o)
    ensures Openable(g, v, f.dirSect, o, f.chain)
    ensures var h := Opened(v[f.dirSect], f.dirSect, o, f.chain);
            Chained(g, v, h) && h.fsize == f.fsize && h.orgClust == f.orgClust && Content(g, v, h) == Content(g, v, f)
  {
    hide Steady, StartOf, SizeOf, Content, FatMap, Sectors, Times, EntryAllocated;
    NotedClean(v, f, o);
    Reopens(g, v, winsect, f, o);
    OpenedEntry(v[f.dirSect], f.dirSect, o, f.chain);
  }

  /** Volume d alone shows the file: f_open finds its chain and the bytes data. */
  ghost predicate Saved(fp: File, d: seq<Sector>, data: seq<byte>)
    reads fp
  {
    && Openable(fp.fs.g, d, fp.dirSect, fp.dirOfs, fp.chain)
    && var h := Opened(d[fp.dirSect], fp.dirSect, fp.dirOfs, fp.chain);
    && h.fsize == fp.fsize && h.orgClust == fp.orgClust
    && Content(fp.fs.g, d, h) == data
  }
}
