/** Calls on open files and on the names of a directory, in any order. */
module MixedRuns {
  import opened Words
  import opened Layout
  import opened Codec
  import opened Disk
  import opened Chains
  import opened Entries
  import opened FileSystem
  import opened Allocation
  import opened FileData
  import opened FileStates
  import opened FileGrow
  import opened Files
  import opened FileWrite
  import opened FileSync
  import opened Isolation
  import opened FileRuns
  import opened OpenFiles
  import opened Listings
  import opened DirTables
  import opened Directories
  import opened DirOps
  import opened DirFiles

  /**
    A call: on an open file; dir_find of a name; dir_find and, if there is none, dir_register; dir_find and,
    if there is one, dir_remove. A name is the twelve bytes create_name makes of it.
   */
  datatype Deed = OnFile(who: nat, op: Op) | Ask(fn: seq<byte>) | Make(fn: seq<byte>) | Lose(fn: seq<byte>)

  datatype Answer = Served | Told(res: FResult)

  /** The arguments a call takes. */
  predicate Sound(d: Deed, buff: array<byte>) {
    match d
    case OnFile(_, op) => Fitting(op, buff)
    case _ => |d.fn| == 12 && Storable(d.fn[..11])
  }

  // ----- the directory as a set of names -----

  /** What a call does to the set of names, and what it answers. */
  ghost predicate NameStep(names: set<Name>, d: Deed, a: Answer, names': set<Name>) {
    match d
    case OnFile(_, _) => a == Served && names' == names
    case Ask(fn) => |fn| == 12 && names' == names && a == Told(if fn[..11] in names then Ok else NoFile)
    case Make(fn) =>
      |fn| == 12
      && if fn[..11] in names then a == Told(Ok) && names' == names
         else if a == Told(Ok) then names' == names + {fn[..11]}
         else (a == Told(NoFile) || a == Told(Denied)) && names' == names
    case Lose(fn) =>
      |fn| == 12
      && if fn[..11] in names then a == Told(Ok) && names' == names - {fn[..11]}
         else a == Told(NoFile) && names' == names
  }

  ghost predicate NameRun(trace: seq<set<Name>>, deeds: seq<Deed>, answers: seq<Answer>) {
    && |trace| == |deeds| + 1 && |answers| == |deeds|
    && forall i :: 0 <= i < |deeds| ==> NameStep(trace[i], deeds[i], answers[i], trace[i + 1])
  }

  lemma NameRunMore(trace: seq<set<Name>>, deeds: seq<Deed>, n: nat, answers: seq<Answer>, a: Answer, names: set<Name>)
    requires n < |deeds| && NameRun(trace, deeds[..n], answers) && NameStep(trace[n], deeds[n], a, names)
    ensures NameRun(trace + [names], deeds[..n + 1], answers + [a])
  {
    hide NameStep;
  }

  /** The requests made of files. */
  function Requests(deeds: seq<Deed>): (rs: seq<Request>) {
    if deeds == [] then []
    else
      var n := |deeds| - 1;
      Requests(deeds[..n]) + (if deeds[n].OnFile? then [Request(deeds[n].who, deeds[n].op)] else [])
  }

  lemma RequestsMore(deeds: seq<Deed>, n: nat)
    requires n < |deeds|
    ensures Requests(deeds[..n + 1])
            == Requests(deeds[..n]) + (if deeds[n].OnFile? then [Request(deeds[n].who, deeds[n].op)] else [])
  {
    assert deeds[..n + 1][..n] == deeds[..n];
  }

  // ----- the directory beside the files -----

  /** The directory that starts at sclust is a proper table of chain cs, and beside all files. */
  ghost predicate Near(fs: FatFs, sclust: dword, cs: seq<nat>, files: seq<File>)
    reads files, fs`winsect, fs`wflag, fs`fsiFlag, fs`lastClust, fs`freeClust, fs.win, fs.drive
  {
    && fs.Valid() && TableOk(fs.g, fs.Vol(), StartCluster(fs.g, sclust), cs) && Clusters(fs.g, cs)
    && TableSectors(fs.g, cs) != [] && Inside(fs.Vol(), TableSectors(fs.g, cs))
    && Proper(Listing(fs.Vol(), TableSectors(fs.g, cs)))
    && forall j :: 0 <= j < |files| ==>
        Disjoint(files[j].chain, cs)
        && Enrolled(TableSectors(fs.g, cs), Listing(fs.Vol(), TableSectors(fs.g, cs)), files[j].dirSect, files[j].dirOfs)
  }

  /** Its names. */
  ghost function NamesOf(fs: FatFs, sclust: dword, cs: seq<nat>, files: seq<File>): set<Name>
    requires Near(fs, sclust, cs, files)
    reads files, fs`winsect, fs`wflag, fs`fsiFlag, fs`lastClust, fs`freeClust, fs.win, fs.drive
  {
    Names(Listing(fs.Vol(), TableSectors(fs.g, cs)))
  }

  /** The entry found for the name is an open file's. */
  ghost predicate Busy(fs: FatFs, sclust: dword, cs: seq<nat>, files: seq<File>, n: Name)
    requires Near(fs, sclust, cs, files)
    reads files, fs`winsect, fs`wflag, fs`fsiFlag, fs`lastClust, fs`freeClust, fs.win, fs.drive
  {
    var ss, es := TableSectors(fs.g, cs), Listing(fs.Vol(), TableSectors(fs.g, cs));
    exists j, k: nat {:trigger IsEntry(ss, es, files[j].dirSect, files[j].dirOfs, k)} ::
      0 <= j < |files| && FindFrom(es, n, 0) == Some(k) && IsEntry(ss, es, files[j].dirSect, files[j].dirOfs, k)
  }

  lemma NearDir(dj: Dir, files: seq<File>)
    requires Near(dj.fs, dj.sclust, dj.chain, files)
    ensures dj.Rooted() && AllBeside(dj, files) && dj.Table() != [] && Proper(dj.Listed())
    ensures Names(dj.Listed()) == NamesOf(dj.fs, dj.sclust, dj.chain, files)
  {
    hide TableOk, TableSectors, Listing, Inside, Clusters, Enrolled, Proper, Names, FatFs.Valid, FatFs.Shape, FatFs.Vol;
  }

  lemma DirNear(dj: Dir, files: seq<File>)
    requires dj.Rooted() && AllBeside(dj, files) && dj.Table() != [] && Proper(dj.Listed())
    ensures Near(dj.fs, dj.sclust, dj.chain, files)
    ensures Names(dj.Listed()) == NamesOf(dj.fs, dj.sclust, dj.chain, files)
  {
    hide TableOk, TableSectors, Listing, Inside, Clusters, Enrolled, Proper, Names, FatFs.Valid, FatFs.Shape, FatFs.Vol;
  }

  lemma BusyDir(dj: Dir, files: seq<File>, n: Name)
    requires Near(dj.fs, dj.sclust, dj.chain, files) && dj.Rooted()
    ensures Busy(dj.fs, dj.sclust, dj.chain, files, n) <==>
              match FindFrom(dj.Listed(), n, 0)
              case None => false
              case Some(k) => exists j :: 0 <= j < |files| && !NotOpen(dj, files[j], k)
  {
    hide TableOk, TableSectors, Listing, Inside, Clusters, Enrolled, Proper, IsEntry, FindFrom, FatFs.Valid, FatFs.Shape, FatFs.Vol;
  }

  lemma LoadedInside(dj: Dir)
    requires Loaded(dj)
    ensures dj.Rooted() && dj.index / 16 < |dj.Table()|
  {
    hide TableOk, TableSectors, Listing, Inside, FatFs.Valid, FatFs.Shape, FatFs.Vol;
  }

  lemma FoundName(es: seq<Entry>, n: Name)
    requires Storable(n)
    ensures n in Names(es) <==> FindFrom(es, n, 0).Some?
    ensures FindFrom(es, n, 0) == None ==> Lookup(es, n) == None
  {
    FindMeans(es, n, 0);
  }

  // ----- calls on names -----

  method AskName(fs: FatFs, sclust: dword, ghost cs: seq<nat>, files: seq<File>, fn: seq<byte>, ghost faces: seq<Face>)
    returns (a: Answer)
    requires Session(fs, files) && Showing(files, faces) && Near(fs, sclust, cs, files)
    requires |fn| == 12 && Storable(fn[..11])
    modifies fs, fs.win, fs.drive
    ensures Session(fs, files) && Showing(files, faces) && Near(fs, sclust, cs, files) && Upkeep(fs)
    ensures forall j :: 0 <= j < |files| ==> (Usable(files[j]) <==> old(Usable(files[j])))
    ensures NameStep(old(NamesOf(fs, sclust, cs, files)), Ask(fn), a, NamesOf(fs, sclust, cs, files))
  {
    hide Session, Showing, Near, Usable, Names, NamesOf, AllBeside, TableSectors, Listing, FindFrom, Storable, Proper, Loaded;
    hide Dir.Rooted, FreeCount, FatFs.Mirrored, FatFs.Valid, FatFs.Shape, FatFs.Vol, FatFs.Fat;
    SessionShape(fs, files);
    var dj := new Dir(fs, sclust, fn, cs);
    NearDir(dj, files);
    FoundName(dj.Listed(), fn[..11]);
    var res := FindAmong(dj, files, faces);
    DirNear(dj, files);
    a := Told(res);
  }

  /** What f_open does to the directory when it may create: find the name, and register it if it is not there. */
  method MakeName(fs: FatFs, sclust: dword, ghost cs: seq<nat>, files: seq<File>, fn: seq<byte>, ghost faces: seq<Face>)
    returns (a: Answer, ghost cs': seq<nat>)
    requires Session(fs, files) && Showing(files, faces) && Near(fs, sclust, cs, files)
    requires |fn| == 12 && Storable(fn[..11])
    modifies fs, fs.win, fs.drive
    ensures Session(fs, files) && Showing(files, faces) && Near(fs, sclust, cs', files) && Upkeep(fs)
    ensures forall j :: 0 <= j < |files| ==> (Usable(files[j]) <==> old(Usable(files[j])))
    ensures NameStep(old(NamesOf(fs, sclust, cs, files)), Make(fn), a, NamesOf(fs, sclust, cs', files))
  {
    hide Session, Showing, Near, Usable, Names, NamesOf, AllBeside, TableSectors, Listing, FindFrom, Storable, Proper, Loaded;
    hide Registered, NewEntry, Adds, Lookup;
    hide Dir.Rooted, FreeCount, FatFs.Mirrored, FatFs.Valid, FatFs.Shape, FatFs.Vol, FatFs.Fat;
    SessionShape(fs, files);
    var dj := new Dir(fs, sclust, fn, cs);
    NearDir(dj, files);
    ghost var es := dj.Listed();
    FoundName(es, fn[..11]);
    var res := FindAmong(dj, files, faces);
    if res == NoFile {
      ghost var m;
      res, m := RegisterAmong(dj, files, faces);
      if res == Ok {
        NamesAdd(es, NewEntry(fn), dj.Listed());
      }
    }
    DirNear(dj, files);
    a, cs' := Told(res), dj.chain;
  }

  lemma EntryHere(dj: Dir, e: File)
    requires Loaded(dj)
    ensures dj.Rooted() && (NotOpen(dj, e, dj.index) <==> e.dirSect != dj.sect || e.dirOfs != dj.dir)
  {
    hide TableOk, TableSectors, Listing, Inside, FatFs.Valid, FatFs.Shape, FatFs.Vol;
  }

  /** Is the current entry that of one of the files? */
  method Taken(dj: Dir, files: seq<File>) returns (busy: bool)
    requires Loaded(dj)
    ensures busy <==> exists j :: 0 <= j < |files| && !NotOpen(dj, files[j], dj.index)
  {
    hide NotOpen, Loaded, Dir.Rooted, FatFs.Shape, FatFs.Hinted;
    LoadedInside(dj);
    busy := false;
    var i := 0;
    while i < |files|
      invariant 0 <= i <= |files|
      invariant busy <==> exists j :: 0 <= j < i && !NotOpen(dj, files[j], dj.index)
    {
      EntryHere(dj, files[i]);
      if files[i].dirSect == dj.sect && files[i].dirOfs == dj.dir {
        busy := true;
      }
      i := i + 1;
    }
  }

  /** dir_find, and whether the entry found is that of an open file. */
  method FindUnused(dj: Dir, files: seq<File>, ghost faces: seq<Face>) returns (res: FResult, busy: bool)
    requires Session(dj.fs, files) && Showing(files, faces) && Near(dj.fs, dj.sclust, dj.chain, files) && |dj.fn| == 12
    modifies dj, dj.fs, dj.fs.win, dj.fs.drive
    ensures Session(dj.fs, files) && Showing(files, faces) && Near(dj.fs, dj.sclust, dj.chain, files) && Upkeep(dj.fs)
    ensures forall j :: 0 <= j < |files| ==> (Usable(files[j]) <==> old(Usable(files[j])))
    ensures dj.chain == old(dj.chain) && dj.Rooted() && AllBeside(dj, files) && dj.Table() != [] && Proper(dj.Listed())
    ensures old(dj.Rooted()) && dj.Listed() == old(dj.Listed())
    ensures busy == Busy(dj.fs, dj.sclust, dj.chain, files, NameOf(dj)) == old(Busy(dj.fs, dj.sclust, dj.chain, files, NameOf(dj)))
    ensures res == Ok || res == NoFile
    ensures res == NoFile ==> !busy && FindFrom(dj.Listed(), NameOf(dj), 0) == None
    ensures res == Ok ==> FindFrom(dj.Listed(), NameOf(dj), 0) == Some(dj.index as nat) && dj.index / 16 < |dj.Table()|
    ensures res == Ok && !busy ==> forall j :: 0 <= j < |files| ==> NotOpen(dj, files[j], dj.index)
  {
    hide Session, Showing, Near, Usable, AllBeside, TableSectors, Listing, FindFrom, Storable, Proper, Loaded;
    hide Busy, IsEntry, Dir.Rooted, FreeCount, FatFs.Mirrored, FatFs.Valid, FatFs.Shape, FatFs.Vol, FatFs.Fat;
    NearDir(dj, files);
    BusyDir(dj, files, NameOf(dj));
    res := FindAmong(dj, files, faces);
    DirNear(dj, files);
    BusyDir(dj, files, NameOf(dj));
    busy := false;
    if res == Ok {
      LoadedInside(dj);
      busy := Taken(dj, files);
    }
  }

  /** What f_unlink does to the directory: find the name, and remove it unless an open file has the entry. */
  method LoseName(fs: FatFs, sclust: dword, ghost cs: seq<nat>, files: seq<File>, fn: seq<byte>, ghost faces: seq<Face>)
    returns (busy: bool, a: Answer)
    requires Session(fs, files) && Showing(files, faces) && Near(fs, sclust, cs, files)
    requires |fn| == 12 && Storable(fn[..11])
    modifies fs, fs.win, fs.drive
    ensures Session(fs, files) && Showing(files, faces) && Near(fs, sclust, cs, files) && Upkeep(fs)
    ensures forall j :: 0 <= j < |files| ==> (Usable(files[j]) <==> old(Usable(files[j])))
    ensures busy == old(Busy(fs, sclust, cs, files, fn[..11]))
    ensures if busy then NamesOf(fs, sclust, cs, files) == old(NamesOf(fs, sclust, cs, files)) && Busy(fs, sclust, cs, files, fn[..11])
            else NameStep(old(NamesOf(fs, sclust, cs, files)), Lose(fn), a, NamesOf(fs, sclust, cs, files))
  {
    hide Session, Showing, Near, Usable, Names, NamesOf, AllBeside, TableSectors, Listing, FindFrom, Storable, Proper;
    hide Deleted, Drops, Lookup, Busy, NotOpen;
    hide Dir.Rooted, FreeCount, FatFs.Mirrored, FatFs.Valid, FatFs.Shape, FatFs.Vol, FatFs.Fat;
    SessionShape(fs, files);
    var dj := new Dir(fs, sclust, fn, cs);
    NearDir(dj, files);
    ghost var es := dj.Listed();
    FoundName(es, fn[..11]);
    var res;
    res, busy := FindUnused(dj, files, faces);
    if res == Ok && !busy {
      RemoveDrops(es, dj.index, fn[..11]);
      res := RemoveAmong(dj, files, faces);
      NamesDrop(es, fn[..11], dj.Listed());
    }
    DirNear(dj, files);
    a := Told(res);
  }

  // ----- calls on files -----

  lemma FileKeepsNear(fs: FatFs, sclust: dword, cs: seq<nat>, files: seq<File>, i: nat, v: seq<Sector>, w: nat, f: FileState,
                      ss: seq<nat>, es: seq<Entry>)
    requires i < |files| && files[i].buf.Length == 512 && fs.Valid()
    requires TableOk(fs.g, v, StartCluster(fs.g, sclust), cs) && Clusters(fs.g, cs)
    requires ss == TableSectors(fs.g, cs) && ss != [] && Inside(v, ss) && es == Listing(v, ss) && Proper(es)
    requires forall j :: 0 <= j < |files| ==> (j != i ==> Disjoint(files[j].chain, cs))
    requires forall j :: 0 <= j < |files| ==> Enrolled(ss, es, files[j].dirSect, files[j].dirOfs)
    requires Disjoint(f.chain, cs) && f.dirSect == files[i].dirSect
    requires Touches(fs.g, v, w, f, fs.Vol(), fs.winsect, files[i].State(), files[i].dirOfs)
    ensures Near(fs, sclust, cs, files) && NamesOf(fs, sclust, cs, files) == Names(es)
  {
    hide TableOk, TableSectors, Listing, Inside, Clusters, Enrolled, Proper, Names, SameNames, Touches, Disjoint;
    hide FatFs.Valid, FatFs.Shape, FatFs.Vol;
    DirectoryKept(fs.g, v, w, f, fs.Vol(), fs.winsect, files[i].State(), files[i].dirOfs, StartCluster(fs.g, sclust), cs);
    var es' := Listing(fs.Vol(), ss);
    SameProper(es, es');
    NamesSame(es, es');
    forall j | 0 <= j < |files|
      ensures Enrolled(ss, es', files[j].dirSect, files[j].dirOfs)
    {
      NamesEnrolled(ss, es, es', files[j].dirSect, files[j].dirOfs);
    }
  }

  /** The state between two calls: of the files, and of the directory. */
  ghost predicate Stage(fs: FatFs, files: seq<File>, live: seq<bool>, firsts: seq<Face>, logs: seq<seq<Call>>, lasts: seq<Face>,
                        deeds: seq<Deed>)
    reads files, set i | 0 <= i < |files| :: files[i].buf
    reads set i | 0 <= i < |files| :: files[i].fs, set i | 0 <= i < |files| :: files[i].fs.win, set i | 0 <= i < |files| :: files[i].fs.drive
    reads fs`winsect, fs`wflag, fs`fsiFlag, fs`lastClust, fs`freeClust, fs.win, fs.drive
  {
    && Session(fs, files) && Showing(files, lasts) && Living(files, live) && Retired(files, live, logs)
    && Histories(Modes(files), firsts, logs, lasts, Requests(deeds))
  }

  /** A call on a file, recorded. It is not seen in the directory. */
  method ServeFile(fs: FatFs, sclust: dword, ghost cs: seq<nat>, files: seq<File>, live: seq<bool>, deeds: seq<Deed>, n: nat,
                   buff: array<byte>, ghost firsts: seq<Face>, ghost logs: seq<seq<Call>>, ghost lasts: seq<Face>)
    returns (now: seq<bool>, ghost logs': seq<seq<Call>>, ghost lasts': seq<Face>)
    requires n < |deeds| && deeds[n].OnFile? && Fitting(deeds[n].op, buff) && Separate(fs, files, buff)
    requires Stage(fs, files, live, firsts, logs, lasts, deeds[..n]) && Near(fs, sclust, cs, files)
    requires |live| == |files| && !Refused(files, live, Request(deeds[n].who, deeds[n].op))
    modifies files[deeds[n].who], files[deeds[n].who].buf, buff, fs, fs.win, fs.drive
    ensures Stage(fs, files, now, firsts, logs', lasts', deeds[..n + 1]) && fs.Shape() && Upkeep(fs)
    ensures Near(fs, sclust, cs, files) && NamesOf(fs, sclust, cs, files) == old(NamesOf(fs, sclust, cs, files))
  {
    hide Showing, Living, Retired, Histories, Proper, Names, TableOk, TableSectors, Listing, Inside, Clusters, Enrolled, Touches;
    hide Disjoint, FreeCount, Permitted, Fitting, Held, Neighbours, HasBadEntry;
    hide FatFs.Mirrored, FatFs.Valid, FatFs.Shape, FatFs.Vol, FatFs.Fat;
    RequestsMore(deeds, n);
    SessionShape(fs, files);
    var rs := Requests(deeds[..n]);
    var i := deeds[n].who;
    ghost var v, w, f, ss := fs.Vol(), fs.winsect, files[i].State(), TableSectors(fs.g, cs);
    ghost var es := Listing(v, ss);
    now, logs', lasts' := Serve(fs, files, live, rs + [Request(i, deeds[n].op)], |rs|, buff, firsts, logs, lasts);
    assert (rs + [Request(i, deeds[n].op)])[..|rs| + 1] == Requests(deeds[..n + 1]);
    SessionShape(fs, files);
    FileKeepsNear(fs, sclust, cs, files, i, v, w, f, ss, es);
  }

  // ----- runs -----

  /** Why a run ends early: a call the file does not take, or the removal of an open file's entry. */
  ghost predicate Stopped(fs: FatFs, sclust: dword, cs: seq<nat>, files: seq<File>, live: seq<bool>, d: Deed)
    requires Near(fs, sclust, cs, files) && |live| == |files|
    reads files, fs`winsect, fs`wflag, fs`fsiFlag, fs`lastClust, fs`freeClust, fs.win, fs.drive
  {
    match d
    case OnFile(who, op) => Refused(files, live, Request(who, op))
    case Lose(fn) => |fn| == 12 && Busy(fs, sclust, cs, files, fn[..11])
    case _ => false
  }

  /** A call on a name, recorded. */
  method ServeName(fs: FatFs, sclust: dword, ghost cs: seq<nat>, files: seq<File>, live: seq<bool>, deeds: seq<Deed>, n: nat,
                   buff: array<byte>, ghost firsts: seq<Face>, ghost logs: seq<seq<Call>>, ghost lasts: seq<Face>)
    returns (stop: bool, a: Answer, ghost cs': seq<nat>)
    requires n < |deeds| && !deeds[n].OnFile? && Sound(deeds[n], buff)
    requires Stage(fs, files, live, firsts, logs, lasts, deeds[..n]) && Near(fs, sclust, cs, files)
    modifies fs, fs.win, fs.drive
    ensures Session(fs, files) && fs.Shape() && Upkeep(fs)
    ensures Stage(fs, files, live, firsts, logs, lasts, deeds[..n]) && Stage(fs, files, live, firsts, logs, lasts, deeds[..n + 1])
    ensures Near(fs, sclust, cs', files) && |live| == |files|
    ensures if stop then Stopped(fs, sclust, cs', files, live, deeds[n])
                         && NamesOf(fs, sclust, cs', files) == old(NamesOf(fs, sclust, cs, files))
            else NameStep(old(NamesOf(fs, sclust, cs, files)), deeds[n], a, NamesOf(fs, sclust, cs', files))
  {
    hide Session, Showing, Retired, Histories, Near, Names, NamesOf, Usable, Storable, Busy, FreeCount;
    hide FatFs.Mirrored, FatFs.Valid, FatFs.Shape, FatFs.Vol, FatFs.Fat;
    RequestsMore(deeds, n);
    assert Requests(deeds[..n + 1]) == Requests(deeds[..n]);
    stop, cs' := false, cs;
    match deeds[n] {
      case Ask(fn) =>
        a := AskName(fs, sclust, cs, files, fn, lasts);
      case Make(fn) =>
        a, cs' := MakeName(fs, sclust, cs, files, fn, lasts);
      case Lose(fn) =>
        stop, a := LoseName(fs, sclust, cs, files, fn, lasts);
    }
    SessionShape(fs, files);
  }

  /**
    Any sequence of calls on open files and on the names of a directory beside them. Each file ends with what
    its own calls make of it, as in RunAll, and the directory is a set of names that the calls on names alone
    change, each as it should: a name is found if and only if it is in the set, a new one is added unless the
    table or the volume is full, and one that no open file has is removed.
   */
  method RunMixed(fs: FatFs, sclust: dword, ghost cs: seq<nat>, files: seq<File>, deeds: seq<Deed>, buff: array<byte>,
                  ghost firsts: seq<Face>)
    returns (done: nat, live: seq<bool>, answers: seq<Answer>, ghost cs': seq<nat>, ghost logs: seq<seq<Call>>,
             ghost lasts: seq<Face>, ghost trace: seq<set<Name>>)
    requires Separate(fs, files, buff) && Session(fs, files) && Showing(files, firsts) && Living(files, AllOf(files))
    requires Near(fs, sclust, cs, files)
    requires forall n :: 0 <= n < |deeds| ==> Sound(deeds[n], buff)
    modifies files, set i | 0 <= i < |files| :: files[i].buf
    modifies buff, fs, fs.win, fs.drive
    ensures Session(fs, files) && Upkeep(fs) && Near(fs, sclust, cs', files) && (!fs.fsiFlag ==> fs.CountOnDisk())
    ensures done <= |deeds| && Histories(Modes(files), firsts, logs, lasts, Requests(deeds[..done]))
    ensures Showing(files, lasts) && Living(files, live) && Retired(files, live, logs) && Wronged(files, live)
    ensures NameRun(trace, deeds[..done], answers)
    ensures trace[0] == old(NamesOf(fs, sclust, cs, files)) && trace[done] == NamesOf(fs, sclust, cs', files)
    ensures done < |deeds| ==> Stopped(fs, sclust, cs', files, live, deeds[done])
  {
    hide Session, Shows, Retired, Histories, Near, Names, NamesOf, Usable, Storable, Busy, FreeCount, Separate, Wronged;
    hide FatFs.Hinted, FatFs.CountOnDisk, NameStep, Fitting, Permitted, NameRun;
    hide FatFs.Mirrored, FatFs.Valid, FatFs.Shape, FatFs.Vol, FatFs.Fat;
    live := AllOf(files);
    logs, lasts, cs' := seq(|files|, _ => []), firsts, cs;
    HistoriesStart(Modes(files), firsts, logs);
    RunStarts(files, live, logs);
    SessionShape(fs, files);
    assert deeds[..0] == [];
    trace, answers, done := [NamesOf(fs, sclust, cs, files)], [], 0;
    NameRunNone(trace[0]);
    while done < |deeds|
      invariant Session(fs, files) && fs.Shape() && Upkeep(fs) && Near(fs, sclust, cs', files)
      invariant done <= |deeds| && |live| == |files|
      invariant Stage(fs, files, live, firsts, logs, lasts, deeds[..done])
      invariant NameRun(trace, deeds[..done], answers) && |trace| == done + 1
      invariant trace[0] == old(NamesOf(fs, sclust, cs, files)) && trace[done] == NamesOf(fs, sclust, cs', files)
    {
      var d := deeds[done];
      var a := Served;
      if d.OnFile? {
        if Refused(files, live, Request(d.who, d.op)) {
          break;
        }
        FileStep(trace[done], d);
        live, logs, lasts := ServeFile(fs, sclust, cs', files, live, deeds, done, buff, firsts, logs, lasts);
      } else {
        var stop;
        stop, a, cs' := ServeName(fs, sclust, cs', files, live, deeds, done, buff, firsts, logs, lasts);
        if stop {
          break;
        }
      }
      NameRunMore(trace, deeds, done, answers, a, NamesOf(fs, sclust, cs', files));
      trace, answers := trace + [NamesOf(fs, sclust, cs', files)], answers + [a];
      done := done + 1;
    }
    WhatIsWrong(fs, files, live);
    SessionHints(fs, files);
  }

  lemma FileStep(names: set<Name>, d: Deed)
    requires d.OnFile?
    ensures NameStep(names, d, Served, names)
  {
  }

  lemma NameRunNone(names: set<Name>)
    ensures NameRun([names], [], [])
  {
  }
}
