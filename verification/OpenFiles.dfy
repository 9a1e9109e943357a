/** Several file objects open on one volume: every interleaving of calls is, file by file, a run of byte arrays. */
module OpenFiles {
  import opened Words
  import opened Codec
  import opened Layout
  import opened Disk
  import opened Chains
  import opened Entries
  import opened FileSystem
  import opened Allocation
  import opened FileData
  import opened FileStates
  import opened FileGrow
  import opened Files
  import opened FileWrite
  import opened FileSync
  import opened FileTruncate
  import opened Isolation
  import opened FileRuns

  /** A call on file number who. */
  datatype Request = Request(who: nat, op: Op)

  /** A file from outside: what it shows its user, and the bytes of its directory entry. */
  datatype Face = Face(view: ByteFile, entry: seq<byte>)

  /** Distinct objects on one FATFS object, apart from the caller's buffer. */
  ghost predicate Separate(fs: FatFs, files: seq<File>, buff: array<byte>) {
    && (forall i :: 0 <= i < |files| ==>
      files[i].fs == fs && Foreign(files[i], buff) && files[i].buf != fs.win && files[i].buf.Length == 512)
    && (forall i, j :: 0 <= i < |files| && 0 <= j < |files| && i != j ==>
      files[i] != files[j] && files[i].buf != files[j].buf)
  }

  /** No common cluster and no common directory entry. */
  ghost predicate Neighbours(e: File, f: File)
    reads e, e.buf, f, f.buf
  {
    && e.fs == f.fs && e.buf.Length == 512 && f.buf.Length == 512
    && Apart(e.fs.g, e.State(), f.State()) && OwnEntry(e.State(), e.dirOfs, f.State(), f.dirOfs)
  }

  /** All files share nothing, out of use or not. */
  ghost predicate Session(fs: FatFs, files: seq<File>)
    reads files, set i | 0 <= i < |files| :: files[i].buf
    reads fs`winsect, fs`wflag, fs`fsiFlag, fs`lastClust, fs`freeClust, fs.win, fs.drive
  {
    && fs.Valid() && fs.drive.reliable && !HasBadEntry(fs.Fat())
    && (forall i :: 0 <= i < |files| ==> files[i].fs == fs && files[i].buf.Length == 512)
    && (forall i :: 0 <= i < |files| ==> Held(files[i]))
    && (forall i, j :: 0 <= i < |files| && 0 <= j < |files| && i != j ==> Neighbours(files[i], files[j]))
  }

  ghost predicate Shows(e: File, x: Face)
    reads e, e.buf, e.fs`winsect, e.fs`wflag, e.fs.win, e.fs.drive
  {
    && e.Shape() && Chained(e.fs.g, e.fs.Vol(), e.State()) && e.dirSect < |e.fs.Vol()|
    && x.view == View(e)
    && x.entry == EntryBytes(e.fs.Vol(), e.State(), e.dirOfs)
  }

  // ----- one call -----

  /** Another file, in state h all along, stays apart, shows the same bytes, and keeps its buffer as good as it was and its entry. */
  lemma Bystander(g: Geometry, v: seq<Sector>, winsect: nat, f: FileState, v': seq<Sector>, winsect': nat, f': FileState, o: Slot,
                  h: FileState, p: Slot)
    requires Framed(g, v, winsect, h) && Apart(g, h, f) && OwnEntry(h, p, f, o)
    requires Touches(g, v, winsect, f, v', winsect', f', o)
    ensures Framed(g, v', winsect', h) && (FileOk(g, v', winsect', h) <==> FileOk(g, v, winsect, h))
    ensures Chained(g, v, h) && Chained(g, v', h) && Content(g, v', h) == Content(g, v, h)
    ensures Apart(g, h, f') && Apart(g, f', h) && OwnEntry(h, p, f', o) && OwnEntry(f', o, h, p)
    ensures h.dirSect < |v| == |v'| && EntryBytes(v', h, p) == EntryBytes(v, h, p)
    ensures Noted(v, h, p) ==> Noted(v', h, p)
  {
    hide FatMap, Times, Sectors, Steady, Positioned, OwnClusters, Store, Chained, FileData.Clusters, Noted, FileOk, Framed;
    TouchesLength(g, v, winsect, f, v', winsect', f', o);
    hide Apart, OwnSectors;
    OtherKept(g, v, winsect, h, f, v', winsect', f', o);
    FramedHoused(g, v, winsect, h);
    EntryKept(g, v, winsect, h, p, f, v', f', o);
    NotedStays(v, v', h, p);
  }

  lemma TouchesLength(g: Geometry, v: seq<Sector>, winsect: nat, f: FileState, v': seq<Sector>, winsect': nat, f': FileState, o: Slot)
    requires Touches(g, v, winsect, f, v', winsect', f', o)
    ensures |v'| == |v| && f'.dirSect == f.dirSect && OwnSectors(g, v, v', f, f', o)
  {
    hide OwnClusters, Sectors;
  }

  // ----- histories -----

  /** The operations requested of file i, in order. */
  function Mine(requests: seq<Request>, i: nat): (ops: seq<Op>)
    ensures |ops| <= |requests|
  {
    if requests == [] then []
    else
      var n := |requests| - 1;
      Mine(requests[..n], i) + (if requests[n].who == i then [requests[n].op] else [])
  }

  lemma MineMore(requests: seq<Request>, n: nat, i: nat)
    requires n < |requests|
    ensures Mine(requests[..n + 1], i) == Mine(requests[..n], i) + (if requests[n].who == i then [requests[n].op] else [])
  {
    assert requests[..n + 1][..n] == requests[..n];
  }

  /** None of the calls was an f_sync. */
  predicate NoSync(calls: seq<Call>) {
    forall k :: 0 <= k < |calls| ==> !calls[k].op.SyncOp?
  }

  lemma NoSyncMore(calls: seq<Call>, c: Call)
    ensures NoSync(calls + [c]) <==> NoSync(calls) && !c.op.SyncOp?
  {
    if NoSync(calls + [c]) {
      assert forall k :: 0 <= k < |calls| ==> calls[k] == (calls + [c])[k];
      assert (calls + [c])[|calls|] == c;
    }
  }

  /** A file went from one face to another by the given calls; the entry changes by f_sync only. */
  ghost predicate Lived(canWrite: bool, first: Face, calls: seq<Call>, last: Face) {
    History(canWrite, first.view, calls, last.view) && (NoSync(calls) ==> last.entry == first.entry)
  }

  lemma LivedMore(canWrite: bool, first: Face, calls: seq<Call>, last: Face, c: Call, y: Face)
    requires Lived(canWrite, first, calls, last)
    requires ByteStep(canWrite, last.view, c, y.view) && (!c.op.SyncOp? ==> y.entry == last.entry)
    ensures Lived(canWrite, first, calls + [c], y)
  {
    hide ByteStep, History, NoSync;
    HistoryMore(canWrite, first.view, calls, last.view, c, y.view);
    NoSyncMore(calls, c);
  }

  /** Every file went from its first face to its last by exactly the requests made of it. */
  ghost predicate Histories(modes: seq<bool>, firsts: seq<Face>, logs: seq<seq<Call>>, lasts: seq<Face>, requests: seq<Request>) {
    && |modes| == |firsts| == |logs| == |lasts|
    && forall i :: 0 <= i < |logs| ==> Lived(modes[i], firsts[i], logs[i], lasts[i]) && OpsOf(logs[i]) == Mine(requests, i)
  }

  lemma HistoriesStart(modes: seq<bool>, firsts: seq<Face>, logs: seq<seq<Call>>)
    requires |modes| == |firsts| == |logs| && forall i :: 0 <= i < |logs| ==> logs[i] == []
    ensures Histories(modes, firsts, logs, firsts, [])
  {
    hide History;
    forall i | 0 <= i < |logs|
      ensures Lived(modes[i], firsts[i], logs[i], firsts[i])
    {
      HistoryStart(modes[i], firsts[i].view);
    }
  }

  lemma HistoriesMore(modes: seq<bool>, firsts: seq<Face>, logs: seq<seq<Call>>, lasts: seq<Face>,
                      requests: seq<Request>, n: nat, i: nat, c: Call, y: Face)
    requires n < |requests| && Histories(modes, firsts, logs, lasts, requests[..n])
    requires requests[n] == Request(i, c.op) && i < |logs| && ByteStep(modes[i], lasts[i].view, c, y.view)
    requires !c.op.SyncOp? ==> y.entry == lasts[i].entry
    ensures Histories(modes, firsts, logs[i := logs[i] + [c]], lasts[i := y], requests[..n + 1])
  {
    hide Lived, ByteStep, OpsOf, Mine;
    LivedMore(modes[i], firsts[i], logs[i], lasts[i], c, y);
    OpsMore(logs[i], c);
    var logs' := logs[i := logs[i] + [c]];
    forall k | 0 <= k < |logs|
      ensures OpsOf(logs'[k]) == Mine(requests[..n + 1], k)
    {
      MineMore(requests, n, k);
    }
  }

  /** The entry of the file that was called is where it was. */
  lemma ActEntry(g: Geometry, v: seq<Sector>, winsect: nat, f: FileState, v': seq<Sector>, winsect': nat, f': FileState, o: Slot)
    requires Touches(g, v, winsect, f, v', winsect', f', o)
    ensures f.dirSect < |v| == |v'| && f'.dirSect == f.dirSect
    ensures v'[f.dirSect] == v[f.dirSect] ==> EntryBytes(v', f', o) == EntryBytes(v, f, o)
  {
    hide OwnClusters, Sectors;
  }

  /** All files show what is recorded last. */
  ghost predicate Showing(files: seq<File>, lasts: seq<Face>)
    reads files, set i | 0 <= i < |files| :: files[i].buf
    reads set i | 0 <= i < |files| :: files[i].fs, set i | 0 <= i < |files| :: files[i].fs.win, set i | 0 <= i < |files| :: files[i].fs.drive
  {
    |files| == |lasts| && forall i :: 0 <= i < |files| ==> Shows(files[i], lasts[i])
  }

  /** What a file was on volume v before a call on something else. */
  ghost predicate FileWas(e: File, v: seq<Sector>, w: nat, x: Face)
    reads e, e.buf
  {
    && e.buf.Length == 512 && e.buf != e.fs.win && !e.failed
    && Framed(e.fs.g, v, w, e.State()) && (e.written || Noted(v, e.State(), e.dirOfs))
    && Chained(e.fs.g, v, e.State()) && e.dirSect < |v|
    && x.view == ByteFile(Content(e.fs.g, v, e.State()), e.fptr)
    && x.entry == EntryBytes(v, e.State(), e.dirOfs)
  }

  lemma WasHeld(e: File, x: Face)
    requires Held(e) && Shows(e, x)
    ensures FileWas(e, e.fs.Vol(), e.fs.winsect, x) && e.buf != e.fs.win
    ensures Usable(e) <==> FileOk(e.fs.g, e.fs.Vol(), e.fs.winsect, e.State())
  {
    hide Usable, Framed, FileOk, Content, Chained, Noted, Stranded, Misled, HasBadEntry, EntryBytes;
    hide FatFs.Valid, FatFs.Shape, FatFs.Vol, FatFs.Fat;
    HeldUsable(e);
  }

  /** And what it is afterwards, if by value it is still the same. */
  lemma StillHeld(e: File, v: seq<Sector>, w: nat, x: Face)
    requires FileWas(e, v, w, x) && e.fs.Valid() && e.fs.drive.reliable && !HasBadEntry(e.fs.Fat())
    requires Framed(e.fs.g, e.fs.Vol(), e.fs.winsect, e.State()) && Chained(e.fs.g, e.fs.Vol(), e.State())
    requires FileOk(e.fs.g, e.fs.Vol(), e.fs.winsect, e.State()) <==> FileOk(e.fs.g, v, w, e.State())
    requires Content(e.fs.g, e.fs.Vol(), e.State()) == Content(e.fs.g, v, e.State())
    requires |e.fs.Vol()| == |v| && EntryBytes(e.fs.Vol(), e.State(), e.dirOfs) == EntryBytes(v, e.State(), e.dirOfs)
    requires Noted(v, e.State(), e.dirOfs) ==> Noted(e.fs.Vol(), e.State(), e.dirOfs)
    ensures Held(e) && Shows(e, x) && (Usable(e) <==> FileOk(e.fs.g, v, w, e.State()))
  {
    hide Usable, Framed, FileOk, Content, Chained, Noted, Stranded, Misled, HasBadEntry, EntryBytes;
    hide FatFs.Vol, FatFs.Fat;
    HeldUsable(e);
  }

  /** A file that was not called, after a call on another one that was in state f. */
  lemma Unseen(e: File, fp: File, v: seq<Sector>, w: nat, f: FileState, x: Face)
    requires e.fs == fp.fs && FileWas(e, v, w, x) && fp.buf.Length == 512
    requires Apart(e.fs.g, e.State(), f) && OwnEntry(e.State(), e.dirOfs, f, fp.dirOfs)
    requires e.fs.Valid() && e.fs.drive.reliable && !HasBadEntry(e.fs.Fat())
    requires Touches(e.fs.g, v, w, f, e.fs.Vol(), e.fs.winsect, fp.State(), fp.dirOfs)
    ensures Held(e) && Shows(e, x) && (Usable(e) <==> FileOk(e.fs.g, v, w, e.State()))
    ensures Neighbours(e, fp) && Neighbours(fp, e)
  {
    hide Held, Shows, Usable, Framed, FileOk, Touches, Apart, OwnEntry, HasBadEntry, EntryBytes, Content, Chained, Noted;
    hide FatFs.Valid, FatFs.Shape, FatFs.Vol, FatFs.Fat, FileData.Clusters;
    Bystander(e.fs.g, v, w, f, e.fs.Vol(), e.fs.winsect, fp.State(), fp.dirOfs, e.State(), e.dirOfs);
    StillHeld(e, v, w, x);
  }

  /** It shares nothing with the file that is called, in state f before. */
  ghost predicate KeptApart(e: File, f: FileState, o: Slot)
    requires e.buf.Length == 512
    reads e, e.buf
  {
    Apart(e.fs.g, e.State(), f) && OwnEntry(e.State(), e.dirOfs, f, o)
  }

  /** All files but number i were what the faces show, and shared nothing with it. */
  ghost predicate OthersWere(files: seq<File>, i: nat, v: seq<Sector>, w: nat, f: FileState, o: Slot, faces: seq<Face>)
    reads files, set j | 0 <= j < |files| :: files[j].buf
  {
    |faces| == |files| && forall j :: 0 <= j < |files| && j != i ==> FileWas(files[j], v, w, faces[j]) && KeptApart(files[j], f, o)
  }

  lemma OthersNow(fs: FatFs, files: seq<File>, i: nat, v: seq<Sector>, w: nat, f: FileState, faces: seq<Face>)
    requires i < |files| && OthersWere(files, i, v, w, f, files[i].dirOfs, faces) && Held(files[i])
    requires forall j :: 0 <= j < |files| ==> files[j].fs == fs
    requires Touches(fs.g, v, w, f, fs.Vol(), fs.winsect, files[i].State(), files[i].dirOfs)
    ensures forall j :: 0 <= j < |files| && j != i ==>
              && Held(files[j]) && Shows(files[j], faces[j])
              && Neighbours(files[j], files[i]) && Neighbours(files[i], files[j])
              && (Usable(files[j]) <==> FileOk(fs.g, v, w, files[j].State()))
  {
    HeldShape(files[i]);
    hide Held, Shows, Usable, FileWas, FileOk, Touches, Neighbours, Apart, OwnEntry, HasBadEntry;
    hide FatFs.Valid, FatFs.Shape, FatFs.Vol, FatFs.Fat;
    forall j | 0 <= j < |files| && j != i
      ensures Held(files[j]) && Shows(files[j], faces[j])
      ensures Neighbours(files[j], files[i]) && Neighbours(files[i], files[j])
      ensures Usable(files[j]) <==> FileOk(fs.g, v, w, files[j].State())
    {
      Unseen(files[j], files[i], v, w, f, faces[j]);
    }
  }

  lemma OthersBefore(fs: FatFs, files: seq<File>, i: nat, faces: seq<Face>)
    requires Session(fs, files) && Showing(files, faces) && i < |files|
    ensures fs.Shape() && OthersWere(files, i, fs.Vol(), fs.winsect, files[i].State(), files[i].dirOfs, faces)
    ensures forall j :: 0 <= j < |files| ==>
              (Usable(files[j]) <==> FileOk(fs.g, fs.Vol(), fs.winsect, files[j].State())) && files[j].buf != fs.win
  {
    hide Held, Shows, Usable, FileWas, FileOk, Apart, OwnEntry, HasBadEntry, FatFs.Valid, FatFs.Shape, FatFs.Vol, FatFs.Fat;
    HeldShape(files[i]);
    forall j | 0 <= j < |files|
      ensures FileWas(files[j], fs.Vol(), fs.winsect, faces[j]) && files[j].buf != fs.win
      ensures Usable(files[j]) <==> FileOk(fs.g, fs.Vol(), fs.winsect, files[j].State())
      ensures j != i ==> KeptApart(files[j], files[i].State(), files[i].dirOfs)
    {
      WasHeld(files[j], faces[j]);
      assert j != i ==> Neighbours(files[j], files[i]);
    }
  }

  /**
    One call on file i of the session. No other file sees it, in use or not, and no other directory entry
    changes; the file itself goes out of use if and only if the state before the call is one in which the
    call spoils its buffer.
   */
  method Turn(fs: FatFs, files: seq<File>, i: nat, op: Op, buff: array<byte>, ghost lasts: seq<Face>)
    returns (stays: bool, ghost c: Call, ghost y: Face)
    requires Separate(fs, files, buff) && Session(fs, files) && Showing(files, lasts)
    requires i < |files| && Usable(files[i]) && Permitted(files[i], op) && Fitting(op, buff)
    modifies files[i], files[i].buf, buff, fs, fs.win, fs.drive
    ensures Session(fs, files) && Showing(files, lasts[i := y]) && Bounded(files[i]) && Upkeep(fs)
    ensures forall j :: 0 <= j < |files| && j != i ==> (Usable(files[j]) <==> old(Usable(files[j])))
    ensures stays == Usable(files[i]) == !old(Spoils(files[i], op)) && (!stays ==> Cause(files[i].dirty, op))
    ensures c.op == op && ByteStep(files[i].canWrite, lasts[i].view, c, y.view)
    ensures !op.SyncOp? ==> y.entry == lasts[i].entry
    ensures old(files[i].Tight()) ==> files[i].Tight() && (stays || op.TruncateOp?)
  {
    hide FatMap, Usable, Held, Shows, Touches, Chained, ByteStep, View, AllUsed, HasBadEntry, Spoils, Neighbours, FileOk, FileWas, KeptApart;
    hide EntryBytes, File.Valid, File.IsSteady, File.Shape, FreeCount, FileData.Clusters;
    hide FatFs.Mirrored, FatFs.Valid, FatFs.Shape, FatFs.Vol, FatFs.Fat;
    var fp := files[i];
    ghost var g, v, w, f := fs.g, fs.Vol(), fs.winsect, fp.State();
    OthersBefore(fs, files, i, lasts);
    ShowsEntry(fp, lasts[i]);
    var out;
    stays, out := Perform(fp, op, buff);
    HeldShape(fp);
    c := Call(op, out, AllUsed(fs.Fat()));
    ActEntry(g, v, w, f, fs.Vol(), fs.winsect, fp.State(), fp.dirOfs);
    y := Face(View(fp), EntryBytes(fs.Vol(), fp.State(), fp.dirOfs));
    FaceShown(fp, y);
    OthersNow(fs, files, i, v, w, f, lasts);
    forall j, k | 0 <= j < |files| && 0 <= k < |files| && j != k
      ensures Neighbours(files[j], files[k])
    {
      if j != i && k != i {
        assert old(Neighbours(files[j], files[k]));
      }
    }
  }

  lemma ShowsEntry(e: File, x: Face)
    requires Shows(e, x)
    ensures e.Shape() && Chained(e.fs.g, e.fs.Vol(), e.State()) && x.view == View(e)
    ensures e.dirSect < |e.fs.Vol()| && x.entry == EntryBytes(e.fs.Vol(), e.State(), e.dirOfs)
  {
  }

  lemma FaceShown(e: File, y: Face)
    requires e.Shape() && Chained(e.fs.g, e.fs.Vol(), e.State()) && e.dirSect < |e.fs.Vol()|
    requires y == Face(View(e), EntryBytes(e.fs.Vol(), e.State(), e.dirOfs))
    ensures Shows(e, y)
  {
  }

  // ----- runs -----

  /** What took a file out of use was its own last call: a truncation with a dirty buffer, a seek with a clean one. */
  ghost predicate Retired(files: seq<File>, live: seq<bool>, logs: seq<seq<Call>>)
    reads files
  {
    && |live| == |logs| == |files|
    && forall i :: 0 <= i < |live| && !live[i] ==> logs[i] != [] && Cause(files[i].dirty, logs[i][|logs[i]| - 1].op)
  }

  /** live says which files can be used. */
  ghost predicate Living(files: seq<File>, live: seq<bool>)
    reads files, set i | 0 <= i < |files| :: files[i].buf
    reads set i | 0 <= i < |files| :: files[i].fs, set i | 0 <= i < |files| :: files[i].fs.win, set i | 0 <= i < |files| :: files[i].fs.drive
  {
    |live| == |files| && forall i :: 0 <= i < |files| ==> (live[i] <==> Usable(files[i]))
  }

  /** The file whose last call spoilt its buffer is what its flags say: stranded or misled. */
  ghost predicate Wronged(files: seq<File>, live: seq<bool>)
    reads files, set i | 0 <= i < |files| :: files[i].buf
    reads set i | 0 <= i < |files| :: files[i].fs, set i | 0 <= i < |files| :: files[i].fs.win, set i | 0 <= i < |files| :: files[i].fs.drive
  {
    && |live| == |files|
    && forall i :: 0 <= i < |files| && !live[i] ==>
        && files[i].Shape() && FileData.Clusters(files[i].fs.g, files[i].chain)
        && if files[i].dirty then Stranded(files[i].fs.g, files[i].State())
           else Misled(files[i].fs.g, files[i].fs.Vol(), files[i].State())
  }

  lemma WhatIsWrong(fs: FatFs, files: seq<File>, live: seq<bool>)
    requires Session(fs, files) && Living(files, live)
    ensures Wronged(files, live)
  {
    hide Neighbours, Usable, Stranded, Misled, Framed, Noted, Chained, HasBadEntry, FileData.Clusters;
    hide FatFs.Valid, FatFs.Shape, FatFs.Vol, FatFs.Fat;
    forall i | 0 <= i < |files| && !live[i]
      ensures files[i].Shape() && FileData.Clusters(files[i].fs.g, files[i].chain)
      ensures if files[i].dirty then Stranded(files[i].fs.g, files[i].State())
              else Misled(files[i].fs.g, files[i].fs.Vol(), files[i].State())
    {
      HeldUsable(files[i]);
    }
  }

  /** A request that ends a run: no such file, one out of use, or one not opened for it. */
  predicate Refused(files: seq<File>, live: seq<bool>, r: Request)
    requires |live| == |files|
  {
    r.who >= |files| || !live[r.who] || !Permitted(files[r.who], r.op)
  }

  /** The turn of request number n, recorded. */
  method Serve(fs: FatFs, files: seq<File>, live: seq<bool>, requests: seq<Request>, n: nat, buff: array<byte>,
               ghost firsts: seq<Face>, ghost logs: seq<seq<Call>>, ghost lasts: seq<Face>)
    returns (now: seq<bool>, ghost logs': seq<seq<Call>>, ghost lasts': seq<Face>)
    requires Separate(fs, files, buff) && Session(fs, files) && Showing(files, lasts)
    requires Living(files, live) && Retired(files, live, logs)
    requires n < |requests| && !Refused(files, live, requests[n]) && Fitting(requests[n].op, buff)
    requires Histories(Modes(files), firsts, logs, lasts, requests[..n])
    modifies files[requests[n].who], files[requests[n].who].buf, buff, fs, fs.win, fs.drive
    ensures Session(fs, files) && Showing(files, lasts') && Upkeep(fs) && Bounded(files[requests[n].who])
    ensures Living(files, now) && Retired(files, now, logs')
    ensures Histories(Modes(files), firsts, logs', lasts', requests[..n + 1])
  {
    hide FatMap, Usable, ByteStep, View, AllUsed, Histories, FreeCount, Permitted, Fitting, Shows, Held, Neighbours, Spoils, Bounded;
    hide HasBadEntry, FatFs.Mirrored, FatFs.Valid, FatFs.Shape, FatFs.Vol, FatFs.Fat;
    HistoriesLength(Modes(files), firsts, logs, lasts, requests[..n]);
    var r := requests[n];
    var i := r.who;
    var stays;
    ghost var c, y;
    stays, c, y := Turn(fs, files, i, r.op, buff, lasts);
    now := live[i := stays];
    HistoriesMore(Modes(files), firsts, logs, lasts, requests, n, i, c, y);
    logs', lasts' := logs[i := logs[i] + [c]], lasts[i := y];
  }

  lemma HistoriesLength(modes: seq<bool>, firsts: seq<Face>, logs: seq<seq<Call>>, lasts: seq<Face>, requests: seq<Request>)
    requires Histories(modes, firsts, logs, lasts, requests)
    ensures |modes| == |firsts| == |logs| == |lasts|
  {
    hide Lived;
  }

  /**
    Any interleaving of calls on several open files, up to the first request that is refused. Every file shows
    at the end what its own calls, and no others, make of what it showed at the start, and its directory
    entry changes by its own f_sync only. Out of use are exactly the files whose own last call spoilt the
    buffer: a truncation that stranded a dirty one, or a seek that extended the file over a clean one.
   */
  method RunAll(fs: FatFs, files: seq<File>, requests: seq<Request>, buff: array<byte>, ghost firsts: seq<Face>)
    returns (done: nat, live: seq<bool>, ghost logs: seq<seq<Call>>, ghost lasts: seq<Face>)
    requires Separate(fs, files, buff) && Session(fs, files) && Showing(files, firsts) && Living(files, AllOf(files))
    requires forall n :: 0 <= n < |requests| ==> Fitting(requests[n].op, buff)
    modifies files, set i | 0 <= i < |files| :: files[i].buf
    modifies buff, fs, fs.win, fs.drive
    ensures Session(fs, files) && Upkeep(fs) && (!fs.fsiFlag ==> fs.CountOnDisk())
    ensures done <= |requests| && Histories(Modes(files), firsts, logs, lasts, requests[..done])
    ensures Showing(files, lasts) && Living(files, live) && Retired(files, live, logs) && Wronged(files, live)
    ensures done < |requests| ==> Refused(files, live, requests[done])
  {
    hide FatFs.Hinted, FatFs.CountOnDisk, FatMap, Usable, ByteStep, View, AllUsed, Session, Separate, Histories, Retired, FreeCount, Permitted;
    hide Fitting, Shows, Wronged;
    hide FatFs.Mirrored, FatFs.Valid, FatFs.Vol, FatFs.Fat;
    live := AllOf(files);
    logs, lasts := seq(|files|, _ => []), firsts;
    HistoriesStart(Modes(files), firsts, logs);
    RunStarts(files, live, logs);
    SessionShape(fs, files);
    assert requests[..0] == [];
    done := 0;
    while done < |requests| && !Refused(files, live, requests[done])
      invariant Session(fs, files) && fs.Shape() && Upkeep(fs)
      invariant done <= |requests| && |live| == |files|
      invariant Showing(files, lasts) && Living(files, live) && Retired(files, live, logs)
      invariant Histories(Modes(files), firsts, logs, lasts, requests[..done])
    {
      live, logs, lasts := Serve(fs, files, live, requests, done, buff, firsts, logs, lasts);
      SessionShape(fs, files);
      done := done + 1;
    }
    WhatIsWrong(fs, files, live);
    SessionHints(fs, files);
  }

  lemma RunStarts(files: seq<File>, live: seq<bool>, logs: seq<seq<Call>>)
    requires |live| == |logs| == |files| && forall i :: 0 <= i < |live| ==> live[i] && logs[i] == []
    ensures Retired(files, live, logs)
  {
  }

  lemma SessionHints(fs: FatFs, files: seq<File>)
    requires Session(fs, files)
    ensures !fs.fsiFlag ==> fs.CountOnDisk()
  {
    hide Neighbours, Held, FatFs.Valid, FatFs.Shape, FatFs.Hinted, FatFs.CountOnDisk;
    if !fs.fsiFlag {
      HintsOnDisk(fs);
    }
  }

  lemma SessionShape(fs: FatFs, files: seq<File>)
    requires Session(fs, files)
    ensures fs.Shape() && fs.Valid()
  {
    hide Neighbours, Held, FatFs.Valid, FatFs.Shape;
  }

  function AllOf(files: seq<File>): (live: seq<bool>)
    ensures |live| == |files| && forall i :: 0 <= i < |files| ==> live[i]
  {
    seq(|files|, _ => true)
  }

  ghost function Modes(files: seq<File>): (modes: seq<bool>)
    ensures |modes| == |files| && forall i :: 0 <= i < |files| ==> modes[i] == files[i].canWrite
  {
    seq(|files|, i requires 0 <= i < |files| => files[i].canWrite)
  }
}
