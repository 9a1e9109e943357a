/** The file object FIL: reading, writing, seeking, truncating and synchronizing through its private sector buffer. */
module Files {
  import opened Words
  import opened Layout
  import opened Codec
  import opened Disk
  import opened Chains
  import opened Entries
  import opened FileSystem
  import opened FileData
  import opened FileStates
  import opened FileSteps

  /** Some cluster of the chain holds the sector the pointer is about to enter. */
  ghost predicate Enters(g: Geometry, f: FileState) {
    exists ci: nat :: Entering(g, f, ci)
  }

  /** Nothing is left to synchronize: the buffer is clean and the directory entry has the size and the start cluster. */
  ghost predicate Noted(v: seq<Sector>, f: FileState, o: Slot) {
    !f.dirty && f.dirSect < |v| && StartOf(v[f.dirSect], o) == f.orgClust && SizeOf(v[f.dirSect], o) == f.fsize
  }

  /** A call that changes no more than the file's own data leaves the entry as it was. */
  lemma NotedKept(g: Geometry, v: seq<Sector>, f: FileState, v': seq<Sector>, winsect': nat, f': FileState, o: Slot)
    requires Steady(g, v', winsect', f') && Clusters(g, f'.chain) && OnlyIn(g, v, v', FileSectors(g, f'))
    requires f'.dirSect == f.dirSect && f'.orgClust == f.orgClust && f'.fsize == f.fsize
    ensures Noted(v, f, o) && (f'.dirty ==> f.dirty) ==> Noted(v', f', o)
  {
    hide FatMap, Times, Sectors, StartOf, SizeOf;
    ChainFacts(g, v', f');
  }

  class File {
    const fs: FatFs
    const buf: array<byte>
    const canRead: bool
    const canWrite: bool
    const dirSect: nat
    const dirOfs: Slot
    var written: bool
    var dirty: bool
    var failed: bool
    var csect: nat
    var fptr: dword
    var fsize: dword
    var orgClust: dword
    var currClust: dword
    var dsect: nat
    ghost var chain: seq<nat>

    /**
      The end of f_open: the object of the directory entry at offset o of the sector in the window;
      cs is the chain of the recorded start cluster. The path search and the creation modes are not part of
      this member.
     */
    constructor (fs: FatFs, o: Slot, canRead: bool, canWrite: bool, written: bool, ghost cs: seq<nat>)
      requires fs.Valid() && Openable(fs.g, fs.Vol(), fs.winsect, o, cs)
      ensures Valid() && this.fs == fs && fresh(buf) && dirOfs == o
      ensures this.canRead == canRead && this.canWrite == canWrite && this.written == written && !failed
      ensures State() == Opened(fs.win[..], fs.winsect, o, cs).(buf := buf[..])
    {
      hide FatMap, Times, Steady, Chained, Sectors, StartOf, SizeOf, Openable, EntryAllocated, FatFs.Valid, FatFs.Vol, FatFs.Fat;
      OpenableSector(fs.g, fs.Vol(), fs.winsect, o, cs);
      this.fs, dirSect, dirOfs := fs, fs.winsect, o;
      buf := new byte[512](i => 0);
      this.canRead, this.canWrite, this.written := canRead, canWrite, written;
      dirty, failed := false, false;
      orgClust := StartOf(fs.win[..], o);
      fsize := SizeOf(fs.win[..], o);
      fptr, csect, currClust, dsect := 0, 255, 0, 0;
      chain := cs;
      new;
      WindowSector(fs);
      OpenedOk(fs.g, fs.Vol(), fs.winsect, o, cs, State());
    }

    ghost predicate Shape()
      reads fs`winsect, fs`wflag, fs.win, fs.drive
      ensures Shape() ==> fs.Shape() && buf.Length == 512
    {
      buf.Length == 512 && buf != fs.win && fs.Shape()
    }

    ghost function State(): FileState
      requires buf.Length == 512
      reads this, buf
    {
      FileState(chain, orgClust, fsize, fptr, csect, currClust, dsect, dirty, buf[..], dirSect)
    }

    /** A clean buffer is what its sector holds. */
    ghost predicate Tight()
      reads this, buf, fs`winsect, fs`wflag, fs.win, fs.drive
    {
      Shape() && Exact(fs.Vol(), State())
    }

    /** The invariant without the position. */
    ghost predicate IsSteady()
      reads this, buf, fs`winsect, fs`wflag, fs`fsiFlag, fs`lastClust, fs`freeClust, fs.win, fs.drive
      ensures IsSteady() ==> Shape() && fs.Valid() && Chained(fs.g, fs.Vol(), State()) && Clusters(fs.g, chain)
    {
      Shape() && fs.Valid() && Steady(fs.g, fs.Vol(), fs.winsect, State())
    }

    /** The invariant of an open file between two calls: what is not marked written is on the volume. */
    ghost predicate Valid()
      reads this, buf, fs`winsect, fs`wflag, fs`fsiFlag, fs`lastClust, fs`freeClust, fs.win, fs.drive
      ensures Valid() ==> IsSteady()
    {
      && IsSteady() && Positioned(fs.g, State()) && fptr <= fsize
      && (written || Noted(fs.Vol(), State(), dirOfs))
    }

    /** Everything the file's clusters hold, its dirty buffer included. */
    ghost function All(): (b: seq<byte>)
      requires IsSteady()
      reads this, buf, fs`winsect, fs`wflag, fs`fsiFlag, fs`lastClust, fs`freeClust, fs.win, fs.drive
      ensures |b| == 512 * Times(|chain|, fs.g.csize) && fsize <= |b|
    {
      Store(fs.g, fs.Vol(), State())
    }

    /** The bytes of the file. */
    ghost function Data(): (b: seq<byte>)
      requires IsSteady()
      reads this, buf, fs`winsect, fs`wflag, fs`fsiFlag, fs`lastClust, fs`freeClust, fs.win, fs.drive
      ensures |b| == fsize && b == All()[..fsize]
    {
      All()[..fsize]
    }

    /** Write-back of the dirty buffer, as every transfer does it. */
    method FlushBuffer() returns (res: FResult)
      requires Shape()
      modifies this`dirty, fs.drive
      ensures Shape() && |fs.drive.sectors| == old(|fs.drive.sectors|)
      ensures res == Ok || res == DiskErr
      ensures res == Ok ==> !dirty
      ensures res == Ok && old(IsSteady()) ==>
                IsSteady() && fs.Vol() == old(FileVol(fs.Vol(), State())) && fs.Fat() == old(fs.Fat()) && All() == old(All())
      ensures res == Ok && old(IsSteady() && fs.Mirrored()) ==> fs.Mirrored()
      ensures fs.drive.reliable && old(IsSteady()) ==> res == Ok
    {
      hide FatMap, Times, Fits, Steady, Chained, Store, Sectors;
      hide FatFs.Mirrored, FatFs.Valid, FatFs.Shape, FatFs.Vol, FatFs.Fat;
      res := Ok;
      if dirty {
        if IsSteady() {
          FlushKeeps(fs.g, fs.Vol(), fs.winsect, State());
        }
        var ok := fs.WriteData(buf[..], dsect);
        if !ok {
          return DiskErr;
        }
        dirty := false;
      }
    }

    /** The cluster-boundary step of f_read: follow the chain to the cluster the pointer enters. */
    method EnterForRead() returns (res: FResult)
      requires IsSteady() && Positioned(fs.g, State()) && fptr % 512 == 0 && fptr < fsize
      modifies this`csect, this`currClust, fs`winsect, fs`wflag, fs.win, fs.drive
      ensures fs.Shape() && |fs.drive.sectors| == old(|fs.drive.sectors|)
      ensures res == Ok || res == DiskErr
      ensures res == Ok ==> IsSteady() && Enters(fs.g, State()) && All() == old(All())
      ensures res == Ok ==> fs.Vol() == old(fs.Vol())
      ensures res == Ok ==> fs.winsect == old(fs.winsect) || fs.g.InFat(fs.winsect)
      ensures fs.drive.reliable ==> res == Ok
      ensures fs.drive.reliable && old(fs.Mirrored()) ==> fs.Mirrored()
    {
      hide FatMap, Times, Fits, Steady, Store, Sectors, IsChainOrNil;
      hide FatFs.Mirrored, FatFs.Valid, FatFs.Shape, FatFs.Vol, FatFs.Fat;
      ghost var v, w, f := fs.Vol(), fs.winsect, State();
      ghost var ci := NextCluster(fs.g, v, f);
      if csect >= fs.g.csize {
        var clst: dword;
        if fptr == 0 {
          clst := orgClust;
        } else {
          clst := fs.GetFat(currClust);
        }
        if clst == DISK_ERROR {
          return DiskErr;
        }
        if clst <= 1 {
          return IntErr;
        }
        currClust := clst;
        csect := 0;
      }
      assert Entering(fs.g, State(), ci);
      SteadyMoves(fs.g, v, w, f, fs.winsect, State());
      return Ok;
    }

    /** The direct transfer of f_read: cc whole sectors past the buffer, a dirty one among them replaced. */
    method ReadDirect(buff: array<byte>, at: nat, sect: nat, cc: nat) returns (ok: bool)
      requires IsSteady() && buff != buf && buff != fs.win && at + 512 * cc <= buff.Length
      requires fptr % 512 == 0 && cc > 0 && InRow(FileSectors(fs.g, State()), fptr / 512, sect, cc)
      modifies buff
      ensures ok ==> fptr + 512 * cc <= |All()|
                     && buff[..] == Splice(old(buff[..]), at, All()[fptr..fptr + 512 * cc])
      ensures fs.drive.reliable ==> ok
    {
      hide FatMap, Times, Steady, Store, Sectors, Chained, Run, InRow, Splice, DwordSub;
      hide FatFs.Mirrored, FatFs.Valid, FatFs.Shape, FatFs.Vol, FatFs.Fat;
      RowAvoids(fs.g, fs.Vol(), fs.winsect, State(), fptr / 512, sect, cc);
      DirectBytes(fs.g, fs.Vol(), fs.winsect, State(), fptr / 512, sect, cc);
      UnsignedTest(dsect, sect, cc);
      ghost var was := buff[..];
      ok := fs.ReadDataRun(buff, at, sect, cc);
      if ok {
        if dirty && DwordSub(dsect, sect) < cc {
          SpliceInside(was, at, Run(fs.Vol(), sect, cc), 512 * (dsect - sect), buf[..]);
          assert buf[..][0..512] == buf[..];
          MemCpy(buff, at + 512 * (dsect - sect), buf[..], 0, 512);
        }
      }
    }

    /** The buffered transfer of f_read: write a dirty buffer back, then load sector sect. */
    method FillForRead(sect: nat) returns (res: FResult)
      requires IsSteady() && fptr % 512 == 0 && sect in FileSectors(fs.g, State())
      modifies this`dirty, this`dsect, this`csect, buf, fs.drive
      ensures fs.Shape() && |fs.drive.sectors| == old(|fs.drive.sectors|)
      ensures res == Ok || res == DiskErr
      ensures res == Ok ==> IsSteady() && !dirty && dsect == sect && csect == old(csect) + 1
      ensures res == Ok ==> fs.Vol() == old(FileVol(fs.Vol(), State())) && fs.Fat() == old(fs.Fat()) && All() == old(All())
      ensures res == Ok && old(Tight()) ==> Tight()
      ensures fs.drive.reliable ==> res == Ok
      ensures res == Ok && old(fs.Mirrored()) ==> fs.Mirrored()
    {
      hide FatMap, Times, Steady, Store, Sectors, Chained;
      hide FatFs.Mirrored, FatFs.Valid, FatFs.Shape, FatFs.Vol, FatFs.Fat;
      res := FlushBuffer();
      if res != Ok {
        return;
      }
      FlushRight(fs.g, old(fs.Vol()), fs.winsect, old(State()), 0);
      ghost var f := State();
      FillKeeps(fs.g, fs.Vol(), fs.winsect, f, sect);
      ghost var h := if f.dsect == sect then f else f.(dsect := sect, buf := fs.Vol()[sect]);
      if dsect != sect {
        var ok := fs.ReadData(buf, sect);
        if !ok {
          return DiskErr;
        }
      }
      dsect := sect;
      csect := csect + 1;
      SteadyMoves(fs.g, fs.Vol(), fs.winsect, h, fs.winsect, State());
    }

    /** The next n bytes of the private buffer. */
    ghost function Under(n: nat): (b: seq<byte>)
      requires buf.Length == 512 && fptr % 512 + n <= 512
      reads this, buf
    {
      buf[fptr % 512..fptr % 512 + n]
    }

    /**
      A read of n bytes can start: the file is proper, or all of them are taken from the private buffer,
      whatever it holds.
     */
    ghost predicate Ready(n: nat)
      reads this, buf, fs`winsect, fs`wflag, fs`fsiFlag, fs`lastClust, fs`freeClust, fs.win, fs.drive
    {
      Shape() && if IsSteady() then Positioned(fs.g, State()) else fptr % 512 != 0 && fptr % 512 + n <= 512
    }

    /** The end of an f_read pass: take bytes of the buffered sector under the pointer. */
    method TakeBuffered(buff: array<byte>, at: nat, btr: nat) returns (rcnt: nat)
      requires Shape() && (IsSteady() ==> WithinBuffer(fs.g, State()))
      requires buff != buf && buff != fs.win && 0 < btr && at + btr <= buff.Length && fptr + btr <= fsize
      modifies this`fptr, buff
      ensures Shape() && rcnt == Min(512 - old(fptr) % 512, btr) && fptr == old(fptr) + rcnt
      ensures buff[..] == Splice(old(buff[..]), at, old(Under(rcnt)))
      ensures old(IsSteady()) ==> IsSteady() && Positioned(fs.g, State()) && All() == old(All()) && fptr <= |All()|
      ensures old(IsSteady()) ==> buff[..] == Splice(old(buff[..]), at, All()[old(fptr)..fptr])
    {
      hide FatMap, Times, Steady, Store, Sectors, Chained, Splice, WithinBuffer;
      hide FatFs.Mirrored, FatFs.Valid, FatFs.Shape, FatFs.Vol, FatFs.Fat;
      ghost var f, v := State(), fs.Vol();
      ghost var steady := IsSteady();
      rcnt := 512 - fptr % 512;
      if rcnt > btr {
        rcnt := btr;
      }
      MemCpy(buff, at, buf[..], fptr % 512, rcnt);
      fptr := fptr + rcnt;
      if steady {
        InBuffer(fs.g, f);
        BufferBytes(fs.g, v, fs.winsect, f, f.fptr, rcnt);
        BufferMoves(fs.g, f, State(), rcnt);
        SteadyMoves(fs.g, v, fs.winsect, f, fs.winsect, State());
      }
    }

    /** The direct branch of an f_read pass: as many of cc sectors as the cluster still has. */
    method TakeSectors(buff: array<byte>, at: nat, sect: nat, count: nat) returns (res: FResult, rcnt: nat)
      requires IsSteady() && Enters(fs.g, State()) && sect == Clust2Sect(fs.g, currClust) + csect
      requires buff != buf && buff != fs.win && 0 < count && at + 512 * count <= buff.Length && fptr + 512 * count <= fsize
      modifies this`csect, this`fptr, buff
      ensures res == Ok || res == DiskErr
      ensures res == Ok ==> IsSteady() && Positioned(fs.g, State()) && All() == old(All()) && (dirty ==> old(dirty))
      ensures res == Ok ==> 0 < rcnt <= 512 * count && fptr == old(fptr) + rcnt && fptr <= |All()|
      ensures res == Ok ==> buff[..] == Splice(old(buff[..]), at, All()[old(fptr)..fptr])
      ensures fs.drive.reliable ==> res == Ok
    {
      hide FatMap, Times, Steady, Store, Sectors, InRow, Entering, Enters, Positioned, Splice, FileSectors, Clust2Sect, Chained;
      hide FatFs.Mirrored, FatFs.Valid, FatFs.Shape, FatFs.Vol, FatFs.Fat;
      ghost var f := State();
      EnterFacts(fs.g, fs.Vol(), f);
      assert fptr % 512 == 0;
      var cc := count;
      if csect + cc > fs.g.csize {
        cc := fs.g.csize - csect;
      }
      RowPrefix(FileSectors(fs.g, f), fptr / 512, sect, fs.g.csize - csect, cc);
      var ok := ReadDirect(buff, at, sect, cc);
      if !ok {
        return DiskErr, 0;
      }
      csect := csect + cc;
      rcnt := 512 * cc;
      fptr := fptr + rcnt;
      EnterMoves(fs.g, f, State(), cc, rcnt);
      NextMultiple(f.fptr, cc);
      SteadyMoves(fs.g, fs.Vol(), fs.winsect, f, fs.winsect, State());
      return Ok, rcnt;
    }

    /** Find the sector the pointer enters. */
    method LocateForRead() returns (res: FResult, sect: nat)
      requires IsSteady() && Positioned(fs.g, State()) && fptr % 512 == 0 && fptr < fsize
      modifies this`csect, this`currClust, fs`winsect, fs`wflag, fs.win, fs.drive
      ensures fs.Shape() && |fs.drive.sectors| == old(|fs.drive.sectors|)
      ensures res == Ok || res == DiskErr
      ensures res == Ok ==> IsSteady() && All() == old(All()) && fs.Vol() == old(fs.Vol())
      ensures res == Ok ==> Enters(fs.g, State()) && sect == Clust2Sect(fs.g, currClust) + csect
      ensures res == Ok ==> sect in FileSectors(fs.g, State()) && FileSectors(fs.g, State())[fptr / 512] == sect
      ensures res == Ok ==> fs.winsect == old(fs.winsect) || fs.g.InFat(fs.winsect)
      ensures fs.drive.reliable ==> res == Ok
      ensures fs.drive.reliable && old(fs.Mirrored()) ==> fs.Mirrored()
    {
      hide FatMap, Times, Steady, Store, Sectors, InRow, Entering, Positioned, FileVol, Clust2Sect, FileSectors;
      hide FatFs.Mirrored, FatFs.Valid, FatFs.Shape, FatFs.Vol, FatFs.Fat;
      res := EnterForRead();
      sect := 0;
      if res != Ok {
        return;
      }
      sect := Clust2Sect(fs.g, currClust);
      EnterFacts(fs.g, fs.Vol(), State());
      if sect == 0 {
        res := IntErr;
        return;
      }
      sect := sect + csect;
    }

    /** The sector-boundary part of an f_read pass: find the sector, and load it unless whole sectors are wanted. */
    method PrepareForRead(btr: nat) returns (res: FResult, sect: nat)
      requires IsSteady() && Positioned(fs.g, State()) && fptr % 512 == 0 && fptr < fsize
      modifies this`csect, this`currClust, this`dirty, this`dsect, buf, fs`winsect, fs`wflag, fs.win, fs.drive
      ensures fs.Shape() && |fs.drive.sectors| == old(|fs.drive.sectors|)
      ensures res == Ok || res == DiskErr
      ensures res == Ok ==> IsSteady() && All() == old(All()) && (dirty ==> old(dirty))
      ensures res == Ok && btr >= 512 ==> Enters(fs.g, State()) && sect == Clust2Sect(fs.g, currClust) + csect
      ensures res == Ok && btr < 512 ==> WithinBuffer(fs.g, State())
      ensures res == Ok ==> fs.Vol() == old(fs.Vol()) || fs.Vol() == old(FileVol(fs.Vol(), State()))
      ensures res == Ok ==> fs.winsect == old(fs.winsect) || fs.g.InFat(fs.winsect)
      ensures res == Ok && old(Tight()) ==> Tight()
      ensures fs.drive.reliable ==> res == Ok
      ensures fs.drive.reliable && old(fs.Mirrored()) ==> fs.Mirrored()
    {
      hide FatMap, Times, Steady, Store, Sectors, Entering, Positioned, FileVol, Clust2Sect, FileSectors;
      hide FatFs.Mirrored, FatFs.Valid, FatFs.Shape, FatFs.Vol, FatFs.Fat;
      ghost var v, f := fs.Vol(), State();
      res, sect := LocateForRead();
      if res != Ok {
        return;
      }
      ghost var f1 := State();
      FileVolSame(v, f, f1);
      if btr / 512 == 0 {
        EnterFacts(fs.g, v, f1);
        res := FillForRead(sect);
        if res == Ok {
          EnterBuffer(fs.g, f1, State());
        }
      }
    }

    /** One pass of the loop of f_read. */
    method ReadSome(buff: array<byte>, at: nat, btr: nat) returns (res: FResult, rcnt: nat)
      requires Ready(btr)
      requires buff != buf && buff != fs.win && 0 < btr && at + btr <= buff.Length && fptr + btr <= fsize
      modifies this`csect, this`currClust, this`dirty, this`dsect, this`fptr, buf, buff
      modifies fs`winsect, fs`wflag, fs.win, fs.drive
      ensures fs.Shape() && |fs.drive.sectors| == old(|fs.drive.sectors|)
      ensures res == Ok || res == DiskErr
      ensures res == Ok ==> 0 < rcnt <= btr && fptr == old(fptr) + rcnt
      ensures res == Ok && old(IsSteady()) ==>
                IsSteady() && Positioned(fs.g, State()) && All() == old(All()) && (dirty ==> old(dirty)) && fptr <= |All()|
      ensures res == Ok && old(IsSteady()) ==> buff[..] == Splice(old(buff[..]), at, All()[old(fptr)..fptr])
      ensures res == Ok ==> fs.Vol() == old(fs.Vol()) || fs.Vol() == old(FileVol(fs.Vol(), State()))
      ensures res == Ok ==> fs.winsect == old(fs.winsect) || fs.g.InFat(fs.winsect)
      ensures res == Ok && old(Tight()) ==> Tight()
      ensures !old(IsSteady()) ==>
                res == Ok && rcnt == btr && buff[..] == Splice(old(buff[..]), at, old(Under(btr)))
      ensures fs.drive.reliable ==> res == Ok
      ensures fs.drive.reliable && old(fs.Mirrored()) ==> fs.Mirrored()
    {
      hide FatMap, Times, Steady, Store, Sectors, Within, Entering, Positioned, Chained, WithinBuffer, Enters, FileVol, Splice;
      hide FatFs.Mirrored, FatFs.Valid, FatFs.Shape, FatFs.Vol, FatFs.Fat;
      if fptr % 512 == 0 {
        var sect;
        res, sect := PrepareForRead(btr);
        if res != Ok {
          return res, 0;
        }
        if btr / 512 > 0 {
          res, rcnt := TakeSectors(buff, at, sect, btr / 512);
          return;
        }
      } else if IsSteady() {
        AtBuffer(fs.g, fs.Vol(), fs.winsect, State());
      }
      rcnt := TakeBuffered(buff, at, btr);
      return Ok, rcnt;
    }

    /** What n bytes of a read will be. */
    ghost function Next(n: nat): (b: seq<byte>)
      requires Ready(n) && fptr + n <= fsize
      reads this, buf, fs`winsect, fs`wflag, fs`fsiFlag, fs`lastClust, fs`freeClust, fs.win, fs.drive
      ensures |b| == n
    {
      if IsSteady() then All()[fptr..fptr + n] else Under(n)
    }

    /** What the passes of a read keep of a proper file: its bytes, and every sector but its own. */
    ghost predicate Same(all: seq<byte>, v: seq<Sector>, fat: seq<dword>)
      reads this, buf, fs`winsect, fs`wflag, fs`fsiFlag, fs`lastClust, fs`freeClust, fs.win, fs.drive
      ensures Same(all, v, fat) ==> IsSteady()
    {
      && IsSteady() && Positioned(fs.g, State()) && All() == all
      && fs.Fat() == fat && OnlyIn(fs.g, v, fs.Vol(), FileSectors(fs.g, State()))
    }

    /** A pass as a step of the loop. */
    method ReadNext(buff: array<byte>, at: nat, btr: nat, ghost all: seq<byte>, ghost v: seq<Sector>,
                    ghost fat: seq<dword>)
      returns (res: FResult, rcnt: nat)
      requires Ready(btr) && (IsSteady() ==> Same(all, v, fat))
      requires buff != buf && buff != fs.win && 0 < btr && at + btr <= buff.Length && fptr + btr <= fsize
      modifies this`csect, this`currClust, this`dirty, this`dsect, this`fptr, buf, buff
      modifies fs`winsect, fs`wflag, fs.win, fs.drive
      ensures Shape() && |fs.drive.sectors| == old(|fs.drive.sectors|)
      ensures res == Ok || res == DiskErr
      ensures res == Ok ==> 0 < rcnt <= btr && fptr == old(fptr) + rcnt
      ensures res == Ok ==> buff[..] == Splice(old(buff[..]), at, old(Next(btr))[..rcnt])
      ensures res == Ok && old(IsSteady()) ==> Same(all, v, fat) && (dirty ==> old(dirty))
      ensures res == Ok && rcnt < btr ==> old(IsSteady()) && Ready(btr - rcnt) && Next(btr - rcnt) == old(Next(btr))[rcnt..]
      ensures res == Ok ==> fs.winsect == old(fs.winsect) || fs.g.InFat(fs.winsect)
      ensures res == Ok && old(Tight()) ==> Tight()
      ensures fs.drive.reliable || !old(IsSteady()) ==> res == Ok
      ensures fs.drive.reliable && old(fs.Mirrored()) ==> fs.Mirrored()
    {
      hide FatMap, Times, Steady, Store, Sectors, Positioned, Splice, OnlyIn, Clusters, Chained;
      hide FatFs.Mirrored, FatFs.Valid, FatFs.Shape, FatFs.Vol, FatFs.Fat;
      ghost var v1, f, p, steady := fs.Vol(), State(), fptr, IsSteady();
      if steady {
        FileVolKeeps(fs.g, v, v1, fs.winsect, f);
      }
      res, rcnt := ReadSome(buff, at, btr);
      if steady && res == Ok {
        NextParts(all, p, btr, rcnt);
      } else {
        WholePart(old(Next(btr)));
      }
    }

    /** The loop of f_read. */
    method ReadBytes(buff: array<byte>, count: nat) returns (res: FResult, br: nat)
      requires Ready(count) && fptr + count <= fsize
      requires buff != buf && buff != fs.win && count <= buff.Length
      modifies this`csect, this`currClust, this`dirty, this`dsect, this`fptr, buf, buff
      modifies fs`winsect, fs`wflag, fs.win, fs.drive
      ensures fs.Shape() && |fs.drive.sectors| == old(|fs.drive.sectors|)
      ensures res == Ok || res == DiskErr
      ensures fs.drive.reliable || !old(IsSteady()) ==> res == Ok
      ensures res == Ok ==> br == count && fptr == old(fptr) + br && buff[..] == Splice(old(buff[..]), 0, old(Next(count)))
      ensures res == Ok && old(IsSteady()) ==> Same(old(All()), old(fs.Vol()), old(fs.Fat())) && (dirty ==> old(dirty))
      ensures res == Ok ==> fs.winsect == old(fs.winsect) || fs.g.InFat(fs.winsect)
      ensures res == Ok && old(Tight()) ==> Tight()
      ensures fs.drive.reliable && old(fs.Mirrored()) ==> fs.Mirrored()
    {
      hide FatMap, Times, Steady, Store, Sectors, Positioned, Splice, OnlyIn, Clusters, Chained, Next, Same;
      hide FatFs.Mirrored, FatFs.Valid, FatFs.Shape, FatFs.Vol, FatFs.Fat;
      br := 0;
      var btr: nat := count;
      ghost var steady, start, v, fat, want := IsSteady(), fptr, fs.Vol(), fs.Fat(), Next(count);
      ghost var all := if steady then All() else [];
      SpliceNothing(buff[..], 0);
      StillSame(all, v, fat);
      while btr > 0
        invariant Shape() && |fs.drive.sectors| == old(|fs.drive.sectors|)
        invariant br + btr == count == |want| && fptr == start + br && fptr + btr <= fsize
        invariant btr > 0 ==> Ready(btr) && Next(btr) == want[br..] && (IsSteady() ==> steady) && (steady ==> IsSteady())
        invariant buff[..] == Splice(old(buff[..]), 0, want[..br])
        invariant steady ==> Same(all, v, fat) && (dirty ==> old(dirty))
        invariant old(Tight()) ==> Tight()
        invariant fs.winsect == old(fs.winsect) || fs.g.InFat(fs.winsect)
        invariant fs.drive.reliable && old(fs.Mirrored()) ==> fs.Mirrored()
        decreases btr
      {
        var rcnt: nat;
        res, rcnt := ReadNext(buff, br, btr, all, v, fat);
        if res != Ok {
          return;
        }
        WantMore(old(buff[..]), want, br, rcnt);
        br := br + rcnt;
        btr := btr - rcnt;
      }
      WholePart(want);
      return Ok, br;
    }

    lemma StillSame(all: seq<byte>, v: seq<Sector>, fat: seq<dword>)
      requires Shape() && v == fs.Vol() && fat == fs.Fat()
      ensures IsSteady() && Positioned(fs.g, State()) && All() == all ==> Same(all, v, fat)
    {
      hide FatMap, Times, Steady, Store, Sectors, Positioned, OnlyIn, Clusters, Chained;
      hide FatFs.Valid, FatFs.Shape, FatFs.Vol, FatFs.Fat;
      if IsSteady() && Positioned(fs.g, State()) && All() == all {
        OnlyInSame(fs.g, fs.Vol(), FileSectors(fs.g, State()));
      }
    }

    /**
      f_read: the bytes at the pointer, no further than the end of the file. If the file is not proper, the
      bytes in the sector under the pointer are still those of the buffer.
     */
    method Read(buff: array<byte>, count: nat) returns (res: FResult, br: nat)
      requires if IsSteady() then Valid() else Ready(count) && fptr <= fsize
      requires buff != buf && buff != fs.win && count <= buff.Length
      modifies this`csect, this`currClust, this`dirty, this`dsect, this`fptr, this`failed, buf, buff
      modifies fs`winsect, fs`wflag, fs.win, fs.drive
      ensures |fs.drive.sectors| == old(|fs.drive.sectors|)
      ensures old(failed) ==> res == IntErr
      ensures !old(failed) && !canRead ==> res == Denied
      ensures old(failed) || !canRead ==> br == 0 && unchanged(this, buf, buff, fs, fs.win, fs.drive)
      ensures !old(failed) && canRead ==> res == Ok || (res == DiskErr && failed)
      ensures fs.drive.reliable && !old(failed) && canRead ==> res == Ok
      ensures res == Ok ==> br == Min(count, fsize - old(fptr)) && fptr == old(fptr) + br && !failed
      ensures res == Ok && old(Valid()) ==> Valid() && (dirty ==> old(dirty)) && All() == old(All())
      ensures res == Ok && old(Valid()) ==> buff[..] == Splice(old(buff[..]), 0, Data()[old(fptr)..fptr])
      ensures res == Ok && old(Valid()) ==>
                fs.Fat() == old(fs.Fat()) && OnlyIn(fs.g, old(fs.Vol()), fs.Vol(), FileSectors(fs.g, State()))
      ensures res == Ok ==> fs.winsect == old(fs.winsect) || fs.g.InFat(fs.winsect)
      ensures res == Ok && old(Tight()) ==> Tight()
      ensures res == Ok && !old(IsSteady()) ==>
                old(fptr) % 512 + br <= 512 && buff[..] == Splice(old(buff[..]), 0, old(Under(br)))
      ensures fs.drive.reliable && old(fs.Mirrored()) ==> fs.Shape() && fs.Mirrored()
    {
      hide FatMap, Times, Steady, Store, Sectors, Positioned, Splice, OnlyIn, Clusters, Chained, Noted;
      hide FatFs.Mirrored, FatFs.Valid, FatFs.Shape, FatFs.Vol, FatFs.Fat;
      br := 0;
      if failed {
        return IntErr, br;
      }
      if !canRead {
        return Denied, br;
      }
      var btr := count;
      var remain := fsize - fptr;
      if btr > remain {
        btr := remain;
      }
      ghost var start, v, f, steady := fptr, fs.Vol(), State(), IsSteady();
      res, br := ReadBytes(buff, btr);
      if res != Ok {
        failed := true;
        return;
      }
      if steady {
        PrefixSlice(All(), fsize, start, fptr);
        NotedKept(fs.g, v, f, fs.Vol(), fs.winsect, State(), dirOfs);
      }
    }
  }

  /** The state f_open makes of the entry at offset o of directory sector dirSect, whose bytes are x. */
  ghost function Opened(x: Sector, dirSect: nat, o: Slot, cs: seq<nat>): FileState {
    FileState(cs, StartOf(x, o), SizeOf(x, o), 0, 255, 0, 0, false, Blank(), dirSect)
  }

  /** The entry names a complete chain that is long enough and does not hold the entry itself. */
  ghost predicate Openable(g: Geometry, v: seq<Sector>, dirSect: nat, o: Slot, cs: seq<nat>) {
    && g.FatEnd() <= dirSect < |v|
    && Chained(g, v, Opened(v[dirSect], dirSect, o, cs))
    && Clusters(g, cs) && dirSect !in Sectors(g, cs)
    && EntryAllocated(g, v, dirSect)
  }

  /** A window on a live sector shows the logical volume's sector. */
  lemma WindowSector(fs: FatFs)
    requires fs.Valid() && fs.winsect != 0
    ensures fs.winsect < |fs.Vol()| && fs.win[..] == fs.Vol()[fs.winsect]
  {
  }

  lemma OpenableSector(g: Geometry, v: seq<Sector>, dirSect: nat, o: Slot, cs: seq<nat>)
    requires Openable(g, v, dirSect, o, cs)
    ensures 0 < dirSect < |v|
  {
    hide FatMap, Times, Sectors, StartOf, SizeOf;
  }

  lemma OpenedOk(g: Geometry, v: seq<Sector>, dirSect: nat, o: Slot, cs: seq<nat>, f: FileState)
    requires Openable(g, v, dirSect, o, cs) && f == Opened(v[dirSect], dirSect, o, cs).(buf := f.buf)
    ensures FileOk(g, v, dirSect, f)
  {
    hide FatMap, Times, Sectors, StartOf, SizeOf;
    ChainFacts(g, v, f);
    NoSectorZero(g, v, f);
  }

  lemma PrefixSlice(b: seq<byte>, n: nat, i: nat, j: nat)
    requires i <= j <= n <= |b|
    ensures b[..n][i..j] == b[i..j]
  {
  }

  function Min(a: int, b: int): (r: int)
    ensures r <= a && r <= b && (r == a || r == b)
  {
    if a <= b then a else b
  }

  /** A pass either leaves the volume alone or writes the buffer back. */
  lemma FileVolKeeps(g: Geometry, v0: seq<Sector>, v: seq<Sector>, winsect: nat, f: FileState)
    requires Steady(g, v, winsect, f)
    ensures FatMap(g, FileVol(v, f)) == FatMap(g, v)
    ensures OnlyIn(g, v0, v, FileSectors(g, f)) ==> OnlyIn(g, v0, FileVol(v, f), FileSectors(g, f))
  {
    hide FatMap, Times, Sectors;
    ChainFacts(g, v, f);
    DataLeavesFat(g, v, FileVol(v, f));
  }

  lemma NextMultiple(p: nat, k: nat)
    requires p % 512 == 0
    ensures (p + 512 * k) % 512 == 0
  {
  }

  lemma FileVolSame(v: seq<Sector>, f: FileState, f': FileState)
    requires f'.dirty == f.dirty && f'.dsect == f.dsect && f'.buf == f.buf
    ensures FileVol(v, f') == FileVol(v, f)
  {
  }

  /** The pointer is inside, or at the start of, the sector the buffer holds. */
  ghost predicate WithinBuffer(g: Geometry, f: FileState) {
    && Clusters(g, f.chain)
    && f.fptr / 512 < |FileSectors(g, f)| && f.dsect == FileSectors(g, f)[f.fptr / 512]
    && exists ci: nat :: Within(g, f, ci)
  }

  lemma BufferMoves(g: Geometry, f: FileState, f': FileState, n: nat)
    requires WithinBuffer(g, f) && f' == f.(fptr := f.fptr + n) && n > 0 && f.fptr % 512 + n <= 512
    ensures Positioned(g, f')
    ensures f'.fptr % 512 != 0 ==> f'.fptr / 512 == f.fptr / 512
  {
    var ci: nat :| Within(g, f, ci);
    WithinMoves(g, f, ci, f', n);
  }

  lemma RowPrefix(ss: seq<nat>, j: nat, sect: nat, n: nat, m: nat)
    requires InRow(ss, j, sect, n) && m <= n
    ensures InRow(ss, j, sect, m)
  {
  }

  lemma EnterFacts(g: Geometry, v: seq<Sector>, f: FileState)
    requires Chained(g, v, f) && Enters(g, f)
    ensures Clusters(g, f.chain)
    ensures f.csect < g.csize && f.fptr % 512 == 0 && f.fptr / 512 < |FileSectors(g, f)|
    ensures f.currClust < 0x1_0000_0000 && Clust2Sect(g, f.currClust) != 0
    ensures InRow(FileSectors(g, f), f.fptr / 512, Clust2Sect(g, f.currClust) + f.csect, g.csize - f.csect)
    ensures FileSectors(g, f)[f.fptr / 512] == Clust2Sect(g, f.currClust) + f.csect
    ensures Clust2Sect(g, f.currClust) + f.csect in FileSectors(g, f)
    ensures Clust2Sect(g, f.currClust) + g.csize <= |v|
  {
    hide Chained, FileSectors;
    var ci: nat :| Entering(g, f, ci);
    EnteringSector(g, v, f, ci);
  }

  lemma EnterMoves(g: Geometry, f: FileState, f': FileState, k: nat, n: nat)
    requires Enters(g, f) && k >= 1 && f.csect + k <= g.csize && 512 * (k - 1) < n <= 512 * k
    requires f' == f.(csect := f.csect + k, fptr := f.fptr + n)
    ensures Positioned(g, f')
  {
    var ci: nat :| Entering(g, f, ci);
    EnteringMoves(g, f, ci, f', k, n);
  }

  lemma EnterBuffer(g: Geometry, f: FileState, f': FileState)
    requires Enters(g, f) && Clusters(g, f.chain)
    requires f' == f.(csect := f.csect + 1, dsect := f'.dsect, dirty := f'.dirty, buf := f'.buf)
    requires f.fptr / 512 < |FileSectors(g, f)| && f'.dsect == FileSectors(g, f)[f.fptr / 512]
    ensures WithinBuffer(g, f')
  {
    var ci: nat :| Entering(g, f, ci);
    EnteringWithin(g, f, ci);
    assert Within(g, f', ci);
  }

  lemma NextParts(all: seq<byte>, p: nat, n: nat, k: nat)
    requires p + n <= |all| && k <= n
    ensures all[p..p + n][..k] == all[p..p + k] && all[p..p + n][k..] == all[p + k..p + n]
  {
  }

  lemma WholePart(b: seq<byte>)
    ensures b[..|b|] == b
  {
  }

  /** The next stretch behind those already delivered. */
  lemma WantMore(was: seq<byte>, want: seq<byte>, i: nat, k: nat)
    requires i + k <= |want| <= |was|
    ensures Splice(Splice(was, 0, want[..i]), i, want[i..][..k]) == Splice(was, 0, want[..i + k])
    ensures want[i..][k..] == want[i + k..]
  {
    hide Splice;
    assert want[i..][..k] == want[i..i + k];
    assert want[..i] + want[i..i + k] == want[..i + k];
    SpliceMore(was, 0, want[..i], want[i..i + k]);
  }

  lemma InBuffer(g: Geometry, f: FileState)
    requires WithinBuffer(g, f)
    ensures Clusters(g, f.chain) && f.fptr / 512 < |FileSectors(g, f)| && f.dsect == FileSectors(g, f)[f.fptr / 512]
  {
    hide Sectors, Times;
  }

  lemma AtBuffer(g: Geometry, v: seq<Sector>, winsect: nat, f: FileState)
    requires Steady(g, v, winsect, f) && Positioned(g, f) && f.fptr % 512 != 0
    ensures WithinBuffer(g, f)
  {
    hide Times, FatMap, Sectors;
    var ci: nat :| At(g, f, ci);
    AtWithin(g, f, ci);
  }

  /** The cluster the pointer is about to enter, for a pointer on a sector boundary below the end of the chain. */
  lemma NextCluster(g: Geometry, v: seq<Sector>, f: FileState) returns (ci: nat)
    requires Chained(g, v, f) && Positioned(g, f)
    requires f.fptr % 512 == 0 && f.fptr < 512 * Times(|f.chain|, g.csize)
    ensures ci < |f.chain| && IsCluster(g, f.chain[ci])
    ensures f.csect < g.csize ==> Entering(g, f, ci)
    ensures f.csect >= g.csize ==> f.fptr == 512 * Times(ci, g.csize)
    ensures f.csect >= g.csize && f.fptr == 0 ==> ci == 0 && f.orgClust == f.chain[0]
    ensures f.csect >= g.csize && f.fptr > 0 ==> IsCluster(g, f.currClust) && FatMap(g, v)[f.currClust] == f.chain[ci]
  {
    hide FatMap, Fits;
    if f.fptr == 0 {
      assert Times(0, g.csize) == 0;
      ci := 0;
    } else {
      var c: nat :| At(g, f, c);
      hide Times;
      AtEnters(g, f, c);
      assert At(g, f, c);
      ci := if f.csect < g.csize then c else c + 1;
      if f.csect == g.csize {
        assert |f.chain| != c + 1;
        assert FatMap(g, v)[f.chain[c]] == f.chain[c + 1];
      }
    }
  }
}
