/** What a seek over the sector of a stale clean buffer comes to: the meaning of the spoilt buffer, and an example. */
module SpoiltSeeks {
  import opened Words
  import opened Layout
  import opened Codec
  import opened Chains
  import opened Disk
  import opened FileSystem
  import opened Allocation
  import opened FileData
  import opened FileStates
  import opened Files
  import opened FileWrite
  import opened FileSeek
  import opened FileTruncate
  import opened FileRuns

  /** Byte p of the file lies in the buffered sector, and the clean buffer, from which f_read takes it, has another one. */
  ghost predicate WrongByte(g: Geometry, v: seq<Sector>, f: FileState, p: nat)
    requires Chained(g, v, f) && Clusters(g, f.chain)
  {
    && p < f.fsize && p / 512 < |FileSectors(g, f)| && FileSectors(g, f)[p / 512] == f.dsect
    && !f.dirty && f.buf[p % 512] != Content(g, v, f)[p]
  }

  /** A buffer is misled if and only if some byte of the file would be read wrong from it. */
  lemma MisledBytes(g: Geometry, v: seq<Sector>, f: FileState)
    requires Chained(g, v, f) && Clusters(g, f.chain)
    ensures Misled(g, v, f) <==> exists p: nat :: WrongByte(g, v, f, p)
  {
    hide FatMap, Times, Sectors;
    ChainFacts(g, v, f);
    var ss := FileSectors(g, f);
    if Misled(g, v, f) {
      var j :| 0 <= j < |ss| && ss[j] == f.dsect && !Alike(f.buf, v[f.dsect], j, f.fsize);
      var i :| 0 <= i < 512 && 512 * j + i < f.fsize && f.buf[i] != v[f.dsect][i];
      DivUnique(512 * j + i, 512, j, i);
      assert WrongByte(g, v, f, 512 * j + i);
    }
    if p: nat :| WrongByte(g, v, f, p) {
      assert f.dsect in ss;
      assert !Alike(f.buf, v[f.dsect], p / 512, f.fsize);
    }
  }

  /**
    f_read does deliver it: on an open file whose buffer is misled, with the pointer on a wrong byte inside
    the buffered sector, it answers Ok and a byte that the file does not have there.
   */
  method ReadsWrong(fp: File, buff: array<byte>) returns (res: FResult, br: nat)
    requires Held(fp) && Foreign(fp, buff) && fp.canRead && buff.Length > 0 && fp.fptr % 512 != 0
    requires Clusters(fp.fs.g, fp.chain) && WrongByte(fp.fs.g, fp.fs.Vol(), fp.State(), fp.fptr)
    modifies fp`csect, fp`currClust, fp`dirty, fp`dsect, fp`fptr, fp`failed, fp.buf, buff
    modifies fp.fs`winsect, fp.fs`wflag, fp.fs.win, fp.fs.drive
    ensures res == Ok && br == 1 && old(fp.fptr) < |old(View(fp)).data|
    ensures buff[0] != old(View(fp)).data[old(fp.fptr)]
  {
    hide FatMap, Times, Steady, Store, Sectors, Chained, Positioned, Noted, Content, Framed, HasBadEntry, Misled, Clusters, Splice;
    hide FatFs.Mirrored, FatFs.Valid, FatFs.Shape, FatFs.Vol, FatFs.Fat;
    HeldUsable(fp);
    MisledBytes(fp.fs.g, fp.fs.Vol(), fp.State());
    MisledUnsteady(fp);
    ghost var was, x := buff[..], fp.buf[fp.fptr % 512];
    res, br := fp.Read(buff, 1);
    OneByte(was, old(fp.buf[..]), old(fp.fptr) % 512);
  }

  lemma MisledUnsteady(fp: File)
    requires Held(fp) && Clusters(fp.fs.g, fp.chain) && Misled(fp.fs.g, fp.fs.Vol(), fp.State())
    ensures !fp.IsSteady() && fp.fptr <= fp.fsize
  {
    hide FatMap, Times, Sectors, Positioned, Noted, HasBadEntry, RightTo, FatFs.Valid, FatFs.Shape, FatFs.Vol, FatFs.Fat;
    SteadyHoused(fp.fs.g, fp.fs.Vol(), fp.fs.winsect, fp.State());
  }

  lemma OneByte(b: seq<byte>, x: Sector, i: nat)
    requires |b| > 0 && i < 512
    ensures |x[i..i + 1]| == 1 && |Splice(b, 0, x[i..i + 1])| == |b| && Splice(b, 0, x[i..i + 1])[0] == x[i]
  {
  }

  // ----- a volume where a seek goes wrong -----

  /** On the small volume: cluster 2 ends a chain, cluster 3 is free. */
  predicate HalfImage(v: seq<Sector>) {
    |v| == 5 && v[1][3] == 0xFF && v[1][4] == 0x0F && v[1][5] == 0x00
  }

  /**
    A file of cluster 2, full, with the pointer at its end. Its clean buffer was left on the sector of
    cluster 3 when that was cut off.
   */
  function HalfFile(b: Sector): FileState {
    FileState([2], 2, 512, 512, 1, 2, 4, false, b, 2)
  }

  lemma HalfFits(g: Geometry, v: seq<Sector>)
    requires SmallVolume(g) && HalfImage(v)
    ensures Fits(g, v) && g.FatEnd() == 2
  {
    SmallTimes(1);
    hide Times;
    assert PowerOfTwo(1);
  }

  lemma HalfEntries(g: Geometry, v: seq<Sector>)
    requires SmallVolume(g) && HalfImage(v) && Fits(g, v)
    ensures FatMap(g, v)[2] == 0xFFF && FatMap(g, v)[3] == 0
  {
    hide Fits, FatMap;
    assert FatByte(g, v, 3) == 0xFF && FatByte(g, v, 4) == 0x0F && FatByte(g, v, 5) == 0x00;
    hide FatByte;
    assert Raw(g, v, 2) == 0xFFF && Raw(g, v, 3) == 0;
    FatMapAt(g, v, 2);
    FatMapAt(g, v, 3);
  }

  lemma HalfChained(g: Geometry, v: seq<Sector>, f: FileState)
    requires SmallVolume(g) && HalfImage(v) && Fits(g, v)
    requires f.chain == [2] && f.orgClust == 2 && f.fsize == 512
    ensures Chained(g, v, f)
  {
    HalfEntries(g, v);
    SmallTimes(1);
    HalfIsChain(FatMap(g, v), f.chain);
    hide FatMap, Fits, Times, IsChain;
  }

  lemma HalfIsChain(fat: seq<dword>, cs: seq<nat>)
    requires |fat| == 4 && fat[2] == 0xFFF && cs == [2]
    ensures IsChain(fat, cs) && |cs| == 1
  {
  }

  lemma HalfPosition(g: Geometry, b: Sector)
    requires SmallVolume(g)
    ensures Positioned(g, HalfFile(b))
  {
    SmallTimes(1);
    hide Times;
    assert At(g, HalfFile(b), 0);
  }

  lemma HalfSteady(g: Geometry, v: seq<Sector>, b: Sector)
    requires SmallVolume(g) && HalfImage(v) && Fits(g, v) && g.FatEnd() == 2
    ensures Steady(g, v, 0, HalfFile(b))
  {
    hide FatMap, Sectors, Fits, Times, First, EntryAllocated, Chained;
    var f := HalfFile(b);
    HalfChained(g, v, f);
    ChainFacts(g, v, f);
    SmallSectors(g, 2, 2);
    SmallFirst(g);
    SmallEntry(g, v);
    SmallEnd(g);
    assert FileSectors(g, f) == [3];
  }

  lemma SmallEnd(g: Geometry)
    requires SmallVolume(g)
    ensures End(g) == 5
  {
    SmallTimes(1);
    hide Times;
  }

  /** The seek takes cluster 3. */
  lemma HalfGrows(g: Geometry, fat: seq<dword>, hint: nat)
    requires SmallVolume(g) && |fat| == 4 && fat[2] == 0xFFF && fat[3] == 0
    ensures Clusters(g, [2]) && Lengthened(g, fat, [2], hint, 2) == [2, 3]
  {
    hide Cut;
    var cs: seq<nat> := [2];
    assert FirstFree(fat, 2, 3);
    TakenIs(fat, 2, 3);
    assert cs + [3] == [2, 3];
    assert Clusters(g, [2, 3]);
  }

  lemma TwoClusters(g: Geometry)
    requires g.csize == 1
    ensures ClustersFor(g, 1024) == 2
  {
    DivUnique(1535, 512, 2, 511);
  }

  /**
    f_lseek does spoil a buffer: on this volume the file is proper, and the seek to 1024 extends it over the
    sector its clean buffer was left on, which has changed since.
   */
  lemma SeekSpoilsHere(g: Geometry, v: seq<Sector>, b: Sector, hint: nat)
    requires SmallVolume(g) && HalfImage(v) && b != v[4]
    ensures var f := HalfFile(b);
            && FileOk(g, v, 0, f) && Clusters(g, f.chain)
            && SeekSpoils(g, v, hint, f, 1024)
  {
    hide Positioned, Steady, ClustersFor, FatMap, Fits, Sectors, First, Chained, RightTo, Lengthened;
    var f := HalfFile(b);
    HalfFits(g, v);
    HalfSteady(g, v, b);
    HalfPosition(g, b);
    HalfEntries(g, v);
    HalfChained(g, v, f);
    HalfGrows(g, FatMap(g, v), hint);
    TwoClusters(g);
    SmallTimes(1);
    HalfWrong(g, v, f.(chain := [2, 3]));
  }

  lemma HalfWrong(g: Geometry, v: seq<Sector>, f: FileState)
    requires SmallVolume(g) && HalfImage(v) && f.chain == [2, 3] && !f.dirty && f.dsect == 4 && f.buf != v[4]
    ensures Clusters(g, f.chain) && !RightTo(g, v, f, 1024)
  {
    hide Times, Sectors, First;
    SmallSectors(g, 2, 3);
    SmallFirst(g);
    assert FileSectors(g, f)[1] == 4;
    Whole(f.buf, v[4]);
  }

  lemma Whole(b: Sector, c: Sector)
    ensures Alike(b, c, 1, 1024) ==> b == c
  {
  }

  /** There are such a volume and such a buffer. */
  lemma HalfExists() returns (g: Geometry, v: seq<Sector>, b: Sector)
    ensures SmallVolume(g) && HalfImage(v) && b != v[4]
  {
    g := Geometry(FAT12, 1, 1, 16, 1, 4, 1, 2, 3, 0);
    var s: Sector := Words.Blank()[3 := 0xFF][4 := 0x0F];
    v := [Words.Blank(), s, Words.Blank(), Words.Blank(), Words.Blank()];
    b := Words.Blank()[0 := 1];
    assert b[0] != v[4][0];
  }
}
