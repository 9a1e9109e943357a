/** What the single steps of a file transfer do to the file's bytes and to its invariant. */
module FileSteps {
  import opened Words
  import opened Layout
  import opened Codec
  import opened Disk
  import opened FileData
  import opened FileStates

  /** Data sectors are no part of the table. */
  lemma DataLeavesFat(g: Geometry, v: seq<Sector>, w: seq<Sector>)
    requires Fits(g, v) && |w| == |v|
    requires forall s :: 0 <= s < |v| && s < g.database ==> w[s] == v[s]
    ensures Fits(g, w) && FatMap(g, w) == FatMap(g, v)
  {
    hide FatMap;
    FatMapAgree(g, v, w);
  }

  /** Writing the dirty buffer back changes nothing the file sees. */
  lemma FlushKeeps(g: Geometry, v: seq<Sector>, winsect: nat, f: FileState)
    requires Steady(g, v, winsect, f) && f.dirty
    ensures f.dsect < |v| && g.database <= f.dsect && f.dsect != winsect
    ensures Fits(g, FileVol(v, f)) && FatMap(g, FileVol(v, f)) == FatMap(g, v)
    ensures Steady(g, FileVol(v, f), winsect, f.(dirty := false))
    ensures Store(g, FileVol(v, f), f.(dirty := false)) == Store(g, v, f)
  {
    hide FatMap, Times, Sectors;
    ChainFacts(g, v, f);
    DataLeavesFat(g, v, FileVol(v, f));
  }

  /** A buffer written back is right, and one that was clean stays as right as it was. */
  lemma FlushRight(g: Geometry, v: seq<Sector>, winsect: nat, f: FileState, n: nat)
    requires Steady(g, v, winsect, f) && Clusters(g, f.chain) && RightTo(g, v, f, n)
    ensures RightTo(g, FileVol(v, f), f.(dirty := false), n)
    ensures Exact(v, f) ==> Exact(FileVol(v, f), f.(dirty := false))
  {
    hide FatMap, Times, Sectors;
    ChainFacts(g, v, f);
  }

  /** Loading another sector of the file into a clean buffer changes nothing the file sees. */
  lemma FillKeeps(g: Geometry, v: seq<Sector>, winsect: nat, f: FileState, sect: nat)
    requires Steady(g, v, winsect, f) && !f.dirty && f.fptr % 512 == 0
    requires sect in FileSectors(g, f)
    ensures g.database <= sect < |v| && sect != winsect
    ensures Steady(g, v, winsect, f.(dsect := sect, buf := v[sect]))
    ensures Store(g, v, f.(dsect := sect, buf := v[sect])) == Store(g, v, f)
  {
    hide FatMap, Times, Sectors;
    ChainFacts(g, v, f);
  }

  /** The invariant does not depend on the position inside a sector row, nor on which FAT sector is in the window. */
  lemma SteadyMoves(g: Geometry, v: seq<Sector>, winsect: nat, f: FileState, winsect': nat, f': FileState)
    requires Steady(g, v, winsect, f)
    requires winsect' == winsect || g.InFat(winsect') || winsect' == 0 || winsect' == f.dirSect
    requires f' == f.(fptr := f'.fptr, csect := f'.csect, currClust := f'.currClust)
    requires f'.fptr % 512 == 0 || f'.fptr / 512 < |FileSectors(g, f)|
    requires f'.fptr % 512 != 0 ==> f'.dsect == FileSectors(g, f)[f'.fptr / 512]
    ensures Steady(g, v, winsect', f')
    ensures Store(g, v, f') == Store(g, v, f)
  {
    hide FatMap, Times, Sectors;
    ChainFacts(g, v, f);
  }

  /** The buffer of the sector under the pointer holds the file's bytes there. */
  lemma BufferBytes(g: Geometry, v: seq<Sector>, winsect: nat, f: FileState, p: nat, n: nat)
    requires Steady(g, v, winsect, f)
    requires p / 512 < |FileSectors(g, f)| && f.dsect == FileSectors(g, f)[p / 512]
    requires p % 512 + n <= 512 && p + n <= f.fsize
    ensures p + n <= |Store(g, v, f)|
    ensures f.buf[p % 512..p % 512 + n] == Store(g, v, f)[p..p + n]
  {
    hide FatMap, Times, Sectors;
    ChainFacts(g, v, f);
    BytesInSector(FileVol(v, f), FileSectors(g, f), p, n);
    assert f.dsect in FileSectors(g, f);
    if !f.dirty {
      AlikeSlice(f.buf, v[f.dsect], p, n, f.fsize);
    }
  }

  lemma AlikeSlice(b: Sector, c: Sector, p: nat, n: nat, m: nat)
    requires Alike(b, c, p / 512, m) && p % 512 + n <= 512 && p + n <= m
    ensures b[p % 512..p % 512 + n] == c[p % 512..p % 512 + n]
  {
    forall i | p % 512 <= i < p % 512 + n
      ensures b[i] == c[i]
    {
      assert 512 * (p / 512) + i < m;
    }
  }

  /** Sectors read past the buffer, with a dirty one among them replaced, are the file's bytes. */
  lemma DirectBytes(g: Geometry, v: seq<Sector>, winsect: nat, f: FileState, j: nat, sect: nat, cc: nat)
    requires Steady(g, v, winsect, f)
    requires InRow(FileSectors(g, f), j, sect, cc) && sect + cc <= |v|
    ensures 512 * (j + cc) <= |Store(g, v, f)|
    ensures Store(g, v, f)[512 * j..512 * (j + cc)]
            == Overlaid(Run(v, sect, cc), f.dirty && sect <= f.dsect < sect + cc, f.dsect - sect, f.buf)
  {
    hide FatMap, Times, Sectors;
    ChainFacts(g, v, f);
    var w := FileVol(v, f);
    BytesInRun(w, FileSectors(g, f), j, sect, cc);
    if f.dirty && sect <= f.dsect < sect + cc {
      RunStore(v, sect, cc, f.dsect, f.buf);
    } else {
      RunSame(v, w, sect, cc);
    }
  }

  /** Block i of r replaced by b. */
  function Overlaid(r: seq<byte>, on: bool, i: int, b: Sector): (t: seq<byte>)
    requires on ==> 0 <= i && 512 * i + 512 <= |r|
    ensures |t| == |r|
  {
    if on then Splice(r, 512 * i, b) else r
  }

  lemma {:induction false} RunSame(v: seq<Sector>, w: seq<Sector>, sect: nat, n: nat)
    requires sect + n <= |v| == |w|
    requires forall s :: sect <= s < sect + n ==> v[s] == w[s]
    ensures Run(v, sect, n) == Run(w, sect, n)
  {
    if n > 0 {
      RunSame(v, w, sect, n - 1);
    }
  }

  lemma {:induction false} RunStore(v: seq<Sector>, sect: nat, n: nat, d: nat, b: Sector)
    requires sect + n <= |v| && sect <= d < sect + n
    ensures Run(v[d := b], sect, n) == Overlaid(Run(v, sect, n), true, d - sect, b)
  {
    var r := Run(v, sect, n - 1);
    if d == sect + n - 1 {
      RunSame(v, v[d := b], sect, n - 1);
      assert Run(v, sect, n)[..512 * (n - 1)] == r;
      assert Run(v, sect, n)[512 * n..] == [];
    } else {
      RunStore(v, sect, n - 1, d, b);
      var i := d - sect;
      assert Run(v, sect, n)[..512 * i] == r[..512 * i];
      assert Run(v, sect, n)[512 * i + 512..] == r[512 * i + 512..] + v[sect + n - 1];
    }
  }

  /** A row of file sectors is in the data area, away from the window. */
  lemma RowAvoids(g: Geometry, v: seq<Sector>, winsect: nat, f: FileState, j: nat, sect: nat, cc: nat)
    requires Steady(g, v, winsect, f) && InRow(FileSectors(g, f), j, sect, cc) && cc > 0
    ensures g.FatEnd() <= g.database <= sect && sect + cc <= End(g) && !(sect <= winsect < sect + cc)
    ensures f.dsect < |v|
  {
    hide FatMap, Times, Sectors;
    ChainFacts(g, v, f);
    var ss := FileSectors(g, f);
    assert ss[j] in ss && ss[j + cc - 1] in ss;
    var l := if sect <= winsect < sect + cc then j + (winsect - sect) else j;
    assert ss[l] in ss && ss[l] == sect + (l - j);
  }

  /** The 32-bit comparison dsect - sect < cc tests whether dsect is among the cc sectors. */
  lemma UnsignedTest(dsect: nat, sect: nat, cc: nat)
    requires dsect < 0x1_0000_0000 && sect + cc <= 0x1_0000_0000
    ensures DwordSub(dsect, sect) < cc <==> sect <= dsect < sect + cc
    ensures sect <= dsect < sect + cc ==> DwordSub(dsect, sect) == dsect - sect
  {
  }

  lemma FileVolOnly(g: Geometry, v: seq<Sector>, winsect: nat, f: FileState)
    requires Steady(g, v, winsect, f)
    ensures OnlyIn(g, v, FileVol(v, f), FileSectors(g, f))
  {
    hide FatMap, Times, Sectors;
  }
}
