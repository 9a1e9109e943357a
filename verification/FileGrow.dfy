/** Lengthening a file's cluster chain, and what a write leaves of the bytes that were there. */
module FileGrow {
  import opened Words
  import opened Layout
  import opened Codec
  import opened Disk
  import opened Chains
  import opened FileData
  import opened FileStates
  import opened FileSteps

  /** The chain grew by free clusters; no entry outside it changed. */
  ghost predicate Extends(g: Geometry, v: seq<Sector>, v': seq<Sector>, cs: seq<nat>, cs': seq<nat>)
    requires Fits(g, v) && Fits(g, v') && Clusters(g, cs')
  {
    && cs <= cs'
    && (forall c :: 0 <= c < g.maxClust && c !in cs' ==> FatMap(g, v')[c] == FatMap(g, v)[c])
    && (forall k :: |cs| <= k < |cs'| ==> FatMap(g, v)[cs'[k]] == 0)
  }

  lemma ExtendsSame(g: Geometry, v: seq<Sector>, v': seq<Sector>, cs: seq<nat>)
    requires Fits(g, v) && Fits(g, v') && Clusters(g, cs) && FatMap(g, v') == FatMap(g, v)
    ensures Extends(g, v, v', cs, cs)
  {
  }

  lemma ExtendsTrans(g: Geometry, v: seq<Sector>, v1: seq<Sector>, v2: seq<Sector>,
                     cs: seq<nat>, cs1: seq<nat>, cs2: seq<nat>)
    requires Fits(g, v) && Fits(g, v1) && Fits(g, v2) && Clusters(g, cs1) && Clusters(g, cs2)
    requires Extends(g, v, v1, cs, cs1) && Extends(g, v1, v2, cs1, cs2)
    requires IsChainOrNil(FatMap(g, v1), cs1)
    ensures Extends(g, v, v2, cs, cs2)
  {
    hide FatMap;
    forall k | |cs| <= k < |cs2|
      ensures FatMap(g, v)[cs2[k]] == 0
    {
      if k < |cs1| {
        assert cs2[k] == cs1[k];
      } else if cs2[k] in cs1 {
        ChainUsed(FatMap(g, v1), cs1, cs2[k]);
      }
    }
  }

  /** Taking a free cluster behind the last one keeps the invariant and every byte the file had. */
  lemma GrowKeeps(g: Geometry, v: seq<Sector>, winsect: nat, f: FileState, v': seq<Sector>, winsect': nat, r: dword, eoc: dword)
    requires Steady(g, v, winsect, f)
    requires Fits(g, v') && SameOutsideFat(g, v, v') && g.InFat(winsect')
    requires IsCluster(g, r) && FatMap(g, v)[r] == 0 && eoc >= g.maxClust
    requires FatMap(g, v') == Linked(FatMap(g, v), EndOf(f.chain), r, eoc)
    ensures var f' := f.(chain := f.chain + [r], orgClust := Head(f.chain + [r]));
            && Steady(g, v', winsect', f')
            && Extends(g, v, v', f.chain, f'.chain)
            && Store(g, v, f) <= Store(g, v', f')
            && OnlyIn(g, v, v', FileSectors(g, f'))
  {
    hide FatMap, Times, Sectors, Linked;
    var f' := f.(chain := f.chain + [r], orgClust := Head(f.chain + [r]));
    LinkedChain(FatMap(g, v), f.chain, r, eoc);
    GrowChained(g, v, f, v', f');
    GrowPlaced(g, v, winsect, f, v', winsect', r, eoc);
    GrowStore(g, v, f, v', f');
    GrowExtends(g, v, v', f.chain, r, eoc);
    GrowBuffered(g, v, f, v', f');
  }

  /** The cluster a new one is linked to; 0 for an empty chain. */
  function EndOf(cs: seq<nat>): nat {
    if cs == [] then 0 else cs[|cs| - 1]
  }

  lemma GrowChained(g: Geometry, v: seq<Sector>, f: FileState, v': seq<Sector>, f': FileState)
    requires Chained(g, v, f) && Fits(g, v')
    requires f.chain <= f'.chain && |f'.chain| == |f.chain| + 1
    requires IsChain(FatMap(g, v'), f'.chain) && f'.orgClust == Head(f'.chain) && f'.fsize == f.fsize
    ensures Chained(g, v', f') && Clusters(g, f.chain) && Clusters(g, f'.chain)
    ensures FileSectors(g, f) <= FileSectors(g, f')
  {
    hide FatMap, Sectors;
    assert Clusters(g, f'.chain);
    SectorsPrefix(g, f.chain, f'.chain);
  }

  lemma GrowStore(g: Geometry, v: seq<Sector>, f: FileState, v': seq<Sector>, f': FileState)
    requires Chained(g, v, f) && Chained(g, v', f') && SameOutsideFat(g, v, v')
    requires Clusters(g, f.chain) && Clusters(g, f'.chain)
    requires FileSectors(g, f) <= FileSectors(g, f')
    requires f'.dirty == f.dirty && f'.dsect == f.dsect && f'.buf == f.buf
    ensures Store(g, v, f) <= Store(g, v', f')
  {
    hide FatMap, Times, Sectors, Chained;
    ChainFacts(g, v, f);
    ChainFacts(g, v', f');
    var w, w' := FileVol(v, f), FileVol(v', f');
    BytesAgree(w, w', FileSectors(g, f));
    BytesPrefix(w', FileSectors(g, f), FileSectors(g, f'));
  }

  lemma GrowBuffered(g: Geometry, v: seq<Sector>, f: FileState, v': seq<Sector>, f': FileState)
    requires Chained(g, v, f) && SameOutsideFat(g, v, v')
    requires Clusters(g, f.chain) && Clusters(g, f'.chain)
    requires FileSectors(g, f) <= FileSectors(g, f')
    requires f' == f.(chain := f'.chain, orgClust := f'.orgClust)
    requires Buffered(g, v, f)
    ensures Buffered(g, v', f')
  {
    ChainFacts(g, v, f);
    DataBase(g);
    hide FatMap, Times, Sectors, Chained, Geometry.Valid;
  }

  lemma GrowExtends(g: Geometry, v: seq<Sector>, v': seq<Sector>, cs: seq<nat>, r: dword, eoc: dword)
    requires Fits(g, v) && Fits(g, v') && Clusters(g, cs) && IsCluster(g, r) && FatMap(g, v)[r] == 0
    requires FatMap(g, v') == Linked(FatMap(g, v), EndOf(cs), r, eoc)
    ensures Clusters(g, cs + [r]) && Extends(g, v, v', cs, cs + [r])
  {
    hide FatMap;
    var ds := cs + [r];
    assert r in ds && (cs != [] ==> EndOf(cs) in ds);
  }

  lemma GrowPlaced(g: Geometry, v: seq<Sector>, winsect: nat, f: FileState, v': seq<Sector>, winsect': nat, r: dword, eoc: dword)
    requires Chained(g, v, f) && Clusters(g, f.chain) && Placed(g, v, winsect, f)
    requires Fits(g, v') && |v'| == |v| && g.InFat(winsect')
    requires IsCluster(g, r) && FatMap(g, v)[r] == 0 && eoc >= g.maxClust
    requires FatMap(g, v') == Linked(FatMap(g, v), EndOf(f.chain), r, eoc)
    ensures var f' := f.(chain := f.chain + [r], orgClust := Head(f.chain + [r]));
            Clusters(g, f'.chain) && Placed(g, v', winsect', f')
  {
    hide FatMap, Times, Sectors;
    var f' := f.(chain := f.chain + [r], orgClust := Head(f.chain + [r]));
    NewSectors(g, f.chain, r, f.dirSect);
    forall j | 0 <= j < |FileSectors(g, f')|
      ensures FileSectors(g, f')[j] != winsect'
    {
      SectorsData(g, f'.chain, j);
    }
    forall c: nat | IsCluster(g, c) && InCluster(g, c, f.dirSect)
      ensures FatMap(g, v')[c] != 0
    {
      assert FatMap(g, v)[c] != 0;
    }
  }

  /** A sector of the lengthened chain is an old one or in the new cluster. */
  lemma NewSectors(g: Geometry, cs: seq<nat>, r: nat, s: nat)
    requires Clusters(g, cs) && IsCluster(g, r)
    requires s !in Sectors(g, cs) && !InCluster(g, r, s)
    ensures Clusters(g, cs + [r]) && s !in Sectors(g, cs + [r])
  {
    hide Times;
    assert (cs + [r])[..|cs|] == cs;
  }

  // ----- bytes -----

  /** b is b0 with x stored at off, as far as the first n0 bytes and x are concerned. */
  ghost predicate Wrote(b0: seq<byte>, n0: nat, off: nat, x: seq<byte>, b: seq<byte>) {
    && n0 <= |b0| <= |b| && off + |x| <= |b|
    && (forall p :: 0 <= p < n0 && !(off <= p < off + |x|) ==> b[p] == b0[p])
    && (forall p :: off <= p < off + |x| ==> b[p] == x[p - off])
  }

  lemma WroteNothing(b0: seq<byte>, n0: nat, off: nat, b: seq<byte>)
    requires b0 <= b && n0 <= |b0| && off <= |b|
    ensures Wrote(b0, n0, off, [], b)
  {
  }

  lemma WroteThen(b0: seq<byte>, n0: nat, off: nat, x: seq<byte>, b: seq<byte>, n: nat, y: seq<byte>, b': seq<byte>)
    requires Wrote(b0, n0, off, x, b) && Wrote(b, n, off + |x|, y, b')
    requires n >= n0 && n >= off + |x|
    ensures Wrote(b0, n0, off, x + y, b')
  {
  }

  /** What the file's bytes are after a write that may have lengthened it. */
  lemma WroteContent(b0: seq<byte>, n0: nat, off: nat, x: seq<byte>, b: seq<byte>, n: nat)
    requires Wrote(b0, n0, off, x, b) && off <= n0 && n == (if off + |x| > n0 then off + |x| else n0)
    ensures b[..n] == b0[..off] + x + (if off + |x| < n0 then b0[off + |x|..n0] else [])
  {
  }

  /** Whole sectors stored past a clean buffer, the buffer refreshed if it is among them. */
  lemma DirectKeeps(g: Geometry, v: seq<Sector>, winsect: nat, f: FileState, sect: nat, data: seq<byte>, n0: nat, f': FileState)
    requires Steady(g, v, winsect, f) && !f.dirty && f.fptr % 512 == 0
    requires |data| % 512 == 0 && data != [] && InRow(FileSectors(g, f), f.fptr / 512, sect, |data| / 512)
    requires sect + |data| / 512 <= |v| && n0 <= |Store(g, v, f)|
    requires f' == f.(buf := f'.buf)
    requires f'.buf == if sect <= f.dsect < sect + |data| / 512
                       then data[512 * (f.dsect - sect)..512 * (f.dsect - sect) + 512] else f.buf
    ensures var v' := Overwrite(v, sect, data);
            && Fits(g, v') && FatMap(g, v') == FatMap(g, v)
            && Steady(g, v', winsect, f')
            && OnlyIn(g, v, v', FileSectors(g, f))
            && Wrote(Store(g, v, f), n0, f.fptr, data, Store(g, v', f'))
  {
    hide FatMap, Times, Sectors, Bytes, InRow, Wrote, Store;
    var v' := Overwrite(v, sect, data);
    var n := |data| / 512;
    ChainFacts(g, v, f);
    RowAvoids(g, v, winsect, f, f.fptr / 512, sect, n);
    RowIsFile(FileSectors(g, f), f.fptr / 512, sect, n);
    DataBase(g);
    hide Geometry.Valid, End, Placed, Buffered;
    DataLeavesFat(g, v, v');
    OverwriteOnly(g, v, sect, data, FileSectors(g, f));
    hide Overwrite, OnlyIn;
    PlacedSame(g, v, winsect, f, v', f');
    DirectBuffered(g, v, f, v', sect, data, f');
    DirectWrote(g, v, f, v', sect, data, n0, f');
  }

  lemma PlacedSame(g: Geometry, v: seq<Sector>, winsect: nat, f: FileState, v': seq<Sector>, f': FileState)
    requires Clusters(g, f.chain) && Fits(g, v) && Placed(g, v, winsect, f) && f'.chain == f.chain && f'.dirSect == f.dirSect
    requires Fits(g, v') && |v'| == |v| && FatMap(g, v') == FatMap(g, v)
    ensures Placed(g, v', winsect, f')
  {
    hide FatMap, Sectors, Times;
  }

  lemma OverwriteOnly(g: Geometry, v: seq<Sector>, sect: nat, data: seq<byte>, ss: seq<nat>)
    requires |data| % 512 == 0 && sect + |data| / 512 <= |v|
    requires forall s :: sect <= s < sect + |data| / 512 ==> s in ss
    ensures OnlyIn(g, v, Overwrite(v, sect, data), ss)
  {
  }

  lemma DataBase(g: Geometry)
    requires g.Valid()
    ensures g.fatbase + g.sectsFat <= g.FatEnd() <= g.database
  {
  }

  lemma DirectBuffered(g: Geometry, v: seq<Sector>, f: FileState, v': seq<Sector>, sect: nat, data: seq<byte>, f': FileState)
    requires Clusters(g, f.chain) && Buffered(g, v, f) && !f.dirty && f.fptr % 512 == 0
    requires |data| % 512 == 0 && sect + |data| / 512 <= |v| && v' == Overwrite(v, sect, data)
    requires f' == f.(buf := f'.buf)
    requires f'.buf == if sect <= f.dsect < sect + |data| / 512
                       then data[512 * (f.dsect - sect)..512 * (f.dsect - sect) + 512] else f.buf
    ensures Buffered(g, v', f')
  {
    hide Sectors, Times;
  }

  lemma RowIsFile(ss: seq<nat>, j: nat, sect: nat, n: nat)
    requires InRow(ss, j, sect, n)
    ensures forall s :: sect <= s < sect + n ==> s in ss
  {
    forall s | sect <= s < sect + n
      ensures s in ss
    {
      assert ss[j + (s - sect)] == s;
    }
  }

  lemma DirectWrote(g: Geometry, v: seq<Sector>, f: FileState, v': seq<Sector>, sect: nat, data: seq<byte>, n0: nat, f': FileState)
    requires Chained(g, v, f) && Chained(g, v', f') && !f.dirty && !f'.dirty && f'.chain == f.chain
    requires |data| % 512 == 0 && f.fptr % 512 == 0
    requires Clusters(g, f.chain) && InRow(FileSectors(g, f), f.fptr / 512, sect, |data| / 512)
    requires sect + |data| / 512 <= |v| && v' == Overwrite(v, sect, data) && n0 <= |Store(g, v, f)|
    ensures Wrote(Store(g, v, f), n0, f.fptr, data, Store(g, v', f'))
  {
    hide FatMap, Times, Sectors, Chained, Overwrite, Bytes, InRow;
    ChainFacts(g, v, f);
    ChainFacts(g, v', f');
    var ss, j := FileSectors(g, f), f.fptr / 512;
    forall p | 0 <= p < 512 * |ss|
      ensures Store(g, v', f')[p] == if f.fptr <= p < f.fptr + |data| then data[p - f.fptr] else Store(g, v, f)[p]
    {
      BytesOverwrite(v, ss, j, sect, data, p);
    }
    RowFits(ss, j, sect, |data| / 512);
  }

  lemma RowFits(ss: seq<nat>, j: nat, sect: nat, n: nat)
    requires InRow(ss, j, sect, n)
    ensures 512 * (j + n) <= 512 * |ss|
  {
  }

  /**
    The buffer may take bytes at the pointer: it is on the right sector, and shows what the file has of it.
   */
  ghost predicate Writable(g: Geometry, v: seq<Sector>, winsect: nat, f: FileState) {
    && Chained(g, v, f) && Clusters(g, f.chain)
    && Placed(g, v, winsect, f)
    && f.fptr / 512 < |FileSectors(g, f)| && f.dsect == FileSectors(g, f)[f.fptr / 512]
    && RightTo(g, v, f, Limit(f))
  }

  /** Bytes stored into the buffered sector at the pointer. */
  lemma CopyKeeps(g: Geometry, v: seq<Sector>, winsect: nat, f: FileState, x: seq<byte>, f': FileState)
    requires Writable(g, v, winsect, f) && x != [] && f.fptr % 512 + |x| <= 512
    requires f' == f.(buf := Splice(f.buf, f.fptr % 512, x), dirty := true, fptr := f.fptr + |x|)
    ensures Steady(g, v, winsect, f')
    ensures Wrote(Store(g, v, f), Limit(f), f.fptr, x, Store(g, v, f'))
  {
    ChainFacts(g, v, f);
    DataBase(g);
    assert f.dsect in FileSectors(g, f);
    hide FatMap, Times, Sectors, Splice;
    CopyBuffered(g, v, f, x, f');
    CopyWrote(g, v, f, x, f');
  }

  lemma CopyBuffered(g: Geometry, v: seq<Sector>, f: FileState, x: seq<byte>, f': FileState)
    requires Clusters(g, f.chain) && f.fptr % 512 + |x| <= 512 && x != []
    requires f.fptr / 512 < |FileSectors(g, f)| && f.dsect == FileSectors(g, f)[f.fptr / 512] && f.dsect != 0
    requires f'.chain == f.chain && f'.dsect == f.dsect && f'.dirty && f'.fptr == f.fptr + |x|
    ensures Buffered(g, v, f')
  {
    hide Times, Sectors;
    InsideSector(f.fptr, |x|);
  }

  lemma InsideSector(p: nat, n: nat)
    requires p % 512 + n <= 512
    ensures (p + n) % 512 != 0 ==> (p + n) / 512 == p / 512
    ensures p + n <= 512 * (p / 512) + 512
  {
  }

  lemma CopyWrote(g: Geometry, v: seq<Sector>, f: FileState, x: seq<byte>, f': FileState)
    requires Chained(g, v, f) && Chained(g, v, f') && Clusters(g, f.chain)
    requires f.fptr / 512 < |FileSectors(g, f)| && f.dsect == FileSectors(g, f)[f.fptr / 512]
    requires f.fptr % 512 + |x| <= 512 && RightTo(g, v, f, Limit(f))
    requires f' == f.(buf := Splice(f.buf, f.fptr % 512, x), dirty := true, fptr := f.fptr + |x|)
    ensures Wrote(Store(g, v, f), Limit(f), f.fptr, x, Store(g, v, f'))
  {
    hide FatMap, Times, Sectors, Chained, Bytes, Splice;
    ChainFacts(g, v, f);
    ChainFacts(g, v, f');
    var ss, j := FileSectors(g, f), f.fptr / 512;
    var b := if f.dirty then f.buf else v[ss[j]];
    InsideSector(f.fptr, |x|);
    var n := Limit(f);
    SizeFits(g, v, f);
    AlikeSelf(b, j, n);
    assert Alike(f.buf, b, j, n);
    assert FileVol(v, f) == v[ss[j] := b] && FileVol(v, f') == v[ss[j] := f'.buf];
    forall p | 0 <= p < 512 * |ss|
      ensures f.fptr <= p < f.fptr + |x| ==> Store(g, v, f')[p] == x[p - f.fptr]
      ensures p < n && !(f.fptr <= p < f.fptr + |x|) ==> Store(g, v, f')[p] == Store(g, v, f)[p]
    {
      CopyAt(v, ss, f.fptr, b, f.buf, x, n, p);
    }
  }

  /** Byte p of the file once x is stored at q in buffer c, which showed what the file has of the sector. */
  lemma CopyAt(v: seq<Sector>, ss: seq<nat>, q: nat, b: Sector, c: Sector, x: seq<byte>, n: nat, p: nat)
    requires Inside(v, ss) && NoRepeat(ss) && q / 512 < |ss| && p < 512 * |ss| && q % 512 + |x| <= 512
    requires Alike(c, b, q / 512, n)
    ensures q <= p < q + |x| ==> Bytes(v[ss[q / 512] := Splice(c, q % 512, x)], ss)[p] == x[p - q]
    ensures p < n && !(q <= p < q + |x|) ==>
              Bytes(v[ss[q / 512] := Splice(c, q % 512, x)], ss)[p] == Bytes(v[ss[q / 512] := b], ss)[p]
  {
    hide Bytes, Inside, NoRepeat;
    SpliceAt(c, q, x, p);
    hide Splice;
    CopyByte(v, ss, q / 512, b, p);
    CopyByte(v, ss, q / 512, Splice(c, q % 512, x), p);
  }

  lemma AlikeSelf(b: Sector, j: nat, n: nat)
    ensures Alike(b, b, j, n)
  {
  }

  lemma CopyByte(v: seq<Sector>, ss: seq<nat>, j: nat, b: Sector, p: nat)
    requires Inside(v, ss) && NoRepeat(ss) && j < |ss| && p < 512 * |ss|
    ensures Bytes(v[ss[j] := b], ss)[p] == if p / 512 == j then b[p % 512] else Bytes(v, ss)[p]
    ensures v[ss[j] := v[ss[j]]] == v
  {
    BytesStore(v, ss, j, b, p);
  }

  lemma SizeFits(g: Geometry, v: seq<Sector>, f: FileState)
    requires Chained(g, v, f)
    ensures f.fsize <= |Store(g, v, f)|
  {
  }

  lemma SpliceAt(b: Sector, q: nat, x: seq<byte>, p: nat)
    requires q % 512 + |x| <= 512
    ensures p / 512 == q / 512 ==>
              Splice(b, q % 512, x)[p % 512] == if q <= p < q + |x| then x[p - q] else b[p % 512]
    ensures q <= p < q + |x| ==> p / 512 == q / 512
    ensures p / 512 == q / 512 && q % 512 == 0 ==> q <= p
  {
    if p / 512 == q / 512 {
      assert p - q == p % 512 - q % 512;
    }
  }

  // ----- progress of a write -----

  function Max(a: nat, b: nat): (r: nat)
    ensures r >= a && r >= b && (r == a || r == b)
  {
    if a > b then a else b
  }

  /**
    From state f on volume v, the bytes x were stored at the pointer: the chain may have grown, only
    the table and the file's own sectors changed, and every other byte of the file is as it was.
   */
  ghost predicate Progress(g: Geometry, v: seq<Sector>, f: FileState, x: seq<byte>, v': seq<Sector>, f': FileState) {
    && Chained(g, v, f) && Chained(g, v', f') && Clusters(g, f'.chain)
    && f'.fptr == f.fptr + |x| && f'.fsize == f.fsize && f'.dirSect == f.dirSect
    && Extends(g, v, v', f.chain, f'.chain)
    && OnlyIn(g, v, v', FileSectors(g, f'))
    && Wrote(Store(g, v, f), Limit(f), f.fptr, x, Store(g, v', f'))
  }

  lemma ProgressTrans(g: Geometry, v: seq<Sector>, f: FileState, x: seq<byte>, v1: seq<Sector>, f1: FileState,
                      y: seq<byte>, v2: seq<Sector>, f2: FileState)
    requires Progress(g, v, f, x, v1, f1) && Progress(g, v1, f1, y, v2, f2)
    ensures Progress(g, v, f, x + y, v2, f2)
  {
    hide FatMap, Times, Sectors, Store;
    ExtendsTrans(g, v, v1, v2, f.chain, f1.chain, f2.chain);
    WroteThen(Store(g, v, f), Limit(f), f.fptr, x, Store(g, v1, f1),
              Limit(f1), y, Store(g, v2, f2));
    hide Wrote, Chained;
    OnlyInTrans(g, v, v1, v2, f1.chain, f2.chain);
  }

  lemma OnlyInTrans(g: Geometry, v: seq<Sector>, v1: seq<Sector>, v2: seq<Sector>, cs1: seq<nat>, cs2: seq<nat>)
    requires cs1 <= cs2 && Clusters(g, cs1) && Clusters(g, cs2)
    requires OnlyIn(g, v, v1, Sectors(g, cs1)) && OnlyIn(g, v1, v2, Sectors(g, cs2))
    ensures OnlyIn(g, v, v2, Sectors(g, cs2))
  {
    hide Sectors;
    SectorsPrefix(g, cs1, cs2);
  }

  /** A step that stores nothing and changes no byte of the file. */
  lemma ProgressIdle(g: Geometry, v: seq<Sector>, f: FileState, v': seq<Sector>, f': FileState)
    requires Chained(g, v, f) && Chained(g, v', f') && Clusters(g, f'.chain)
    requires f'.fptr == f.fptr && f'.fsize == f.fsize && f'.dirSect == f.dirSect
    requires f.fptr <= |Store(g, v, f)|
    requires Extends(g, v, v', f.chain, f'.chain) && OnlyIn(g, v, v', FileSectors(g, f'))
    requires Store(g, v, f) <= Store(g, v', f')
    ensures Progress(g, v, f, [], v', f')
  {
    hide FatMap, Times, Sectors, Store;
    SizeFits(g, v, f);
    WroteNothing(Store(g, v, f), Limit(f), f.fptr, Store(g, v', f'));
  }

  /** A position is never beyond what the chain can hold. */
  lemma PositionFits(g: Geometry, v: seq<Sector>, f: FileState)
    requires Chained(g, v, f) && Positioned(g, f)
    ensures f.fptr <= |Store(g, v, f)|
  {
    hide FatMap;
    if f.fptr > 0 {
      var ci: nat :| At(g, f, ci);
      TimesMono(ci, |f.chain|, g.csize);
    }
  }

  /** Writing the dirty buffer back is a step that stores nothing new. */
  lemma FlushProgress(g: Geometry, v: seq<Sector>, winsect: nat, f: FileState)
    requires Steady(g, v, winsect, f) && f.fptr <= |Store(g, v, f)|
    ensures Chained(g, FileVol(v, f), f.(dirty := false))
    ensures Progress(g, v, f, [], FileVol(v, f), f.(dirty := false))
  {
    if f.dirty {
      FlushKeeps(g, v, winsect, f);
    } else {
      assert f.(dirty := false) == f;
    }
    FileVolOnly(g, v, winsect, f);
    hide FatMap, Times, Sectors, Store;
    ChainFacts(g, v, f);
    ExtendsSame(g, v, FileVol(v, f), f.chain);
    ProgressIdle(g, v, f, FileVol(v, f), f.(dirty := false));
  }

  /** The direct transfer as a step of the write. */
  lemma DirectProgress(g: Geometry, v: seq<Sector>, winsect: nat, f: FileState, sect: nat, data: seq<byte>, f': FileState)
    requires Steady(g, v, winsect, f) && !f.dirty && f.fptr % 512 == 0 && f.fptr <= |Store(g, v, f)|
    requires |data| % 512 == 0 && data != [] && InRow(FileSectors(g, f), f.fptr / 512, sect, |data| / 512)
    requires sect + |data| / 512 <= |v|
    requires f' == f.(buf := f'.buf, csect := f'.csect, fptr := f.fptr + |data|)
    requires f'.buf == if sect <= f.dsect < sect + |data| / 512
                       then data[512 * (f.dsect - sect)..512 * (f.dsect - sect) + 512] else f.buf
    ensures Steady(g, Overwrite(v, sect, data), winsect, f')
    ensures Fits(g, Overwrite(v, sect, data)) && FatMap(g, Overwrite(v, sect, data)) == FatMap(g, v)
    ensures Progress(g, v, f, data, Overwrite(v, sect, data), f')
  {
    hide FatMap, Times, Sectors, Store, Steady, Overwrite, Wrote, OnlyIn, InRow, Chained, Extends, FileData.Clusters;
    var v' := Overwrite(v, sect, data);
    var h := f.(buf := f'.buf);
    SteadyFacts(g, v, winsect, f);
    DirectKeeps(g, v, winsect, f, sect, data, Limit(f), h);
    SteadyMoves(g, v', winsect, h, winsect, f');
    SteadyFacts(g, v', winsect, f');
    ExtendsSame(g, v, v', f.chain);
  }

  lemma SteadyFacts(g: Geometry, v: seq<Sector>, winsect: nat, f: FileState)
    requires Steady(g, v, winsect, f)
    ensures Chained(g, v, f) && Clusters(g, f.chain) && f.fsize <= |Store(g, v, f)| && Fits(g, v)
  {
    ChainFacts(g, v, f);
  }

  /** Bytes stored into the buffer as a step of the write. */
  lemma CopyProgress(g: Geometry, v: seq<Sector>, winsect: nat, f: FileState, x: seq<byte>, f': FileState)
    requires Writable(g, v, winsect, f) && x != [] && f.fptr % 512 + |x| <= 512
    requires f' == f.(buf := Splice(f.buf, f.fptr % 512, x), dirty := true, fptr := f.fptr + |x|)
    ensures Steady(g, v, winsect, f')
    ensures Progress(g, v, f, x, v, f')
  {
    hide FatMap, Times, Sectors, Store, Wrote, Splice;
    CopyKeeps(g, v, winsect, f, x, f');
    ExtendsSame(g, v, v, f.chain);
  }
}
