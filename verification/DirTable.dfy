/** Where the entries of a directory lie: the static root, or the sectors of a cluster chain. */
module DirTables {
  import opened Words
  import opened Layout
  import opened Codec
  import opened Chains
  import opened Entries
  import opened FileData
  import opened Listings

  /** The largest number of entries a 16-bit index can reach. */
  const MAX_ENTRIES: nat := 0x1_0000

  /** Cluster 0 stands for the root directory, which is a chain on FAT32. */
  function StartCluster(g: Geometry, sclust: dword): nat {
    if sclust == 0 && g.fsType == FAT32 then g.dirbase else sclust
  }

  /** cs is the chain of the directory, empty for the static root. */
  ghost predicate TableOk(g: Geometry, v: seq<Sector>, start: nat, cs: seq<nat>) {
    && Fits(g, v)
    && if start == 0 then g.fsType != FAT32 && cs == [] else IsChain(FatMap(g, v), cs) && cs[0] == start
  }

  ghost function TableSectors(g: Geometry, cs: seq<nat>): (ss: seq<nat>)
    requires Clusters(g, cs)
    ensures |ss| == if cs == [] then g.nRootdir / 16 else Times(|cs|, g.csize)
  {
    if cs == [] then Consecutive(g.dirbase, g.nRootdir / 16) else Sectors(g, cs)
  }

  lemma TableFacts(g: Geometry, v: seq<Sector>, start: nat, cs: seq<nat>)
    requires TableOk(g, v, start, cs)
    ensures g.Valid() && Clusters(g, cs) && (cs == [] <==> start == 0)
    ensures Inside(v, TableSectors(g, cs)) && NoRepeat(TableSectors(g, cs))
    ensures forall s :: s in TableSectors(g, cs) ==> g.FatEnd() <= s < |v| && g.Live(s) && !g.InFat(s)
  {
    hide FatMap, Times, Sectors;
    var ss := TableSectors(g, cs);
    if cs == [] {
      StaticFacts(g, v);
    } else {
      assert Clusters(g, cs);
      forall j | 0 <= j < |ss|
        ensures g.FatEnd() <= ss[j] < |v| && g.Live(ss[j]) && !g.InFat(ss[j])
      {
        SectorsData(g, cs, j);
      }
      forall j, l | 0 <= j < |ss| && 0 <= l < |ss| && ss[j] == ss[l]
        ensures j == l
      {
        SectorsDistinct(g, cs, j, l);
      }
    }
  }

  lemma StaticFacts(g: Geometry, v: seq<Sector>)
    requires Fits(g, v) && g.fsType != FAT32
    ensures g.dirbase == g.FatEnd() && g.dirbase + g.nRootdir / 16 <= |v|
    ensures g.fatbase + g.sectsFat <= g.dirbase
    ensures g.nRootdir == 16 * (g.nRootdir / 16)
  {
    hide Times;
  }

  // ----- positions -----

  /** Entry k: its cluster (0 in the static root), its sector, and its offset in the sector. */
  ghost predicate Stands(g: Geometry, cs: seq<nat>, k: nat, clust: nat, sect: nat, dir: nat)
    requires Clusters(g, cs)
  {
    var ss := TableSectors(g, cs);
    && k < MAX_ENTRIES && k / 16 < |ss|
    && sect == ss[k / 16] && dir == 32 * (k % 16)
    && if cs == [] then clust == 0 else exists j: nat :: InClusterNo(g, cs, j, k, clust)
  }

  /** Entry k is in cluster number j of the chain. */
  ghost predicate InClusterNo(g: Geometry, cs: seq<nat>, j: nat, k: nat, clust: nat) {
    j < |cs| && clust == cs[j] && Times(j, g.csize) <= k / 16 < Times(j, g.csize) + g.csize
  }

  /** An index has one position only: any two ways to reach it end at the same place. */
  lemma StandsUnique(g: Geometry, cs: seq<nat>, k: nat, c: nat, s: nat, d: nat, c': nat, s': nat, d': nat)
    requires Clusters(g, cs) && Stands(g, cs, k, c, s, d) && Stands(g, cs, k, c', s', d')
    ensures c == c' && s == s' && d == d'
  {
    if cs != [] {
      var i: nat :| InClusterNo(g, cs, i, k, c);
      var j: nat :| InClusterNo(g, cs, j, k, c');
      TimesUnique(i, k / 16 - Times(i, g.csize), j, k / 16 - Times(j, g.csize), g.csize);
    }
  }

  lemma Sixteen(t: nat, r: nat)
    ensures (16 * t + r) / 16 == t + r / 16 && (16 * t + r) % 16 == r % 16
  {
  }

  lemma RowOf(k: nat, n: nat)
    ensures k / 16 < n <==> k < 16 * n
  {
  }

  /** Entry k of the static root. */
  lemma StandsInRoot(g: Geometry, v: seq<Sector>, k: nat)
    requires Fits(g, v) && g.fsType != FAT32 && k < g.nRootdir && k < MAX_ENTRIES
    ensures k / 16 < |TableSectors(g, [])|
    ensures Stands(g, [], k, 0, g.dirbase + k / 16, 32 * (k % 16))
  {
    hide Times, Sectors;
    StaticFacts(g, v);
  }

  /** r entries behind the start of cluster number j. */
  lemma StandsInCluster(g: Geometry, cs: seq<nat>, j: nat, r: nat)
    requires g.Valid() && Clusters(g, cs) && j < |cs| && r / 16 < g.csize
    requires 16 * Times(j, g.csize) + r < MAX_ENTRIES && cs[j] < 0x1_0000_0000
    ensures Clust2Sect(g, cs[j]) != 0
    ensures (16 * Times(j, g.csize) + r) / 16 < |TableSectors(g, cs)|
    ensures Stands(g, cs, 16 * Times(j, g.csize) + r, cs[j], Clust2Sect(g, cs[j]) + r / 16, 32 * (r % 16))
  {
    hide Sectors, Times, Clust2Sect;
    var k := 16 * Times(j, g.csize) + r;
    Sixteen(Times(j, g.csize), r);
    ClusterSectors(g, cs[j]);
    SectorAt(g, cs, j, r / 16);
    assert InClusterNo(g, cs, j, k, cs[j]);
  }

  /** The next entry lies in the same sector. */
  lemma NextInSector(g: Geometry, cs: seq<nat>, k: nat, clust: nat, sect: nat, dir: nat)
    requires Clusters(g, cs) && Stands(g, cs, k, clust, sect, dir) && (k + 1) % 16 != 0 && k + 1 < MAX_ENTRIES
    ensures Stands(g, cs, k + 1, clust, sect, 32 * ((k + 1) % 16))
  {
    hide Times, Sectors;
    SameRow(k);
    if cs != [] {
      var j: nat :| InClusterNo(g, cs, j, k, clust);
      assert InClusterNo(g, cs, j, k + 1, clust);
    }
  }

  lemma SameRow(k: nat)
    ensures (k + 1) % 16 != 0 ==> (k + 1) / 16 == k / 16
    ensures (k + 1) % 16 == 0 ==> (k + 1) / 16 == k / 16 + 1 && k + 1 == 16 * (k / 16 + 1)
  {
  }

  /** The test for a new cluster: sector t + m of a chain, counted from a cluster boundary t. */
  lemma Remainder(j: nat, c: nat, m: nat)
    requires 0 < m <= c
    ensures (Times(j, c) + m) % c == 0 <==> m == c
  {
    TimesIsProduct(j, c);
    var x := j * c + m;
    if m == c {
      assert x == (j + 1) * c;
      DivUnique(x, c, j + 1, 0);
    } else {
      DivUnique(x, c, j, m);
    }
  }

  /** The next entry opens a new sector: of the static root, of the same cluster, or of the next cluster. */
  lemma NextSector(g: Geometry, cs: seq<nat>, k: nat, clust: nat, sect: nat, dir: nat) returns (j: nat)
    requires g.Valid() && Clusters(g, cs) && Stands(g, cs, k, clust, sect, dir)
    requires (k + 1) % 16 == 0 && k + 1 < MAX_ENTRIES
    ensures cs == [] ==> (k / 16 + 1 < |TableSectors(g, cs)| ==> Stands(g, cs, k + 1, 0, sect + 1, 0))
    ensures cs != [] ==> j < |cs| && clust == cs[j]
    ensures cs != [] && (k / 16 + 1) % g.csize != 0 ==> Stands(g, cs, k + 1, clust, sect + 1, 0)
    ensures cs != [] && (k / 16 + 1) % g.csize == 0 ==> k + 1 == 16 * Times(j + 1, g.csize)
  {
    hide Times, Sectors;
    SameRow(k);
    j := 0;
    if cs != [] {
      j :| InClusterNo(g, cs, j, k, clust);
      var m := k / 16 + 1 - Times(j, g.csize);
      Remainder(j, g.csize, m);
      if m < g.csize {
        SectorAt(g, cs, j, m - 1);
        SectorAt(g, cs, j, m);
        assert InClusterNo(g, cs, j, k + 1, clust);
      } else {
        NextBoundary(j, g.csize);
      }
    }
  }

  lemma NextBoundary(j: nat, c: nat)
    ensures Times(j + 1, c) == Times(j, c) + c
  {
  }

  // ----- the entries -----

  function MinNat(a: nat, b: nat): (r: nat)
    ensures r <= a && r <= b && (r == a || r == b)
  {
    if a < b then a else b
  }

  function SlotOf(k: nat): (o: Slot) {
    32 * (k % 16)
  }

  /** The 32 bytes at offset o. */
  function EntryAt(x: Sector, o: Slot): Entry {
    x[o..o + 32]
  }

  /** The entries a 16-bit index can reach, in table order. */
  ghost function Listing(v: seq<Sector>, ss: seq<nat>): (es: seq<Entry>)
    requires Inside(v, ss)
    ensures |es| == MinNat(16 * |ss|, MAX_ENTRIES)
    ensures forall i :: 0 <= i < |es| ==> es[i] == EntryAt(v[ss[i / 16]], SlotOf(i))
  {
    seq(MinNat(16 * |ss|, MAX_ENTRIES), i requires 0 <= i < MinNat(16 * |ss|, MAX_ENTRIES) =>
      EntryAt(v[ss[i / 16]], SlotOf(i)))
  }

  /** The entries are the bytes of the table's sectors, 32 at a time. */
  lemma EntryByte(v: seq<Sector>, ss: seq<nat>, i: nat, k: nat)
    requires Inside(v, ss) && i < |Listing(v, ss)| && k < 32
    ensures 32 * i + k < |Bytes(v, ss)| && Listing(v, ss)[i][k] == Bytes(v, ss)[32 * i + k]
  {
    hide Bytes, Listing;
    ByteOfEntry(i, k);
  }

  lemma ByteOfEntry(i: nat, k: nat)
    requires k < 32
    ensures (32 * i + k) / 512 == i / 16 && (32 * i + k) % 512 == 32 * (i % 16) + k
  {
    assert i == 16 * (i / 16) + i % 16;
  }

  /** The root directory: sectors in a row on FAT12 and FAT16, the chain of its cluster on FAT32. */
  lemma RootEntry(g: Geometry, v: seq<Sector>, cs: seq<nat>, i: nat, k: nat)
    requires TableOk(g, v, StartCluster(g, 0), cs) && k < 32
    ensures Inside(v, TableSectors(g, cs))
    ensures g.fsType == FAT32 ==> cs != [] && cs[0] == g.dirbase && TableSectors(g, cs) == Sectors(g, cs)
    ensures g.fsType != FAT32 ==> |TableSectors(g, cs)| == g.nRootdir / 16
    ensures g.fsType != FAT32 && i < |Listing(v, TableSectors(g, cs))| ==>
              g.dirbase + i / 16 < |v| && Listing(v, TableSectors(g, cs))[i][k] == v[g.dirbase + i / 16][32 * (i % 16) + k]
  {
    hide FatMap, Times, Sectors;
    TableFacts(g, v, StartCluster(g, 0), cs);
  }

  /** Storing 32 bytes at an entry changes that entry and no other. */
  lemma ListingStore(v: seq<Sector>, ss: seq<nat>, k: nat, x: Sector)
    requires Inside(v, ss) && NoRepeat(ss) && k < |Listing(v, ss)|
    requires forall i :: 0 <= i < 512 && !(SlotOf(k) <= i < SlotOf(k) + 32) ==> x[i] == v[ss[k / 16]][i]
    ensures Inside(v[ss[k / 16] := x], ss)
    ensures Listing(v[ss[k / 16] := x], ss) == Listing(v, ss)[k := EntryAt(x, SlotOf(k))]
  {
    var w := v[ss[k / 16] := x];
    forall i | 0 <= i < |Listing(v, ss)| && i != k
      ensures EntryAt(w[ss[i / 16]], SlotOf(i)) == EntryAt(v[ss[i / 16]], SlotOf(i))
    {
      OffsetsApart(i, k);
    }
  }

  lemma OffsetsApart(i: nat, k: nat)
    requires i != k
    ensures i / 16 == k / 16 ==> SlotOf(i) + 32 <= SlotOf(k) || SlotOf(k) + 32 <= SlotOf(i)
  {
  }

  /** Equal sectors hold equal entries. */
  lemma ListingAgree(v: seq<Sector>, w: seq<Sector>, ss: seq<nat>)
    requires Inside(v, ss) && Inside(w, ss)
    requires forall s :: s in ss ==> s < |v| && s < |w| && w[s] == v[s]
    ensures Listing(w, ss) == Listing(v, ss)
  {
  }

  /** A table lengthened by zeroed sectors. */
  lemma ListingStretched(v: seq<Sector>, w: seq<Sector>, ss: seq<nat>, tt: seq<nat>) returns (m: nat)
    requires Inside(v, ss) && Inside(w, tt) && ss <= tt
    requires forall j :: 0 <= j < |ss| ==> w[ss[j]] == v[ss[j]]
    requires forall j :: |ss| <= j < |tt| ==> w[tt[j]] == Words.Blank()
    ensures Listing(w, tt) == Stretched(Listing(v, ss), m)
    ensures 16 * |ss| < MAX_ENTRIES && |ss| < |tt| ==> m > 0
  {
    var es, fs := Listing(v, ss), Listing(w, tt);
    m := |fs| - |es|;
    forall i | 0 <= i < |fs|
      ensures fs[i] == Stretched(es, m)[i]
    {
      if i < |es| {
        assert ss[i / 16] == tt[i / 16];
      } else {
        assert i / 16 >= |ss|;
        assert fs[i] == seq(32, k => 0);
      }
    }
  }
}
