/** The bytes of a file: the sectors of its cluster chain, read through its own sector buffer. */
module FileData {
  import opened Words
  import opened Layout
  import opened Disk
  import opened Chains

  // ----- the sectors of a chain -----

  function Consecutive(s: nat, n: nat): (r: seq<nat>)
    ensures |r| == n
    ensures forall i :: 0 <= i < n ==> r[i] == s + i
  {
    seq(n, i requires 0 <= i < n => s + i)
  }

  ghost predicate Clusters(g: Geometry, cs: seq<nat>) {
    forall i :: 0 <= i < |cs| ==> IsCluster(g, cs[i])
  }

  /** The sectors of a chain in file order. */
  ghost function Sectors(g: Geometry, cs: seq<nat>): (ss: seq<nat>)
    requires Clusters(g, cs)
    ensures |ss| == Times(|cs|, g.csize)
  {
    if cs == [] then []
    else Sectors(g, cs[..|cs| - 1]) + Consecutive(First(g, cs[|cs| - 1]), g.csize)
  }

  /** Sector i of cluster k of the chain. */
  lemma {:induction false} SectorAt(g: Geometry, cs: seq<nat>, k: nat, i: nat)
    requires Clusters(g, cs) && k < |cs| && i < g.csize
    ensures Times(k, g.csize) + i < Times(|cs|, g.csize)
    ensures Sectors(g, cs)[Times(k, g.csize) + i] == First(g, cs[k]) + i
  {
    var n := |cs| - 1;
    TimesMono(k, |cs|, g.csize);
    if k < n {
      SectorAt(g, cs[..n], k, i);
    }
  }

  /** Every file sector lies in some cluster of the chain. */
  lemma {:induction false} Locate(g: Geometry, cs: seq<nat>, j: nat) returns (k: nat, i: nat)
    requires Clusters(g, cs) && j < Times(|cs|, g.csize)
    ensures k < |cs| && i < g.csize && j == Times(k, g.csize) + i
    ensures Sectors(g, cs)[j] == First(g, cs[k]) + i
  {
    var n := |cs| - 1;
    if j < Times(n, g.csize) {
      k, i := Locate(g, cs[..n], j);
    } else {
      k, i := n, j - Times(n, g.csize);
    }
    SectorAt(g, cs, k, i);
  }

  /** A sector of cluster c. */
  ghost predicate InCluster(g: Geometry, c: nat, s: nat) {
    c >= 2 && First(g, c) <= s < First(g, c) + g.csize
  }

  lemma InSectors(g: Geometry, cs: seq<nat>, s: nat)
    requires Clusters(g, cs)
    ensures s in Sectors(g, cs) <==> exists c :: c in cs && InCluster(g, c, s)
  {
    hide Times;
    if s in Sectors(g, cs) {
      var j :| 0 <= j < |Sectors(g, cs)| && Sectors(g, cs)[j] == s;
      var k, i := Locate(g, cs, j);
      assert cs[k] in cs && InCluster(g, cs[k], s);
    }
    if c :| c in cs && InCluster(g, c, s) {
      var k :| 0 <= k < |cs| && cs[k] == c;
      SectorAt(g, cs, k, s - First(g, c));
    }
  }

  /** All file sectors lie in the data area, and no two are the same. */
  lemma SectorsData(g: Geometry, cs: seq<nat>, j: nat)
    requires g.Valid() && Clusters(g, cs) && j < Times(|cs|, g.csize)
    ensures g.database <= Sectors(g, cs)[j] < End(g)
    ensures g.Live(Sectors(g, cs)[j]) && !g.InFat(Sectors(g, cs)[j])
  {
    var k, i := Locate(g, cs, j);
    hide Times, Sectors;
    ClusterSectors(g, cs[k]);
  }

  lemma SectorsDistinct(g: Geometry, cs: seq<nat>, j: nat, l: nat)
    requires Clusters(g, cs) && Distinct(cs)
    requires j < Times(|cs|, g.csize) && l < Times(|cs|, g.csize)
    requires Sectors(g, cs)[j] == Sectors(g, cs)[l]
    ensures j == l
  {
    hide Sectors;
    var k, i := Locate(g, cs, j);
    var m, n := Locate(g, cs, l);
    ClustersDisjoint(g, cs[k], cs[m], i, n);
    assert k == m;
  }

  lemma {:induction false} SectorsPrefix(g: Geometry, cs: seq<nat>, ds: seq<nat>)
    requires cs <= ds && Clusters(g, ds)
    ensures Clusters(g, cs)
    ensures Sectors(g, cs) <= Sectors(g, ds)
    decreases |ds|
  {
    var n := |ds| - 1;
    if |cs| < |ds| {
      assert cs <= ds[..n];
      SectorsPrefix(g, cs, ds[..n]);
      assert Sectors(g, ds[..n]) <= Sectors(g, ds);
    } else {
      assert cs == ds;
    }
  }

  // ----- the bytes behind a list of sectors -----

  ghost predicate Inside(v: seq<Sector>, ss: seq<nat>) {
    forall j :: 0 <= j < |ss| ==> ss[j] < |v|
  }

  ghost predicate NoRepeat(ss: seq<nat>) {
    forall j, l :: 0 <= j < |ss| && 0 <= l < |ss| && ss[j] == ss[l] ==> j == l
  }

  /** The bytes of the sectors ss, in order. */
  ghost function Bytes(v: seq<Sector>, ss: seq<nat>): (b: seq<byte>)
    requires Inside(v, ss)
    ensures |b| == 512 * |ss|
    ensures forall p :: 0 <= p < 512 * |ss| ==> b[p] == v[ss[p / 512]][p % 512]
  {
    seq(512 * |ss|, p requires 0 <= p < 512 * |ss| => v[ss[p / 512]][p % 512])
  }

  /** Byte o of sector i of cluster number k of a file: in the file it is byte o of sector j, on the volume of sector s. */
  lemma FileByte(g: Geometry, v: seq<Sector>, cs: seq<nat>, k: nat, i: nat, o: nat, j: nat, s: nat)
    requires Clusters(g, cs) && Inside(v, Sectors(g, cs)) && k < |cs| && i < g.csize && o < 512
    requires j == k * g.csize + i && s == g.database + (cs[k] - 2) * g.csize + i
    ensures 512 * j + o < |Bytes(v, Sectors(g, cs))| && s < |v|
    ensures Bytes(v, Sectors(g, cs))[512 * j + o] == v[s][o]
  {
    SectorAt(g, cs, k, i);
    TimesIsProduct(k, g.csize);
    ClusterPlace(g, cs[k]);
    hide Sectors, Times, First;
    assert Sectors(g, cs)[j] == s;
    Multiple512(j, o);
  }

  lemma Multiple512(j: nat, o: nat)
    requires o < 512
    ensures (512 * j + o) / 512 == j && (512 * j + o) % 512 == o
  {
  }

  /** A stretch of bytes inside one sector. */
  lemma BytesInSector(v: seq<Sector>, ss: seq<nat>, p: nat, n: nat)
    requires Inside(v, ss) && p / 512 < |ss| && p % 512 + n <= 512
    ensures p + n <= 512 * |ss|
    ensures Bytes(v, ss)[p..p + n] == v[ss[p / 512]][p % 512..p % 512 + n]
  {
    forall q | p <= q < p + n
      ensures Bytes(v, ss)[q] == v[ss[p / 512]][p % 512 + (q - p)]
    {
      Offset(p, q - p);
    }
  }

  lemma Offset(p: nat, i: nat)
    requires p % 512 + i < 512
    ensures (p + i) / 512 == p / 512 && (p + i) % 512 == p % 512 + i
  {
  }

  /** File sectors j .. j+n-1 lie in a row on the disk, from sect on. */
  ghost predicate InRow(ss: seq<nat>, j: nat, sect: nat, n: nat) {
    j + n <= |ss| && forall l :: j <= l < j + n ==> ss[l] == sect + (l - j)
  }

  /** Whole sectors that lie in a row on the disk. */
  lemma {:induction false} BytesInRun(v: seq<Sector>, ss: seq<nat>, j: nat, sect: nat, n: nat)
    requires Inside(v, ss) && InRow(ss, j, sect, n) && sect + n <= |v|
    ensures Bytes(v, ss)[512 * j..512 * (j + n)] == Run(v, sect, n)
  {
    hide Bytes, Run;
    RunStep(v, sect, n);
    if n > 0 {
      var p := 512 * (j + n - 1);
      assert InRow(ss, j, sect, n - 1);
      BytesInRun(v, ss, j, sect, n - 1);
      BytesOfSector(v, ss, j + n - 1);
      JoinSlices(Bytes(v, ss), 512 * j, p, p + 512);
    }
  }

  lemma RunStep(v: seq<Sector>, sect: nat, n: nat)
    requires sect + n <= |v|
    ensures n == 0 ==> Run(v, sect, n) == []
    ensures n > 0 ==> Run(v, sect, n) == Run(v, sect, n - 1) + v[sect + n - 1]
  {
  }

  lemma BytesOfSector(v: seq<Sector>, ss: seq<nat>, j: nat)
    requires Inside(v, ss) && j < |ss|
    ensures Bytes(v, ss)[512 * j..512 * j + 512] == v[ss[j]]
  {
    BytesInSector(v, ss, 512 * j, 512);
  }

  lemma JoinSlices(b: seq<byte>, i: nat, j: nat, k: nat)
    requires i <= j <= k <= |b|
    ensures b[i..k] == b[i..j] + b[j..k]
  {
  }

  /** Two volumes that agree on the sectors hold the same bytes. */
  lemma BytesAgree(v: seq<Sector>, w: seq<Sector>, ss: seq<nat>)
    requires Inside(v, ss) && Inside(w, ss)
    requires forall j :: 0 <= j < |ss| ==> v[ss[j]] == w[ss[j]]
    ensures Bytes(v, ss) == Bytes(w, ss)
  {
  }

  lemma BytesPrefix(v: seq<Sector>, ss: seq<nat>, tt: seq<nat>)
    requires ss <= tt && Inside(v, tt)
    ensures Inside(v, ss) && Bytes(v, ss) <= Bytes(v, tt)
  {
    assert forall p :: 0 <= p < 512 * |ss| ==> Bytes(v, ss)[p] == Bytes(v, tt)[p];
  }

  /** Changing file sector j changes its 512 bytes and no others. */
  lemma BytesStore(v: seq<Sector>, ss: seq<nat>, j: nat, x: Sector, p: nat)
    requires Inside(v, ss) && NoRepeat(ss) && j < |ss| && p < 512 * |ss|
    ensures Bytes(v[ss[j] := x], ss)[p] == if p / 512 == j then x[p % 512] else Bytes(v, ss)[p]
  {
  }

  lemma NotInRow(ss: seq<nat>, j: nat, sect: nat, n: nat, q: nat)
    requires NoRepeat(ss) && InRow(ss, j, sect, n) && q < |ss| && !(j <= q < j + n)
    ensures !(sect <= ss[q] < sect + n)
  {
    if n > 0 {
      var l := if sect <= ss[q] < sect + n then j + (ss[q] - sect) else j;
      assert ss[l] == sect + (l - j);
    }
  }

  /** Storing a run of sectors that is file sectors j .. j+n-1 replaces those bytes. */
  lemma BytesOverwrite(v: seq<Sector>, ss: seq<nat>, j: nat, sect: nat, data: seq<byte>, p: nat)
    requires Inside(v, ss) && NoRepeat(ss) && |data| % 512 == 0 && p < 512 * |ss|
    requires InRow(ss, j, sect, |data| / 512) && sect + |data| / 512 <= |v|
    ensures Bytes(Overwrite(v, sect, data), ss)[p]
            == if 512 * j <= p < 512 * j + |data| then data[p - 512 * j] else Bytes(v, ss)[p]
  {
    var n := |data| / 512;
    var q := p / 512;
    if j <= q < j + n {
      assert ss[q] == sect + (q - j);
      assert 512 * (q - j) + p % 512 == p - 512 * j;
    } else {
      NotInRow(ss, j, sect, n, q);
    }
  }
}
