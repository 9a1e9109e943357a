/** The on-disk layout of a mounted volume: what the FATFS object remembers of the boot record. */
module Layout {
  import opened Words

  /**
    The product n * k, by repeated addition. Cluster and FAT-copy offsets are products of two
    variables; this form lets every proof about them stay linear.
   */
  function Times(n: nat, k: nat): nat {
    if n == 0 then 0 else Times(n - 1, k) + k
  }

  lemma {:induction false} TimesIsProduct(n: nat, k: nat)
    ensures Times(n, k) == n * k
  {
    if n > 0 {
      TimesIsProduct(n - 1, k);
      assert (n - 1) * k + k == n * k;
    }
  }

  lemma {:induction false} TimesMono(m: nat, n: nat, k: nat)
    requires m < n
    ensures Times(m, k) + k <= Times(n, k)
    decreases n
  {
    if m < n - 1 {
      TimesMono(m, n - 1, k);
    }
  }

  /** Rows of width k do not overlap: row and column are determined by the position. */
  lemma TimesUnique(m: nat, i: nat, n: nat, j: nat, k: nat)
    requires i < k && j < k
    requires Times(m, k) + i == Times(n, k) + j
    ensures m == n && i == j
  {
    if m < n {
      TimesMono(m, n, k);
    } else if n < m {
      TimesMono(n, m, k);
    }
  }

  lemma {:induction false} ProductStep(p: nat, q: nat, m: nat)
    requires p < q
    ensures p * m + m <= q * m
    decreases q
  {
    assert q * m == (q - 1) * m + m;
    if p < q - 1 {
      ProductStep(p, q - 1, m);
    }
  }

  /** Quotient and remainder are determined by what they add up to. */
  lemma DivUnique(x: nat, m: nat, q: nat, r: nat)
    requires m > 0 && r < m && x == q * m + r
    ensures x / m == q && x % m == r
  {
    var p, t := x / m, x % m;
    assert x == p * m + t;
    if p < q {
      ProductStep(p, q, m);
    } else if q < p {
      ProductStep(q, p, m);
    }
  }

  predicate PowerOfTwo(n: nat) {
    n == 1 || (n > 1 && n % 2 == 0 && PowerOfTwo(n / 2))
  }

  datatype FatType = FAT12 | FAT16 | FAT32

  /** The layout fields of FATFS; sector numbers are absolute. */
  datatype Geometry = Geometry(
    fsType: FatType,
    csize: nat,      // sectors per cluster
    nFats: nat,      // FAT copies
    nRootdir: nat,   // static root entries (0 on FAT32)
    sectsFat: nat,   // sectors per FAT
    maxClust: nat,   // largest cluster number + 1
    fatbase: nat,    // first FAT sector
    dirbase: nat,    // static root sector, or root cluster on FAT32
    database: nat,   // first data sector
    fsiSector: nat   // FSInfo sector
  ) {
    /** One past the last FAT copy. */
    function FatEnd(): nat {
      fatbase + Times(nFats, sectsFat)
    }

    /** The bytes one FAT copy must hold for clusters 0 .. maxClust-1. */
    function FatBytes(): nat {
      match fsType
      case FAT12 => (3 * maxClust + 1) / 2
      case FAT16 => 2 * maxClust
      case FAT32 => 4 * maxClust
    }

    ghost predicate Valid() {
      && 1 <= csize <= 128 && PowerOfTwo(csize)
      && 1 <= nFats && 1 <= sectsFat
      && 1 <= fatbase && (fsType == FAT32 ==> fsiSector < fatbase)
      && fatbase + sectsFat <= FatEnd() <= database
      && 2 <= maxClust <= 0x0FFF_FFFF && FatBytes() <= 512 * sectsFat
      && TypeMatches()
      && RootMatches()
    }

    /** The FAT sub type is decided by the number of clusters alone. */
    ghost predicate TypeMatches() {
      match fsType
      case FAT12 => maxClust < 0xFF7
      case FAT16 => 0xFF7 <= maxClust < 0xFFF7
      case FAT32 => 0xFFF7 <= maxClust
    }

    ghost predicate RootMatches() {
      && nRootdir % 16 == 0
      && FatEnd() + nRootdir / 16 == database
      && (if fsType == FAT32 then 2 <= dirbase < maxClust else dirbase == FatEnd())
    }

    ghost predicate InFat(s: nat) {
      fatbase <= s < fatbase + sectsFat
    }

    /** A sector that belongs to the logical volume: the first FAT copy, the root directory or data. */
    ghost predicate Live(s: nat) {
      InFat(s) || FatEnd() <= s
    }
  }

  /** One past the last data sector. */
  function End(g: Geometry): nat
    requires g.maxClust >= 2
  {
    g.database + Times(g.maxClust - 2, g.csize)
  }

  /**
    The logical volume carried by a disk image: the FAT copies and the reserved sectors are blanked,
    so that two images are the same volume exactly when their live sectors agree.
   */
  ghost function Volume(g: Geometry, image: seq<Sector>): (v: seq<Sector>)
    ensures |v| == |image|
    ensures forall s :: 0 <= s < |image| ==> v[s] == if g.Live(s) then image[s] else Blank()
  {
    seq(|image|, s requires 0 <= s < |image| => if g.Live(s) then image[s] else Blank())
  }

  lemma VolumeUpdate(g: Geometry, image: seq<Sector>, s: nat, x: Sector)
    requires s < |image| && g.Live(s)
    ensures Volume(g, image[s := x]) == Volume(g, image)[s := x]
  {
  }

  lemma VolumeAgree(g: Geometry, a: seq<Sector>, b: seq<Sector>)
    requires |a| == |b|
    requires forall s :: 0 <= s < |a| && g.Live(s) ==> a[s] == b[s]
    ensures Volume(g, a) == Volume(g, b)
  {
  }

  ghost predicate IsCluster(g: Geometry, c: nat) {
    2 <= c < g.maxClust
  }

  /** The first sector of a data cluster. */
  function First(g: Geometry, c: nat): nat
    requires c >= 2
  {
    g.database + Times(c - 2, g.csize)
  }

  /** The clusters follow one another upward from the first data sector, csize sectors each. */
  lemma ClusterPlace(g: Geometry, c: nat)
    requires 2 <= c <= g.maxClust
    ensures First(g, c) == g.database + (c - 2) * g.csize
    ensures c == g.maxClust ==> First(g, c) == End(g)
  {
    TimesIsProduct(c - 2, g.csize);
  }

  /** clust2sect: 0 for a number that is no data cluster; the subtraction wraps at 32 bits. */
  function Clust2Sect(g: Geometry, clst: dword): nat
    requires g.maxClust >= 2
  {
    var c := (clst - 2) % 0x1_0000_0000;
    if c >= g.maxClust - 2 then 0 else Times(c, g.csize) + g.database
  }

  /** clust2sect accepts exactly the data clusters and places each inside the data area. */
  lemma ClusterSectors(g: Geometry, c: dword)
    requires g.Valid()
    ensures (Clust2Sect(g, c) != 0) == IsCluster(g, c)
    ensures IsCluster(g, c) ==> Clust2Sect(g, c) == First(g, c)
    ensures IsCluster(g, c) ==> g.database <= First(g, c) && First(g, c) + g.csize <= End(g)
  {
    if IsCluster(g, c) {
      TimesMono(c - 2, g.maxClust - 2, g.csize);
    }
  }

  /** Distinct clusters own disjoint sector ranges. */
  lemma ClustersDisjoint(g: Geometry, c: nat, d: nat, i: nat, j: nat)
    requires IsCluster(g, c) && IsCluster(g, d)
    requires i < g.csize && j < g.csize
    requires First(g, c) + i == First(g, d) + j
    ensures c == d && i == j
  {
    TimesUnique(c - 2, i, d - 2, j, g.csize);
  }
}
