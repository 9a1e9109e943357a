/** The copies of the file allocation table: when they agree, and how one sector is reflected to them. */
module Mirror {
  import opened Words
  import opened Layout

  /** Where copy k keeps FAT sector s. */
  function CopySector(g: Geometry, k: nat, s: nat): nat {
    s + Times(k, g.sectsFat)
  }

  lemma CopyInside(g: Geometry, k: nat, s: nat)
    requires g.Valid() && g.InFat(s) && k < g.nFats
    ensures CopySector(g, k, s) < g.FatEnd()
    ensures k > 0 ==> g.fatbase + g.sectsFat <= CopySector(g, k, s)
  {
    TimesMono(k, g.nFats, g.sectsFat);
    if k > 0 {
      TimesMono(0, k, g.sectsFat);
    }
  }

  lemma CopyUnique(g: Geometry, k: nat, s: nat, l: nat, t: nat)
    requires g.InFat(s) && g.InFat(t)
    requires CopySector(g, k, s) == CopySector(g, l, t)
    ensures k == l && s == t
  {
    TimesUnique(k, s - g.fatbase, l, t - g.fatbase, g.sectsFat);
  }

  /** All FAT copies hold the same bytes, sector dirty excepted (0 excepts nothing). */
  ghost predicate CopiesAgree(g: Geometry, image: seq<Sector>, dirty: nat)
    requires g.Valid() && g.FatEnd() <= |image|
  {
    forall k: nat, s: nat {:trigger CopySector(g, k, s)} ::
      k < g.nFats && g.InFat(s) && s != dirty ==>
        (CopyInside(g, k, s); image[CopySector(g, k, s)]) == image[s]
  }

  /** Sector s of the table is found again k table lengths further on, for every copy k. */
  lemma CopyFound(g: Geometry, image: seq<Sector>, k: nat, s: nat)
    requires g.Valid() && g.FatEnd() <= |image| && CopiesAgree(g, image, 0)
    requires k < g.nFats && g.fatbase <= s < g.fatbase + g.sectsFat
    ensures s + k * g.sectsFat < |image| && image[s + k * g.sectsFat] == image[s]
  {
    CopyInside(g, k, s);
    TimesIsProduct(k, g.sectsFat);
    assert CopySector(g, k, s) == s + k * g.sectsFat;
  }

  /** The image after copies 1 .. j of FAT sector wsect are stored. */
  ghost function Reflect(g: Geometry, image: seq<Sector>, wsect: nat, data: Sector, j: nat): (r: seq<Sector>)
    requires g.Valid() && g.FatEnd() <= |image| && g.InFat(wsect) && j < g.nFats
    ensures |r| == |image|
    ensures forall s :: 0 <= s < |image| && g.Live(s) ==> r[s] == image[s]
  {
    if j == 0 then image
    else
      CopyInside(g, j, wsect);
      Reflect(g, image, wsect, data, j - 1)[CopySector(g, j, wsect) := data]
  }

  lemma {:induction false} ReflectAt(g: Geometry, image: seq<Sector>, wsect: nat, data: Sector, j: nat, k: nat, s: nat)
    requires g.Valid() && g.FatEnd() <= |image| && g.InFat(wsect) && j < g.nFats
    requires k < g.nFats && g.InFat(s)
    ensures CopySector(g, k, s) < |image|
    ensures Reflect(g, image, wsect, data, j)[CopySector(g, k, s)]
            == if s == wsect && 1 <= k <= j then data else image[CopySector(g, k, s)]
  {
    CopyInside(g, k, s);
    if j > 0 {
      CopyInside(g, j, wsect);
      ReflectAt(g, image, wsect, data, j - 1, k, s);
      if CopySector(g, k, s) == CopySector(g, j, wsect) {
        CopyUnique(g, k, s, j, wsect);
      }
    }
  }

  /** Writing a FAT sector back and reflecting it restores the agreement of all copies. */
  lemma ReflectAgrees(g: Geometry, image: seq<Sector>, wsect: nat, data: Sector)
    requires g.Valid() && g.FatEnd() <= |image| && g.InFat(wsect)
    requires CopiesAgree(g, image, wsect)
    ensures CopiesAgree(g, Reflect(g, image[wsect := data], wsect, data, g.nFats - 1), 0)
  {
    var mid := image[wsect := data];
    var r := Reflect(g, mid, wsect, data, g.nFats - 1);
    forall k: nat, s: nat | k < g.nFats && g.InFat(s)
      ensures CopySector(g, k, s) < |image| && r[CopySector(g, k, s)] == r[s]
    {
      ReflectAt(g, mid, wsect, data, g.nFats - 1, k, s);
      CopyInside(g, k, s);
      if s != wsect {
        assert image[CopySector(g, k, s)] == image[s];
      }
    }
  }

  /** A sector outside the FAT area has no copies. */
  lemma OutsideAgrees(g: Geometry, image: seq<Sector>, wsect: nat, data: Sector)
    requires g.Valid() && g.FatEnd() <= wsect < |image|
    requires CopiesAgree(g, image, wsect)
    ensures CopiesAgree(g, image[wsect := data], 0)
  {
    forall k: nat, s: nat | k < g.nFats && g.InFat(s)
      ensures CopySector(g, k, s) < |image| && image[wsect := data][CopySector(g, k, s)] == image[wsect := data][s]
    {
      CopyInside(g, k, s);
      assert image[CopySector(g, k, s)] == image[s];
    }
  }

  /** Agreement is a matter of the sectors below the end of the FAT area. */
  lemma AgreeBelow(g: Geometry, a: seq<Sector>, b: seq<Sector>, dirty: nat)
    requires g.Valid() && g.FatEnd() <= |a| == |b|
    requires forall s :: 0 <= s < g.FatEnd() ==> a[s] == b[s]
    requires CopiesAgree(g, a, dirty)
    ensures CopiesAgree(g, b, dirty)
  {
    forall k: nat, s: nat | k < g.nFats && g.InFat(s) && s != dirty
      ensures CopySector(g, k, s) < |b| && b[CopySector(g, k, s)] == b[s]
    {
      CopyInside(g, k, s);
      assert a[CopySector(g, k, s)] == a[s];
    }
  }

  lemma AgreeExcept(g: Geometry, image: seq<Sector>, dirty: nat)
    requires g.Valid() && g.FatEnd() <= |image|
    ensures CopiesAgree(g, image, 0) ==> CopiesAgree(g, image, dirty)
  {
  }

  /** A sector outside the FAT is no exception to the agreement. */
  lemma DirtyOutside(g: Geometry, image: seq<Sector>, dirty: nat)
    requires g.Valid() && g.FatEnd() <= |image| && !g.InFat(dirty)
    ensures CopiesAgree(g, image, dirty) <==> CopiesAgree(g, image, 0)
  {
    hide Times;
  }
}
