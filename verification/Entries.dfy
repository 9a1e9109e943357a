/** The 32-byte directory entry. */
module Entries {
  import opened Words

  const DIR_ATTR := 11
  const DIR_NTRES := 12
  const DIR_FST_CLUS_HI := 20
  const DIR_WRT_TIME := 22
  const DIR_FST_CLUS_LO := 26
  const DIR_FILE_SIZE := 28

  /** The offset of an entry in its sector. */
  type Slot = o: nat | o <= 480

  /** The size recorded in the entry at offset o. */
  function SizeOf(s: Sector, o: Slot): dword {
    LdDword(s, o + DIR_FILE_SIZE)
  }

  /** The start cluster recorded in the entry at offset o: two words, the high one first in the entry. */
  function StartOf(s: Sector, o: Slot): dword {
    LdWord(s, o + DIR_FST_CLUS_HI) as int * 0x1_0000 + LdWord(s, o + DIR_FST_CLUS_LO) as int
  }

  /** The attribute byte with AM_ARC set. */
  function Archived(a: byte): byte {
    if a as int / 0x20 % 2 == 1 then a else a as int + 0x20
  }

  /** The sector after f_sync updates the entry at offset o, store by store. */
  function Updated(s: Sector, o: Slot, fsize: dword, clst: dword, tim: dword): (t: Sector) {
    var s1 := s[o + DIR_ATTR := Archived(s[o + DIR_ATTR])];
    var s2 := StDword(s1, o + DIR_FILE_SIZE, fsize);
    var s3 := StWord(s2, o + DIR_FST_CLUS_LO, clst % 0x1_0000);
    var s4 := StWord(s3, o + DIR_FST_CLUS_HI, clst / 0x1_0000);
    StDword(s4, o + DIR_WRT_TIME, tim)
  }

  /** A word or double word depends on its own bytes only. */
  lemma SameWord(s: seq<byte>, t: seq<byte>, i: nat)
    requires |s| == |t| && i + 1 < |s| && s[i] == t[i] && s[i + 1] == t[i + 1]
    ensures LdWord(s, i) == LdWord(t, i)
  {
  }

  lemma SameDword(s: seq<byte>, t: seq<byte>, i: nat)
    requires |s| == |t| && i + 3 < |s|
    requires s[i] == t[i] && s[i + 1] == t[i + 1] && s[i + 2] == t[i + 2] && s[i + 3] == t[i + 3]
    ensures LdDword(s, i) == LdDword(t, i)
  {
  }

  /** The size is bytes 28 to 31 of the entry; the start cluster has its low half in bytes 26 and 27, its high half in 20 and 21. */
  lemma FieldBytes(s: Sector, o: Slot)
    ensures SizeOf(s, o) == s[o + 28] as int + 0x100 * s[o + 29] as int + 0x1_0000 * s[o + 30] as int + 0x100_0000 * s[o + 31] as int
    ensures StartOf(s, o) == s[o + 26] as int + 0x100 * s[o + 27] as int + 0x1_0000 * s[o + 20] as int + 0x100_0000 * s[o + 21] as int
  {
    hide LdWord, LdDword;
    DwordBytes(s, o + 28);
    DwordBytes(s, o + 26);
    DwordBytes(s, o + 20);
  }

  /** The archive bit is bit 5; the others stay. */
  lemma ArchiveBit(a: byte)
    ensures Archived(a) as int / 0x20 % 2 == 1 && Archived(a) as int % 0x20 == a as int % 0x20
    ensures Archived(a) as int / 0x40 == a as int / 0x40
  {
  }

  /** The updated entry reads back, and no byte but its attribute, where the archive bit is set, and its last twelve changes. */
  lemma UpdatedReads(s: Sector, o: Slot, fsize: dword, clst: dword, tim: dword)
    ensures var t := Updated(s, o, fsize, clst, tim);
            && SizeOf(t, o) == fsize && StartOf(t, o) == clst
            && (forall k :: 0 <= k < 512 && k != o + DIR_ATTR && !(o + DIR_FST_CLUS_HI <= k < o + 32) ==> t[k] == s[k])
            && t[o + DIR_ATTR] == Archived(s[o + DIR_ATTR])
            && LdDword(t, o + 22) == tim
  {
    hide LdWord, LdDword, StWord, StDword, Archived;
    var s1 := s[o + DIR_ATTR := Archived(s[o + DIR_ATTR])];
    var s2 := StDword(s1, o + DIR_FILE_SIZE, fsize);
    var s3 := StWord(s2, o + DIR_FST_CLUS_LO, clst % 0x1_0000);
    var s4 := StWord(s3, o + DIR_FST_CLUS_HI, clst / 0x1_0000);
    var t := StDword(s4, o + DIR_WRT_TIME, tim);
    SameDword(s2, t, o + DIR_FILE_SIZE);
    SameWord(s3, t, o + DIR_FST_CLUS_LO);
    SameWord(s4, t, o + DIR_FST_CLUS_HI);
  }
}
