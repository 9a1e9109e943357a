/** A directory table as a list of 32-byte entries, and the finite map from names it stands for. */
module Listings {
  import opened Words

  type Entry = e: seq<byte> | |e| == 32 witness seq(32, i => 0)

  /** The 11 bytes of a short name. */
  type Name = n: seq<byte> | |n| == 11 witness seq(11, i => 0)

  datatype Option<T> = None | Some(value: T)

  const DELETED: byte := 0xE5
  const AM_VOL := 8

  /** The entry is a name's: not a volume label, and the same 11 bytes. */
  predicate Matches(e: Entry, n: Name) {
    e[11] as int / AM_VOL % 2 == 0 && e[..11] == n
  }

  /** An entry dir_register may use. */
  predicate Unused(e: Entry) {
    e[0] == DELETED || e[0] == 0
  }

  /** Where dir_find stops from index i on: at the first match in front of the end mark. */
  function FindFrom(es: seq<Entry>, n: Name, i: nat): (r: Option<nat>)
    requires i <= |es|
    decreases |es| - i
  {
    if i == |es| || es[i][0] == 0 then None
    else if Matches(es[i], n) then Some(i)
    else FindFrom(es, n, i + 1)
  }

  /** The finite map: the entry a name stands for. */
  function Lookup(es: seq<Entry>, n: Name): Option<Entry> {
    match FindFrom(es, n, 0)
    case None => None
    case Some(i) => if i < |es| then Some(es[i]) else None
  }

  /** Nothing live behind the first entry that marks the end. */
  ghost predicate Tidy(es: seq<Entry>) {
    forall i, j :: 0 <= i < j < |es| && es[i][0] == 0 ==> es[j][0] == 0
  }

  /** An entry in use for a name. */
  ghost predicate Named(e: Entry) {
    !Unused(e) && e[11] as int / AM_VOL % 2 == 0
  }

  /** No name twice. */
  ghost predicate Unique(es: seq<Entry>) {
    forall i, j :: 0 <= i < j < |es| && Named(es[i]) && Named(es[j]) ==> es[i][..11] != es[j][..11]
  }

  /** A name create_name can produce: its first byte is neither the end mark nor the deletion mark. */
  predicate Storable(n: Name) {
    n[0] != 0 && n[0] != DELETED
  }

  /** What a search result means, in both directions. */
  ghost predicate Found(es: seq<Entry>, n: Name, r: Option<nat>) {
    match r
    case Some(i) => i < |es| && Matches(es[i], n) && (forall j :: 0 <= j <= i ==> es[j][0] != 0)
                    && (forall j :: 0 <= j < i ==> !Matches(es[j], n))
    case None => forall i :: 0 <= i < |es| && Matches(es[i], n) ==> exists j :: 0 <= j <= i && es[j][0] == 0
  }

  lemma {:induction false} FindMeans(es: seq<Entry>, n: Name, i: nat)
    requires i <= |es|
    requires forall j :: 0 <= j < i ==> es[j][0] != 0 && !Matches(es[j], n)
    ensures Found(es, n, FindFrom(es, n, i))
    decreases |es| - i
  {
    if i < |es| && es[i][0] != 0 && !Matches(es[i], n) {
      FindMeans(es, n, i + 1);
    }
  }

  /** The meaning leaves no choice. */
  lemma FoundUnique(es: seq<Entry>, n: Name, r: Option<nat>, q: Option<nat>)
    requires Found(es, n, r) && Found(es, n, q)
    ensures r == q
  {
    if r.Some? {
      MatchHere(es, n, r.value);
    }
    if q.Some? {
      MatchHere(es, n, q.value);
    }
  }

  lemma MatchHere(es: seq<Entry>, n: Name, i: nat)
    ensures i < |es| && Matches(es[i], n) && (forall j :: 0 <= j <= i ==> es[j][0] != 0) ==> !Found(es, n, None)
    ensures forall k :: 0 <= k < i < |es| && Matches(es[i], n) ==> !Found(es, n, Some(k)) || Matches(es[k], n)
  {
  }

  /** The search as dir_find does it, and the meaning of its result, are the same thing. */
  lemma FindExactly(es: seq<Entry>, n: Name, r: Option<nat>)
    ensures Found(es, n, r) <==> FindFrom(es, n, 0) == r
  {
    FindMeans(es, n, 0);
    if Found(es, n, r) {
      FoundUnique(es, n, r, FindFrom(es, n, 0));
    }
  }

  // ----- dir_register -----

  /** i is the first entry dir_register may use. */
  ghost predicate FirstBlank(es: seq<Entry>, i: nat) {
    i < |es| && Unused(es[i]) && forall j :: 0 <= j < i ==> !Unused(es[j])
  }

  ghost predicate NoBlank(es: seq<Entry>) {
    forall j :: 0 <= j < |es| ==> !Unused(es[j])
  }

  /** The table with m entries of a zeroed cluster behind it. */
  function Stretched(es: seq<Entry>, m: nat): (r: seq<Entry>)
    ensures |r| == |es| + m
    ensures forall i :: 0 <= i < |es| ==> r[i] == es[i]
    ensures forall i :: |es| <= i < |r| ==> r[i][0] == 0
  {
    es + seq(m, i => seq(32, k => 0))
  }

  lemma NoEarlyMatch(es: seq<Entry>, n: Name, i: nat)
    requires NoBlank(es) && Found(es, n, None)
    ensures i < |es| ==> !Matches(es[i], n)
  {
  }

  /** Stretching changes no lookup and keeps the table tidy. */
  lemma StretchKeeps(es: seq<Entry>, m: nat)
    requires NoBlank(es)
    ensures Tidy(Stretched(es, m))
    ensures Unique(es) ==> Unique(Stretched(es, m))
    ensures forall n: Name :: Lookup(Stretched(es, m), n) == Lookup(es, n)
  {
    var fs := Stretched(es, m);
    forall n: Name
      ensures Lookup(fs, n) == Lookup(es, n)
    {
      var r := FindFrom(es, n, 0);
      FindMeans(es, n, 0);
      assert Found(fs, n, r) by {
        if r.None? {
          forall i | 0 <= i < |fs| && Matches(fs[i], n)
            ensures exists j :: 0 <= j <= i && fs[j][0] == 0
          {
            NoEarlyMatch(es, n, i);
          }
        }
      }
      FindExactly(fs, n, r);
    }
  }

  /** The new entry is found under its name; every other lookup is as before. */
  lemma RegisterFinds(es: seq<Entry>, i: nat, e: Entry, n: Name)
    requires Tidy(es) && FirstBlank(es, i) && Storable(e[..11]) && Storable(n)
    requires e[11] == 0
    requires Lookup(es, e[..11]) == None
    ensures Lookup(es[i := e], n) == if n == e[..11] then Some(e) else Lookup(es, n)
  {
    var fs := es[i := e];
    var r := FindFrom(es, n, 0);
    FindMeans(es, n, 0);
    if n == e[..11] {
      RegisterNew(es, i, e);
      FindExactly(fs, n, Some(i));
    } else {
      assert Found(fs, n, r) by {
        RegisterOther(es, i, e, n, r);
      }
      FindExactly(fs, n, r);
      if r.Some? {
        assert r.value != i;
      }
    }
  }

  lemma RegisterNew(es: seq<Entry>, i: nat, e: Entry)
    requires FirstBlank(es, i) && Storable(e[..11]) && e[11] == 0
    requires Lookup(es, e[..11]) == None
    ensures Found(es[i := e], e[..11], Some(i))
  {
    var n: Name := e[..11];
    FindMeans(es, n, 0);
    assert e[0] == n[0];
    var r := FindFrom(es, n, 0);
    forall j | 0 <= j < i
      ensures !Matches(es[j], n) && es[j][0] != 0
    {
      assert !Unused(es[j]);
    }
  }

  /** The end mark in front of a match that is not found. */
  lemma EndBefore(es: seq<Entry>, n: Name, k: nat) returns (j: nat)
    requires Found(es, n, None) && k < |es| && Matches(es[k], n)
    ensures j <= k && es[j][0] == 0
  {
    j :| 0 <= j <= k && es[j][0] == 0;
  }

  lemma FirstByte(es: seq<Entry>, n: Name, k: nat)
    requires k < |es|
    ensures Matches(es[k], n) ==> es[k][0] == n[0]
  {
    assert es[k][..11][0] == es[k][0];
  }

  /** In a tidy table a name that is not found matches nowhere. */
  lemma NoneMatches(es: seq<Entry>, n: Name)
    requires Tidy(es) && n[0] != 0 && Found(es, n, None)
    ensures forall k :: 0 <= k < |es| ==> !Matches(es[k], n)
  {
    forall k: nat | k < |es|
      ensures !Matches(es[k], n)
    {
      FirstByte(es, n, k);
    }
  }

  lemma RegisterOther(es: seq<Entry>, i: nat, e: Entry, n: Name, r: Option<nat>)
    requires Tidy(es) && FirstBlank(es, i) && Storable(e[..11]) && Storable(n)
    requires n != e[..11] && Found(es, n, r)
    ensures Found(es[i := e], n, r)
    ensures r.Some? ==> r.value != i
  {
    var fs := es[i := e];
    assert !Matches(es[i], n) by {
      assert es[i][..11][0] == es[i][0];
    }
    assert e[0] == e[..11][0];
    if r == None {
      NoneMatches(es, n);
      assert forall k :: 0 <= k < |fs| ==> !Matches(fs[k], n);
    }
  }

  lemma NamedAbsent(es: seq<Entry>, n: Name, j: nat)
    requires Tidy(es) && Found(es, n, None) && j < |es| && Named(es[j])
    ensures es[j][..11] != n
  {
  }

  /** Registering an absent name keeps the table tidy and its names unique. */
  lemma RegisterKeeps(es: seq<Entry>, i: nat, e: Entry)
    requires Tidy(es) && Unique(es) && FirstBlank(es, i) && Storable(e[..11])
    requires Lookup(es, e[..11]) == None
    ensures Tidy(es[i := e]) && Unique(es[i := e])
  {
    var n: Name := e[..11];
    FindMeans(es, n, 0);
    assert e[0] == n[0];
    forall j | 0 <= j < |es| && Named(es[j])
      ensures es[j][..11] != n
    {
      NamedAbsent(es, n, j);
    }
  }

  /** The entry dir_register makes of a 12-byte name: 11 bytes, the NT flags, and zeros. */
  function NewEntry(fn: seq<byte>): (e: Entry)
    requires |fn| == 12
    ensures e[..11] == fn[..11] && e[11] == 0
  {
    fn[..11] + [0, NtFlags(fn[11])] + seq(19, k => 0)
  }

  /** The two bits NS_BODY and NS_EXT of the flag byte: fn[11] & 0x18. */
  function NtFlags(b: byte): byte {
    b as int / 8 % 4 * 8
  }

  /** What the bytes of an entry say: the name, the label bit (bit 3 of the attributes), and the marks of an unused entry. */
  lemma EntryMeans(e: Entry, n: Name)
    ensures Matches(e, n) <==> (forall k :: 0 <= k < 11 ==> e[k] == n[k]) && e[11] as int / 8 % 2 == 0
    ensures Named(e) <==> e[0] != 0xE5 && e[0] != 0 && e[11] as int / 8 % 2 == 0
    ensures Unused(e) <==> e[0] == 0xE5 || e[0] == 0
    ensures Deleted(e)[0] == 0xE5 && forall k :: 1 <= k < 32 ==> Deleted(e)[k] == e[k]
  {
    if forall k :: 0 <= k < 11 ==> e[k] == n[k] {
      assert e[..11] == n;
    } else {
      var k :| 0 <= k < 11 && e[k] != n[k];
      assert e[..11][k] == e[k];
    }
  }

  /** The bytes of a new entry: the name, bits 3 and 4 of its flags in byte 12, nothing else. */
  lemma NewBytes(fn: seq<byte>, k: nat)
    requires |fn| == 12 && k < 32
    ensures k < 11 ==> NewEntry(fn)[k] == fn[k]
    ensures k == 11 || k > 12 ==> NewEntry(fn)[k] == 0
    ensures NewEntry(fn)[12] as int / 8 % 2 == fn[11] as int / 8 % 2 && NewEntry(fn)[12] as int / 16 % 2 == fn[11] as int / 16 % 2
    ensures NewEntry(fn)[12] as int % 8 == 0 && NewEntry(fn)[12] as int < 32
  {
    assert NewEntry(fn)[12] == NtFlags(fn[11]);
    hide NewEntry;
    TwoBits(fn[11]);
    if k < 11 {
      assert NewEntry(fn)[..11][k] == fn[..11][k];
    }
  }

  lemma TwoBits(b: byte)
    ensures NtFlags(b) as int / 8 % 2 == b as int / 8 % 2 && NtFlags(b) as int / 16 % 2 == b as int / 16 % 2
    ensures NtFlags(b) as int % 8 == 0 && NtFlags(b) as int < 32
  {
    var q := b as int / 8;
    assert b as int / 16 == q / 2;
    var r := q % 4;
    assert q == 4 * (q / 4) + r;
    assert NtFlags(b) as int == 8 * r;
    assert (8 * r) / 16 == r / 2;
  }

  // ----- dir_remove -----

  function Deleted(e: Entry): Entry {
    e[0 := DELETED]
  }

  /** The removed name is not found any more; every other lookup is as before. */
  lemma RemoveLoses(es: seq<Entry>, i: nat, n: Name, m: Name)
    requires Tidy(es) && Unique(es) && Storable(n) && Storable(m)
    requires FindFrom(es, n, 0) == Some(i)
    ensures i < |es|
    ensures Lookup(es[i := Deleted(es[i])], m) == if m == n then None else Lookup(es, m)
  {
    FindMeans(es, n, 0);
    var fs := es[i := Deleted(es[i])];
    assert fs[i][..11][0] == DELETED;
    var r := FindFrom(es, m, 0);
    FindMeans(es, m, 0);
    if m == n {
      assert Found(fs, n, None) by {
        RemoveOnly(es, i, n);
      }
      FindExactly(fs, n, None);
    } else {
      assert Found(fs, m, r) by {
        RemoveOther(es, i, m, r);
      }
      FindExactly(fs, m, r);
    }
  }

  lemma SecondMatch(es: seq<Entry>, i: nat, n: Name, k: nat)
    requires Unique(es) && Storable(n) && i < |es| && Matches(es[i], n) && k < |es| && k != i
    ensures !Matches(es[k], n)
  {
    FirstByte(es, n, k);
    FirstByte(es, n, i);
  }

  lemma RemoveOnly(es: seq<Entry>, i: nat, n: Name)
    requires Tidy(es) && Unique(es) && Storable(n) && i < |es| && Found(es, n, Some(i))
    ensures Found(es[i := Deleted(es[i])], n, None)
  {
    var fs := es[i := Deleted(es[i])];
    assert fs[i][..11][0] == DELETED;
    forall k | 0 <= k < |fs|
      ensures !Matches(fs[k], n)
    {
      if k != i {
        SecondMatch(es, i, n, k);
      }
    }
  }

  lemma RemoveOther(es: seq<Entry>, i: nat, m: Name, r: Option<nat>)
    requires i < |es| && Storable(m) && es[i][0] != 0 && !Matches(es[i], m) && Found(es, m, r)
    ensures Found(es[i := Deleted(es[i])], m, r)
  {
    var fs := es[i := Deleted(es[i])];
    assert fs[i][..11][0] == DELETED;
    if r.None? {
      forall k | 0 <= k < |fs| && Matches(fs[k], m)
        ensures exists j :: 0 <= j <= k && fs[j][0] == 0
      {
        assert fs[k][..11][0] == fs[k][0];
        var j := EndBefore(es, m, k);
        assert fs[j][0] == 0;
      }
    }
  }

  /** Removing an entry keeps the table tidy and its names unique. */
  lemma RemoveKeeps(es: seq<Entry>, i: nat)
    requires Tidy(es) && Unique(es) && i < |es| && es[i][0] != 0
    ensures Tidy(es[i := Deleted(es[i])]) && Unique(es[i := Deleted(es[i])])
  {
  }

  /** dir_remove undoes dir_register: every name is looked up as before the two. */
  lemma RemoveUndoes(es: seq<Entry>, i: nat, e: Entry, n: Name)
    requires Tidy(es) && Unique(es) && FirstBlank(es, i) && Storable(e[..11]) && Storable(n)
    requires e[11] == 0 && Lookup(es, e[..11]) == None
    ensures FindFrom(es[i := e], e[..11], 0) == Some(i)
    ensures Lookup(es[i := e][i := Deleted(e)], n) == Lookup(es, n)
  {
    RegisterNew(es, i, e);
    FindExactly(es[i := e], e[..11], Some(i));
    RegisterKeeps(es, i, e);
    RemoveLoses(es[i := e], i, e[..11], n);
    RegisterFinds(es, i, e, n);
  }

  // ----- the directory as a map -----

  /** What dir_register does to the entries: a zeroed stretch of m entries if none was blank, then one store. */
  ghost predicate Registered(es: seq<Entry>, m: nat, i: nat, e: Entry, fs: seq<Entry>) {
    && (m > 0 ==> NoBlank(es))
    && FirstBlank(Stretched(es, m), i)
    && fs == Stretched(es, m)[i := e]
  }

  lemma StretchedNothing(es: seq<Entry>)
    ensures Stretched(es, 0) == es
  {
  }

  /** Registering an absent name adds exactly that name to the map, stretched table or not. */
  lemma RegisterRefines(es: seq<Entry>, m: nat, i: nat, e: Entry, fs: seq<Entry>, n: Name)
    requires Tidy(es) && Unique(es) && Registered(es, m, i, e, fs)
    requires Storable(e[..11]) && Storable(n) && e[11] == 0 && Lookup(es, e[..11]) == None
    ensures Lookup(fs, n) == if n == e[..11] then Some(e) else Lookup(es, n)
    ensures Tidy(fs) && Unique(fs)
    ensures FindFrom(fs, e[..11], 0) == Some(i)
  {
    hide Tidy, Unique, NoBlank, FindFrom, Lookup, Found;
    var mid := Stretched(es, m);
    if m == 0 {
      StretchedNothing(es);
    } else {
      StretchKeeps(es, m);
    }
    RegisterFinds(mid, i, e, n);
    RegisterKeeps(mid, i, e);
    RegisterNew(mid, i, e);
    FindExactly(mid[i := e], e[..11], Some(i));
  }

  /** A proper table: nothing live behind the end mark, no name twice. */
  ghost predicate Proper(es: seq<Entry>) {
    Tidy(es) && Unique(es)
  }

  /** The map of fs is the map of es with entry e added under its name. */
  ghost predicate Adds(es: seq<Entry>, e: Entry, fs: seq<Entry>) {
    forall n: Name :: Storable(n) ==> Lookup(fs, n) == if n == e[..11] then Some(e) else Lookup(es, n)
  }

  /** The map of fs is the map of es without the name n. */
  ghost predicate Drops(es: seq<Entry>, n: Name, fs: seq<Entry>) {
    forall m: Name :: Storable(m) ==> Lookup(fs, m) == if m == n then None else Lookup(es, m)
  }

  lemma RegisterAdds(es: seq<Entry>, m: nat, i: nat, e: Entry, fs: seq<Entry>)
    requires Proper(es) && Registered(es, m, i, e, fs)
    requires Storable(e[..11]) && e[11] == 0 && Lookup(es, e[..11]) == None
    ensures Proper(fs) && Adds(es, e, fs)
  {
    hide Tidy, Unique, Registered, Lookup;
    RegisterRefines(es, m, i, e, fs, e[..11]);
    forall n: Name | Storable(n)
      ensures Lookup(fs, n) == if n == e[..11] then Some(e) else Lookup(es, n)
    {
      RegisterRefines(es, m, i, e, fs, n);
    }
  }

  lemma RemoveDrops(es: seq<Entry>, i: nat, n: Name)
    requires Proper(es) && Storable(n) && FindFrom(es, n, 0) == Some(i)
    ensures i < |es| && Proper(es[i := Deleted(es[i])]) && Drops(es, n, es[i := Deleted(es[i])])
  {
    hide Tidy, Unique, Lookup;
    FindMeans(es, n, 0);
    RemoveKeeps(es, i);
    forall m: Name | Storable(m)
      ensures Lookup(es[i := Deleted(es[i])], m) == if m == n then None else Lookup(es, m)
    {
      RemoveLoses(es, i, n, m);
    }
  }

  // ----- names as a set -----

  /** An entry of the same name: what f_sync rewrites is not part of it. */
  ghost predicate SameName(e: Entry, d: Entry) {
    d[..11] == e[..11] && d[11] as int / AM_VOL % 2 == e[11] as int / AM_VOL % 2
  }

  ghost predicate SameNames(es: seq<Entry>, ds: seq<Entry>) {
    |ds| == |es| && forall k :: 0 <= k < |es| ==> SameName(es[k], ds[k])
  }

  lemma SameNameFacts(e: Entry, d: Entry, n: Name)
    requires SameName(e, d)
    ensures Matches(d, n) <==> Matches(e, n)
    ensures d[0] == e[0] && (Unused(d) <==> Unused(e)) && (Named(d) <==> Named(e))
  {
    assert d[0] == d[..11][0] && e[0] == e[..11][0];
  }

  /** The search depends on the names only. */
  lemma {:induction false} SameFound(es: seq<Entry>, ds: seq<Entry>, n: Name, i: nat)
    requires SameNames(es, ds) && i <= |es|
    ensures FindFrom(ds, n, i) == FindFrom(es, n, i)
    decreases |es| - i
  {
    if i < |es| {
      SameNameFacts(es[i], ds[i], n);
      SameFound(es, ds, n, i + 1);
    }
  }

  lemma SameProper(es: seq<Entry>, ds: seq<Entry>)
    requires SameNames(es, ds) && Proper(es)
    ensures Proper(ds)
  {
    hide SameName;
    forall k | 0 <= k < |es|
      ensures ds[k][0] == es[k][0] && (Named(ds[k]) <==> Named(es[k])) && ds[k][..11] == es[k][..11]
    {
      SameKey(es[k], ds[k]);
    }
  }

  lemma SameKey(e: Entry, d: Entry)
    requires SameName(e, d)
    ensures d[0] == e[0] && (Named(d) <==> Named(e)) && d[..11] == e[..11]
  {
    SameNameFacts(e, d, e[..11]);
  }

  /** The directory as the set of the names that are found in it. */
  ghost function Names(es: seq<Entry>): (s: set<Name>)
    ensures forall n: Name :: n in s <==> Storable(n) && Lookup(es, n).Some?
  {
    var s := set k | 0 <= k < |es| && Storable(es[k][..11]) && Lookup(es, es[k][..11]).Some? :: es[k][..11];
    assert forall n: Name :: Storable(n) && Lookup(es, n).Some? ==> n in s by {
      forall n: Name | Storable(n) && Lookup(es, n).Some?
        ensures n in s
      {
        FindMeans(es, n, 0);
        var i := FindFrom(es, n, 0).value;
        assert es[i][..11] == n;
      }
    }
    s
  }

  lemma NamesSame(es: seq<Entry>, ds: seq<Entry>)
    requires SameNames(es, ds)
    ensures Names(ds) == Names(es)
  {
    hide SameNames;
    forall n: Name
      ensures Lookup(ds, n).Some? <==> Lookup(es, n).Some?
    {
      SameLookup(es, ds, n);
    }
  }

  lemma SameLookup(es: seq<Entry>, ds: seq<Entry>, n: Name)
    requires SameNames(es, ds)
    ensures Lookup(ds, n).Some? <==> Lookup(es, n).Some?
  {
    hide SameName;
    SameFound(es, ds, n, 0);
    FindMeans(es, n, 0);
  }

  lemma NamesAdd(es: seq<Entry>, e: Entry, ds: seq<Entry>)
    requires Adds(es, e, ds) && Storable(e[..11])
    ensures Names(ds) == Names(es) + {e[..11]}
  {
    hide Lookup, Storable;
  }

  lemma NamesDrop(es: seq<Entry>, n: Name, ds: seq<Entry>)
    requires Drops(es, n, ds)
    ensures Names(ds) == Names(es) - {n}
  {
    hide Lookup, Storable;
  }
}
