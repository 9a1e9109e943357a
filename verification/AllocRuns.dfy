/** Whole runs of allocation and release: the chain forest, and the conservation of clusters. */
module AllocRuns {
  import opened Words
  import opened Layout
  import opened Codec
  import opened Disk
  import opened Chains
  import opened FileSystem
  import opened Allocation

  /** The table and its live chains. */
  datatype State = State(fat: seq<dword>, chains: seq<seq<nat>>)

  ghost predicate InSome(chains: seq<seq<nat>>, c: nat) {
    exists k :: 0 <= k < |chains| && c in chains[k]
  }

  /** No cluster is lost: what no live chain holds is free. */
  ghost predicate Tight(fat: seq<dword>, chains: seq<seq<nat>>) {
    forall c :: 2 <= c < |fat| && fat[c] != 0 ==> InSome(chains, c)
  }

  ghost function Total(chains: seq<seq<nat>>): nat {
    if chains == [] then 0 else Total(chains[..|chains| - 1]) + |chains[|chains| - 1]|
  }

  ghost predicate Inv(s: State) {
    && 2 <= |s.fat| <= 0x0FFF_FFFF
    && Forest(s.fat, s.chains)
    && Tight(s.fat, s.chains)
  }

  ghost predicate Sized(s: State, eoc: dword) {
    2 <= |s.fat| <= 0x0FFF_FFFF && eoc >= |s.fat|
  }

  function Last(cs: seq<nat>): nat
    requires cs != []
  {
    cs[|cs| - 1]
  }

  /** A new chain: create_chain(0) returned r. */
  ghost predicate CreateStep(s: State, t: State, scl: nat, eoc: dword, r: dword) {
    && Sized(s, eoc)
    && Created(s.fat, 0, scl, eoc, t.fat, r)
    && t.chains == (if r >= 2 then s.chains + [[r]] else s.chains)
  }

  /** A stretched chain: create_chain, given the last cluster of chain k, returned r. */
  ghost predicate StretchStep(s: State, t: State, k: nat, eoc: dword, r: dword) {
    && Sized(s, eoc)
    && k < |s.chains| && s.chains[k] != []
    && Created(s.fat, Last(s.chains[k]), Last(s.chains[k]), eoc, t.fat, r)
    && t.chains == (if r >= 2 then s.chains[k := s.chains[k] + [r]] else s.chains)
  }

  /** A removed chain: remove_chain was given the first cluster of chain k. */
  ghost predicate RemoveStep(s: State, t: State, k: nat) {
    && k < |s.chains| && s.chains[k] != [] && s.chains[k][0] >= 2
    && t.fat == Released(s.fat, s.chains[k][0]).0
    && t.chains == s.chains[..k] + s.chains[k + 1..]
  }

  /** A truncated chain: cluster i of chain k is closed and what followed it is released. */
  ghost predicate TruncateStep(s: State, t: State, k: nat, i: nat, eoc: dword) {
    && Sized(s, eoc)
    && k < |s.chains| && i + 1 < |s.chains[k]|
    && s.chains[k][i] < |s.fat| && s.chains[k][i + 1] >= 2
    && t.fat == Released(s.fat[s.chains[k][i] := eoc], s.chains[k][i + 1]).0
    && t.chains == s.chains[k := s.chains[k][..i + 1]]
  }

  ghost predicate Step(s: State, t: State) {
    || (exists scl, eoc, r :: CreateStep(s, t, scl, eoc, r))
    || (exists k, eoc, r :: StretchStep(s, t, k, eoc, r))
    || (exists k :: RemoveStep(s, t, k))
    || (exists k, i, eoc :: TruncateStep(s, t, k, i, eoc))
  }

  /** A tight forest has no entry that create_chain would take for an error. */
  lemma NoBadEntry(fat: seq<dword>, chains: seq<seq<nat>>)
    requires Forest(fat, chains) && Tight(fat, chains)
    ensures !HasBadEntry(fat)
  {
    forall c | 2 <= c < |fat|
      ensures fat[c] != 1
    {
      if fat[c] != 0 {
        assert InSome(chains, c);
        var k :| 0 <= k < |chains| && c in chains[k];
        ChainUsed(fat, chains[k], c);
      }
    }
  }

  /** Only entry r got in use, and it is in a live chain now. */
  lemma TightGrown(fat: seq<dword>, chains: seq<seq<nat>>, fat': seq<dword>, chains': seq<seq<nat>>, r: nat)
    requires Tight(fat, chains) && |fat'| == |fat|
    requires forall c :: 2 <= c < |fat| && c != r && fat'[c] != 0 ==> fat[c] != 0
    requires |chains| <= |chains'|
    requires forall k :: 0 <= k < |chains| ==> chains[k] <= chains'[k]
    requires InSome(chains', r)
    ensures Tight(fat', chains')
  {
    forall c | 2 <= c < |fat| && fat'[c] != 0
      ensures InSome(chains', c)
    {
      if c != r {
        assert InSome(chains, c);
        var k :| 0 <= k < |chains| && c in chains[k];
        assert c in chains'[k];
      }
    }
  }

  lemma CreateKeeps(s: State, t: State, scl: nat, eoc: dword, r: dword)
    requires Inv(s) && CreateStep(s, t, scl, eoc, r)
    ensures Inv(t)
  {
    hide FreeCount, Tight;
    NoBadEntry(s.fat, s.chains);
    if r >= 2 {
      hide Forest;
      ForestCreate(s.fat, s.chains, r, eoc);
      assert t.chains[|s.chains|] == [r];
      TightGrown(s.fat, s.chains, t.fat, t.chains, r);
    }
  }

  lemma StretchKeeps(s: State, t: State, k: nat, eoc: dword, r: dword)
    requires Inv(s) && StretchStep(s, t, k, eoc, r)
    ensures Inv(t)
  {
    hide FreeCount, Tight;
    NoBadEntry(s.fat, s.chains);
    var cs := s.chains[k];
    ChainUsed(s.fat, cs, Last(cs));
    assert s.fat[Last(cs)] >= |s.fat|;
    if r >= 2 {
      hide Forest;
      ForestStretch(s.fat, s.chains, k, r, eoc);
      assert t.chains[k] == cs + [r];
      ChangedOnly(s.fat, Last(cs), r, eoc);
      TightGrown(s.fat, s.chains, t.fat, t.chains, r);
    }
  }

  lemma ChangedOnly(fat: seq<dword>, last: nat, n: dword, eoc: dword)
    requires n < |fat| && 2 <= last < |fat| && fat[last] != 0
    ensures forall c :: 2 <= c < |fat| && c != n && Linked(fat, last, n, eoc)[c] != 0 ==> fat[c] != 0
  {
  }

  lemma RemoveKeeps(s: State, t: State, k: nat)
    requires Inv(s) && RemoveStep(s, t, k)
    ensures Inv(t)
  {
    hide FreeCount, Forest;
    ForestRemove(s.fat, s.chains, k);
    forall c | 2 <= c < |t.fat| && t.fat[c] != 0
      ensures InSome(t.chains, c)
    {
      assert InSome(s.chains, c);
      var l :| 0 <= l < |s.chains| && c in s.chains[l];
      assert l != k;
      var l' := if l < k then l else l - 1;
      assert t.chains[l'] == s.chains[l];
    }
  }

  /** Closing cluster i splits chain k in two. */
  lemma CloseSplits(fat: seq<dword>, chains: seq<seq<nat>>, k: nat, i: nat, eoc: dword)
    requires Forest(fat, chains) && k < |chains| && i + 1 < |chains[k]| && eoc >= |fat|
    ensures chains[k][i] < |fat|
    ensures Forest(fat[chains[k][i] := eoc], chains[k := chains[k][..i + 1]] + [chains[k][i + 1..]])
  {
    var cs := chains[k];
    var head, tail := cs[..i + 1], cs[i + 1..];
    var t := fat[cs[i] := eoc];
    SplitChain(fat, cs, i, eoc);
    forall l | 0 <= l < |chains| && l != k
      ensures IsChain(t, chains[l]) && Disjoint(chains[l], head) && Disjoint(head, chains[l]) && Disjoint(chains[l], tail)
    {
      assert forall c :: c in head || c in tail ==> c in cs;
      assert cs[i] in cs;
      assert Disjoint(chains[l], cs) || Disjoint(cs, chains[l]);
      ChainKept(fat, t, chains[l]);
    }
  }

  lemma SplitChain(fat: seq<dword>, cs: seq<nat>, i: nat, eoc: dword)
    requires IsChain(fat, cs) && i + 1 < |cs| && eoc >= |fat|
    ensures IsChain(fat[cs[i] := eoc], cs[..i + 1])
    ensures IsChain(fat[cs[i] := eoc], cs[i + 1..])
    ensures Disjoint(cs[..i + 1], cs[i + 1..])
  {
    var t, ds := fat[cs[i] := eoc], cs[i + 1..];
    assert ds[|ds| - 1] == cs[|cs| - 1];
    forall j | 0 <= j < |ds| - 1
      ensures t[ds[j]] == ds[j + 1]
    {
      assert fat[cs[i + 1 + j]] == cs[i + 1 + j + 1];
    }
  }

  lemma TruncateKeeps(s: State, t: State, k: nat, i: nat, eoc: dword)
    requires Inv(s) && TruncateStep(s, t, k, i, eoc)
    ensures Inv(t)
  {
    hide FreeCount, Forest;
    var cs := s.chains[k];
    var mid := s.fat[cs[i] := eoc];
    var split := t.chains + [cs[i + 1..]];
    CloseSplits(s.fat, s.chains, k, i, eoc);
    ForestRemove(mid, split, |t.chains|);
    assert split[..|t.chains|] + split[|t.chains| + 1..] == t.chains;
    forall c | 2 <= c < |t.fat| && t.fat[c] != 0
      ensures InSome(t.chains, c)
    {
      if c == cs[i] {
        assert c in t.chains[k];
      } else {
        assert InSome(s.chains, c);
        var l :| 0 <= l < |s.chains| && c in s.chains[l];
        if l == k {
          assert cs == cs[..i + 1] + cs[i + 1..];
          assert c in t.chains[k];
        } else {
          assert c in t.chains[l];
        }
      }
    }
  }

  lemma StepKeeps(s: State, t: State)
    requires Inv(s) && Step(s, t)
    ensures Inv(t)
  {
    hide Inv, CreateStep, StretchStep, RemoveStep, TruncateStep;
    if scl, eoc, r :| CreateStep(s, t, scl, eoc, r) {
      CreateKeeps(s, t, scl, eoc, r);
    } else if k, eoc, r :| StretchStep(s, t, k, eoc, r) {
      StretchKeeps(s, t, k, eoc, r);
    } else if k :| RemoveStep(s, t, k) {
      RemoveKeeps(s, t, k);
    } else {
      var k, i, eoc :| TruncateStep(s, t, k, i, eoc);
      TruncateKeeps(s, t, k, i, eoc);
    }
  }

  /** Every run of allocations, stretches, removals and truncations keeps the invariant. */
  lemma {:induction false} RunKeeps(run: seq<State>)
    requires run != [] && Inv(run[0])
    requires forall i :: 0 <= i < |run| - 1 ==> Step(run[i], run[i + 1])
    ensures forall i :: 0 <= i < |run| ==> Inv(run[i])
  {
    hide Inv, Step;
    if |run| > 1 {
      var n := |run| - 1;
      RunKeeps(run[..n]);
      assert Inv(run[..n][n - 1]);
      StepKeeps(run[n - 1], run[n]);
    }
  }

  // ----- conservation -----

  lemma {:induction false} AllFree(fat: seq<dword>)
    requires |fat| >= 2 && forall c :: 2 <= c < |fat| ==> fat[c] == 0
    ensures FreeCount(fat) == |fat| - 2
  {
    if |fat| > 2 {
      AllFree(fat[..|fat| - 1]);
    }
  }

  lemma {:induction false} ClearedCount(fat: seq<dword>, cs: seq<nat>)
    requires Distinct(cs)
    requires forall i :: 0 <= i < |cs| ==> 2 <= cs[i] < |fat| && fat[cs[i]] != 0
    ensures FreeCount(Cleared(fat, cs)) == FreeCount(fat) + |cs|
    decreases |cs|
  {
    if cs == [] {
      assert Cleared(fat, cs) == fat;
    } else {
      FreeCountUpdate(fat, cs[0], 0);
      ClearedTail(fat, cs);
      ClearedCount(fat[cs[0] := 0], cs[1..]);
    }
  }

  lemma ChainCount(fat: seq<dword>, cs: seq<nat>)
    requires IsChain(fat, cs)
    ensures FreeCount(Cleared(fat, cs)) == FreeCount(fat) + |cs|
  {
    forall i | 0 <= i < |cs|
      ensures fat[cs[i]] != 0
    {
      ChainUsed(fat, cs, cs[i]);
    }
    ClearedCount(fat, cs);
  }

  lemma NoChains(fat: seq<dword>)
    requires |fat| >= 2 && Tight(fat, [])
    ensures FreeCount(fat) == |fat| - 2
  {
    forall c | 2 <= c < |fat|
      ensures fat[c] == 0
    {
      assert !InSome([], c);
    }
    AllFree(fat);
  }

  /** Every data cluster is either free or in exactly one live chain. */
  lemma {:induction false} Conservation(fat: seq<dword>, chains: seq<seq<nat>>)
    requires |fat| >= 2 && Forest(fat, chains) && Tight(fat, chains)
    ensures FreeCount(fat) + Total(chains) == |fat| - 2
    decreases |chains|
  {
    if chains == [] {
      NoChains(fat);
    } else {
      var n := |chains| - 1;
      assert IsChain(fat, chains[n]);
      hide Forest, Tight, FreeCount, IsChain, Cleared;
      ChainCount(fat, chains[n]);
      ForestLast(fat, chains);
      TightLast(fat, chains);
      Conservation(Cleared(fat, chains[n]), chains[..n]);
    }
  }

  lemma ForestLast(fat: seq<dword>, chains: seq<seq<nat>>)
    requires chains != [] && Forest(fat, chains)
    ensures var n := |chains| - 1; Forest(Cleared(fat, chains[n]), chains[..n])
  {
    hide Forest;
    var n := |chains| - 1;
    ForestRemove(fat, chains, n);
    assert chains[..n] + chains[n + 1..] == chains[..n];
  }

  lemma TightLast(fat: seq<dword>, chains: seq<seq<nat>>)
    requires chains != [] && Tight(fat, chains)
    ensures var n := |chains| - 1; Tight(Cleared(fat, chains[n]), chains[..n])
  {
    var n := |chains| - 1;
    var t := Cleared(fat, chains[n]);
    forall c | 2 <= c < |t| && t[c] != 0
      ensures InSome(chains[..n], c)
    {
      assert InSome(chains, c);
      var k :| 0 <= k < |chains| && c in chains[k];
      assert chains[..n][k] == chains[k];
    }
  }

  /** At every point of a run the free clusters and the live chains make up the volume. */
  lemma RunConserves(run: seq<State>, i: nat)
    requires run != [] && Inv(run[0]) && i < |run|
    requires forall i :: 0 <= i < |run| - 1 ==> Step(run[i], run[i + 1])
    ensures FreeCount(run[i].fat) + Total(run[i].chains) == |run[i].fat| - 2
  {
    hide Step, Forest, Tight, FreeCount, Total;
    RunKeeps(run);
    assert Inv(run[i]);
    Conservation(run[i].fat, run[i].chains);
  }

  /** On a tight forest create_chain reports a full volume exactly when no cluster is free. */
  lemma FullExactly(s: State, scl: nat, eoc: dword, t: State, r: dword)
    requires Inv(s) && CreateStep(s, t, scl, eoc, r)
    ensures r != 1
    ensures r == 0 <==> forall c :: 2 <= c < |s.fat| ==> s.fat[c] != 0
    ensures r == 0 <==> FreeCount(s.fat) == 0
    ensures r != 0 ==> FirstFree(s.fat, scl, r)
  {
    NoBadEntry(s.fat, s.chains);
    FreeCountZero(s.fat);
  }

  // ----- the calls themselves -----

  /** A call of the allocator: chains are named by their position in the list of live ones. */
  datatype Op = NewChain | Stretch(k: nat) | Remove(k: nat) | CutBehind(k: nat, i: nat)

  predicate Applies(chains: seq<seq<nat>>, op: Op) {
    match op
    case NewChain => true
    case Stretch(k) => k < |chains|
    case Remove(k) => k < |chains|
    case CutBehind(k, i) => k < |chains| && i + 1 < |chains[k]|
  }

  /** A mounted volume on a drive without failures, whose clusters are free or in one of the given chains. */
  ghost predicate Managed(fs: FatFs, chains: seq<seq<nat>>)
    reads fs`winsect, fs`wflag, fs`fsiFlag, fs`lastClust, fs`freeClust, fs.win, fs.drive
  {
    fs.Valid() && fs.drive.reliable && Inv(State(fs.Fat(), chains))
  }

  lemma MemberCluster(fs: FatFs, chains: seq<seq<nat>>, k: nat, i: nat)
    requires Managed(fs, chains) && k < |chains|
    ensures chains[k] != [] && |fs.Fat()| == fs.g.maxClust && Cut(fs.g, END_OF_CHAIN) >= fs.g.maxClust
    ensures i < |chains[k]| ==> IsCluster(fs.g, chains[k][i]) && fs.Fat()[chains[k][i]] >= 2
    ensures i + 1 < |chains[k]| ==> fs.Fat()[chains[k][i]] == chains[k][i + 1]
  {
    hide FatFs.Vol, FatFs.Valid, FatMap, Tight, Cut;
    EndMark(fs.g);
    assert IsChain(fs.Fat(), chains[k]);
    if i < |chains[k]| {
      ChainUsed(fs.Fat(), chains[k], chains[k][i]);
    }
  }

  lemma InvSized(fs: FatFs, chains: seq<seq<nat>>)
    requires Managed(fs, chains)
    ensures Sized(State(fs.Fat(), chains), Cut(fs.g, END_OF_CHAIN)) && |fs.Fat()| == fs.g.maxClust
  {
    hide FatFs.Vol, FatFs.Valid, FatMap, Tight, Forest, Cut;
    EndMark(fs.g);
  }

  /** create_chain(0). */
  method Start(fs: FatFs, chains: seq<seq<nat>>) returns (next: seq<seq<nat>>)
    requires Managed(fs, chains)
    modifies fs`winsect, fs`wflag, fs`fsiFlag, fs`freeClust, fs`lastClust, fs.win, fs.drive
    ensures Managed(fs, next) && Upkeep(fs) && SameOutsideFat(fs.g, old(fs.Vol()), fs.Vol())
    ensures Step(State(old(fs.Fat()), chains), State(fs.Fat(), next))
  {
    hide FatMap, Cut, Inv, FreeCount, Created, SameOutsideFat;
    hide FatFs.Mirrored, FatFs.Valid, FatFs.Shape, FatFs.Vol, FatFs.Fat;
    ghost var s, eoc, scl := State(fs.Fat(), chains), Cut(fs.g, END_OF_CHAIN), StartPoint(fs, 0);
    InvSized(fs, chains);
    var r := CreateChain(fs, 0);
    next := if r >= 2 then chains + [[r]] else chains;
    ghost var t := State(fs.Fat(), next);
    assert CreateStep(s, t, scl, eoc, r);
    CreateKeeps(s, t, scl, eoc, r);
  }

  /** create_chain behind the last cluster of chain k. */
  method Lengthen(fs: FatFs, chains: seq<seq<nat>>, k: nat) returns (next: seq<seq<nat>>)
    requires Managed(fs, chains) && k < |chains|
    modifies fs`winsect, fs`wflag, fs`fsiFlag, fs`freeClust, fs`lastClust, fs.win, fs.drive
    ensures Managed(fs, next) && Upkeep(fs) && SameOutsideFat(fs.g, old(fs.Vol()), fs.Vol())
    ensures Step(State(old(fs.Fat()), chains), State(fs.Fat(), next))
  {
    hide FatMap, Cut, Inv, FreeCount, Created, SameOutsideFat;
    hide FatFs.Mirrored, FatFs.Valid, FatFs.Shape, FatFs.Vol, FatFs.Fat;
    ghost var s, eoc := State(fs.Fat(), chains), Cut(fs.g, END_OF_CHAIN);
    InvSized(fs, chains);
    MemberCluster(fs, chains, k, if chains[k] == [] then 0 else |chains[k]| - 1);
    var r := CreateChain(fs, chains[k][|chains[k]| - 1]);
    next := if r >= 2 then chains[k := chains[k] + [r]] else chains;
    ghost var t := State(fs.Fat(), next);
    assert StretchStep(s, t, k, eoc, r);
    StretchKeeps(s, t, k, eoc, r);
  }

  /** remove_chain from the first cluster of chain k. */
  method Drop(fs: FatFs, chains: seq<seq<nat>>, k: nat) returns (next: seq<seq<nat>>)
    requires Managed(fs, chains) && k < |chains|
    modifies fs`winsect, fs`wflag, fs`fsiFlag, fs`freeClust, fs`lastClust, fs.win, fs.drive
    ensures Managed(fs, next) && Upkeep(fs) && SameOutsideFat(fs.g, old(fs.Vol()), fs.Vol())
    ensures Step(State(old(fs.Fat()), chains), State(fs.Fat(), next))
  {
    hide FatMap, Cut, Inv, FreeCount, Released, SameOutsideFat;
    hide FatFs.Mirrored, FatFs.Valid, FatFs.Shape, FatFs.Vol, FatFs.Fat;
    ghost var s := State(fs.Fat(), chains);
    MemberCluster(fs, chains, k, 0);
    var res := RemoveChain(fs, chains[k][0]);
    next := chains[..k] + chains[k + 1..];
    ghost var t := State(fs.Fat(), next);
    assert RemoveStep(s, t, k);
    RemoveKeeps(s, t, k);
  }

  /** The cut of f_truncate behind cluster i of chain k. */
  method CutOff(fs: FatFs, chains: seq<seq<nat>>, k: nat, i: nat) returns (next: seq<seq<nat>>)
    requires Managed(fs, chains) && k < |chains| && i + 1 < |chains[k]|
    modifies fs`winsect, fs`wflag, fs`fsiFlag, fs`freeClust, fs`lastClust, fs.win, fs.drive
    ensures Managed(fs, next) && Upkeep(fs) && SameOutsideFat(fs.g, old(fs.Vol()), fs.Vol())
    ensures Step(State(old(fs.Fat()), chains), State(fs.Fat(), next))
  {
    hide FatMap, Cut, Inv, FreeCount, Released, SameOutsideFat;
    hide FatFs.Mirrored, FatFs.Valid, FatFs.Shape, FatFs.Vol, FatFs.Fat;
    ghost var s, eoc := State(fs.Fat(), chains), Cut(fs.g, END_OF_CHAIN);
    InvSized(fs, chains);
    MemberCluster(fs, chains, k, i);
    MemberCluster(fs, chains, k, i + 1);
    CutReleases(s, k, i, eoc);
    var res := CloseAndRelease(fs, chains[k][i]);
    next := chains[k := chains[k][..i + 1]];
    ghost var t := State(fs.Fat(), next);
    assert TruncateStep(s, t, k, i, eoc);
    TruncateKeeps(s, t, k, i, eoc);
  }

  /** The cut meets no bad entry. */
  lemma CutReleases(s: State, k: nat, i: nat, eoc: dword)
    requires Inv(s) && Sized(s, eoc) && k < |s.chains| && i + 1 < |s.chains[k]|
    ensures s.chains[k][i] < |s.fat| && s.chains[k][i + 1] >= 2
    ensures Released(s.fat[s.chains[k][i] := eoc], s.chains[k][i + 1]).1
  {
    hide Tight;
    var cs := s.chains[k];
    assert IsChain(s.fat, cs);
    hide Forest;
    SplitChain(s.fat, cs, i, eoc);
    ReleasedChain(s.fat[cs[i] := eoc], cs[i + 1..]);
  }

  /** One call, if there is such a chain. */
  method Perform(fs: FatFs, chains: seq<seq<nat>>, op: Op) returns (next: seq<seq<nat>>)
    requires Managed(fs, chains) && Applies(chains, op)
    modifies fs`winsect, fs`wflag, fs`fsiFlag, fs`freeClust, fs`lastClust, fs.win, fs.drive
    ensures Managed(fs, next) && Upkeep(fs) && SameOutsideFat(fs.g, old(fs.Vol()), fs.Vol())
    ensures Step(State(old(fs.Fat()), chains), State(fs.Fat(), next))
  {
    match op
    case NewChain => next := Start(fs, chains);
    case Stretch(k) => next := Lengthen(fs, chains, k);
    case Remove(k) => next := Drop(fs, chains, k);
    case CutBehind(k, i) => next := CutOff(fs, chains, k, i);
  }

  /** A run of the allocator in terms of tables and chains. */
  ghost predicate StateRun(trace: seq<State>) {
    trace != [] && forall i :: 0 <= i < |trace| - 1 ==> Step(trace[i], trace[i + 1])
  }

  lemma RunMore(trace: seq<State>, t: State)
    requires StateRun(trace) && Step(trace[|trace| - 1], t)
    ensures StateRun(trace + [t])
  {
    hide Step;
  }

  /**
    Any sequence of allocations, stretches, removals and cuts; a call for a chain that does not exist is not
    made. The volume stays tight, a right free-cluster count stays right, and with the chains it makes up
    the volume.
   */
  method Run(fs: FatFs, chains: seq<seq<nat>>, ops: seq<Op>) returns (live: seq<seq<nat>>, ghost trace: seq<State>)
    requires Managed(fs, chains)
    modifies fs`winsect, fs`wflag, fs`fsiFlag, fs`freeClust, fs`lastClust, fs.win, fs.drive
    ensures Managed(fs, live) && Upkeep(fs) && SameOutsideFat(fs.g, old(fs.Vol()), fs.Vol())
    ensures StateRun(trace) && trace[0] == State(old(fs.Fat()), chains) && trace[|trace| - 1] == State(fs.Fat(), live)
    ensures FreeCount(fs.Fat()) + Total(live) == fs.g.maxClust - 2
    ensures old(CountRight(fs)) ==> fs.freeClust + Total(live) == fs.g.maxClust - 2
    ensures !fs.fsiFlag ==> fs.CountOnDisk()
  {
    hide FatMap, Inv, FreeCount, Step, StateRun, Total, FatFs.Hinted, FatFs.CountOnDisk;
    hide FatFs.Mirrored, FatFs.Valid, FatFs.Shape, FatFs.Vol, FatFs.Fat;
    live, trace := chains, [State(fs.Fat(), chains)];
    RunOne(trace[0]);
    for n := 0 to |ops|
      invariant Managed(fs, live) && Upkeep(fs) && SameOutsideFat(fs.g, old(fs.Vol()), fs.Vol())
      invariant StateRun(trace) && |trace| > 0
      invariant trace[0] == State(old(fs.Fat()), chains) && trace[|trace| - 1] == State(fs.Fat(), live)
    {
      if Applies(live, ops[n]) {
        live := Perform(fs, live, ops[n]);
        RunMore(trace, State(fs.Fat(), live));
        trace := trace + [State(fs.Fat(), live)];
      }
    }
    Conserved(fs, live);
    if !fs.fsiFlag {
      HintsOnDisk(fs);
    }
  }

  lemma RunOne(s: State)
    ensures StateRun([s])
  {
  }

  lemma Conserved(fs: FatFs, chains: seq<seq<nat>>)
    requires Managed(fs, chains)
    ensures FreeCount(fs.Fat()) + Total(chains) == fs.g.maxClust - 2
  {
    hide FatFs.Vol, FatFs.Valid, FatMap, Tight, Forest, FreeCount, Total;
    InvSized(fs, chains);
    Conservation(fs.Fat(), chains);
  }
}
