/** Cluster chains on an abstract table: one number per cluster, 0 for a free one. */
module Chains {
  import opened Words

  ghost predicate Distinct(cs: seq<nat>) {
    forall i, j :: 0 <= i < j < |cs| ==> cs[i] != cs[j]
  }

  /** cs is a complete chain of the table: linked in order and closed by a value no cluster has. */
  ghost predicate IsChain(fat: seq<dword>, cs: seq<nat>) {
    && cs != []
    && (forall i :: 0 <= i < |cs| ==> 2 <= cs[i] < |fat|)
    && (forall i :: 0 <= i < |cs| - 1 ==> fat[cs[i]] == cs[i + 1])
    && fat[cs[|cs| - 1]] >= |fat|
    && Distinct(cs)
  }

  /** A chain that may be empty: the file or directory has no cluster yet. */
  ghost predicate IsChainOrNil(fat: seq<dword>, cs: seq<nat>) {
    cs == [] || IsChain(fat, cs)
  }

  /** The start cluster recorded for a chain; 0 for none. */
  function Head(cs: seq<nat>): nat {
    if cs == [] then 0 else cs[0]
  }

  /** The table determines the chain of a start cluster. */
  lemma {:induction false} ChainUnique(fat: seq<dword>, cs: seq<nat>, ds: seq<nat>)
    requires IsChain(fat, cs) && IsChain(fat, ds) && cs[0] == ds[0]
    ensures cs == ds
  {
    ChainPrefix(fat, cs, ds, 0);
    ChainPrefix(fat, ds, cs, 0);
  }

  lemma {:induction false} ChainPrefix(fat: seq<dword>, cs: seq<nat>, ds: seq<nat>, i: nat)
    requires IsChain(fat, cs) && IsChain(fat, ds)
    requires i < |cs| && i < |ds| && cs[..i + 1] == ds[..i + 1]
    ensures cs <= ds
    decreases |cs| - i
  {
    assert cs[i] == cs[..i + 1][i] == ds[..i + 1][i] == ds[i];
    if i + 1 < |cs| {
      assert fat[cs[i]] == cs[i + 1];
      assert i + 1 < |ds|;
      assert cs[..i + 2] == cs[..i + 1] + [cs[i + 1]];
      assert ds[..i + 2] == ds[..i + 1] + [ds[i + 1]];
      ChainPrefix(fat, cs, ds, i + 1);
    } else {
      assert cs == cs[..i + 1];
    }
  }

  // ----- counting -----

  /** The number of entries that are not 0; the termination measure of remove_chain. */
  ghost function NonZero(fat: seq<dword>): nat {
    if fat == [] then 0
    else NonZero(fat[..|fat| - 1]) + (if fat[|fat| - 1] != 0 then 1 else 0)
  }

  /** The number of free clusters, entries 0 and 1 not counted. */
  ghost function FreeCount(fat: seq<dword>): (n: nat)
    ensures n <= |fat|
  {
    if |fat| <= 2 then 0
    else FreeCount(fat[..|fat| - 1]) + (if fat[|fat| - 1] == 0 then 1 else 0)
  }

  lemma {:induction false} NonZeroUpdate(fat: seq<dword>, c: nat, x: dword)
    requires c < |fat|
    ensures NonZero(fat[c := x]) + (if fat[c] != 0 then 1 else 0) == NonZero(fat) + (if x != 0 then 1 else 0)
  {
    var n := |fat| - 1;
    if c < n {
      assert fat[c := x][..n] == fat[..n][c := x];
      NonZeroUpdate(fat[..n], c, x);
    } else {
      assert fat[c := x][..n] == fat[..n];
    }
  }

  lemma {:induction false} FreeCountUpdate(fat: seq<dword>, c: nat, x: dword)
    requires 2 <= c < |fat|
    ensures FreeCount(fat[c := x]) + (if fat[c] == 0 then 1 else 0) == FreeCount(fat) + (if x == 0 then 1 else 0)
  {
    var n := |fat| - 1;
    if c < n {
      assert fat[c := x][..n] == fat[..n][c := x];
      FreeCountUpdate(fat[..n], c, x);
    } else {
      assert fat[c := x][..n] == fat[..n];
    }
  }

  /** No free cluster, counted or looked up. */
  lemma {:induction false} FreeCountZero(fat: seq<dword>)
    ensures FreeCount(fat) == 0 <==> forall d :: 2 <= d < |fat| ==> fat[d] != 0
  {
    if |fat| > 2 {
      var n := |fat| - 1;
      FreeCountZero(fat[..n]);
      assert forall d :: 2 <= d < n ==> fat[..n][d] == fat[d];
    }
  }

  // ----- remove_chain -----

  /** What remove_chain makes of any table, cyclic or cross-linked ones included; false when it meets the value 1. */
  ghost function Released(fat: seq<dword>, c: nat): (r: (seq<dword>, bool))
    requires c >= 2
    ensures |r.0| == |fat|
    decreases NonZero(fat)
  {
    if c >= |fat| || fat[c] == 0 then (fat, true)
    else if fat[c] == 1 then (fat, false)
    else
      NonZeroUpdate(fat, c, 0);
      Released(fat[c := 0], fat[c])
  }

  /** The table with every cluster of cs freed. */
  ghost function Cleared(fat: seq<dword>, cs: seq<nat>): (r: seq<dword>)
    ensures |r| == |fat|
    ensures forall d :: 0 <= d < |fat| ==> r[d] == if d in cs then 0 else fat[d]
  {
    seq(|fat|, d requires 0 <= d < |fat| => if d in cs then 0 else fat[d])
  }

  /** Whatever the table, release only frees: no entry gets a new link. */
  lemma {:induction false} ReleasedOnlyFrees(fat: seq<dword>, c: nat, d: nat)
    requires c >= 2 && d < |fat|
    ensures Released(fat, c).0[d] == fat[d] || Released(fat, c).0[d] == 0
    ensures fat[d] <= 1 ==> Released(fat, c).0[d] == fat[d]
    decreases NonZero(fat)
  {
    if c < |fat| && fat[c] > 1 {
      NonZeroUpdate(fat, c, 0);
      ReleasedOnlyFrees(fat[c := 0], fat[c], d);
    }
  }

  lemma TailChain(fat: seq<dword>, cs: seq<nat>)
    requires IsChain(fat, cs) && |cs| > 1
    ensures IsChain(fat[cs[0] := 0], cs[1..])
  {
    var t, ds := fat[cs[0] := 0], cs[1..];
    assert ds[|ds| - 1] == cs[|cs| - 1];
    forall i | 0 <= i < |ds| - 1
      ensures t[ds[i]] == ds[i + 1]
    {
      assert fat[cs[i + 1]] == cs[i + 2];
    }
  }

  lemma ClearedTail(fat: seq<dword>, cs: seq<nat>)
    requires cs != [] && cs[0] < |fat|
    ensures Cleared(fat[cs[0] := 0], cs[1..]) == Cleared(fat, cs)
  {
    assert cs == [cs[0]] + cs[1..];
  }

  /** On a proper chain, release frees exactly its clusters. */
  lemma {:induction false} ReleasedChain(fat: seq<dword>, cs: seq<nat>)
    requires IsChain(fat, cs)
    ensures Released(fat, cs[0]) == (Cleared(fat, cs), true)
    decreases |cs|
  {
    NonZeroUpdate(fat, cs[0], 0);
    ClearedTail(fat, cs);
    if |cs| == 1 {
      assert Cleared(fat, cs) == fat[cs[0] := 0];
    } else {
      assert fat[cs[0]] == cs[1];
      TailChain(fat, cs);
      ReleasedChain(fat[cs[0] := 0], cs[1..]);
    }
  }

  // ----- create_chain -----

  /** The position of d in the cyclic search that starts behind scl; scl itself comes last. */
  function Rank(m: nat, scl: nat, d: nat): int {
    if d > scl then d - scl else d - scl + m
  }

  /**
    r is the free cluster a search upward from scl reaches first: all between are in use, or, with the search
    wrapped around at the end of the table, all above scl and all below r; scl itself comes last.
   */
  ghost predicate FirstFree(fat: seq<dword>, scl: nat, r: nat) {
    && 2 <= r < |fat| && fat[r] == 0
    && if r > scl then forall d :: 2 <= d < r && d > scl ==> fat[d] >= 2
       else forall d :: 2 <= d < |fat| && (d > scl || d < r) ==> fat[d] >= 2
  }

  /** The table after cluster n is taken for a chain that ended in last (0: a new chain). */
  function Linked(fat: seq<dword>, last: nat, n: dword, eoc: dword): (r: seq<dword>)
    requires n < |fat| && last < |fat|
    ensures |r| == |fat|
  {
    var t := fat[n := eoc];
    if last == 0 then t else t[last := n]
  }

  /** Taking a free cluster makes a one-cluster chain, or lengthens the given chain by one. */
  lemma LinkedChain(fat: seq<dword>, cs: seq<nat>, n: dword, eoc: dword)
    requires IsChainOrNil(fat, cs)
    requires 2 <= n < |fat| && fat[n] == 0 && eoc >= |fat|
    ensures IsChain(Linked(fat, if cs == [] then 0 else cs[|cs| - 1], n, eoc), cs + [n])
  {
    if cs != [] {
      assert n !in cs by {
        if n in cs {
          ChainUsed(fat, cs, n);
        }
      }
      var last := cs[|cs| - 1];
      var t := Linked(fat, last, n, eoc);
      var ds := cs + [n];
      forall i | 0 <= i < |ds| - 1
        ensures t[ds[i]] == ds[i + 1]
      {
        if i < |cs| - 1 {
          assert ds[i] == cs[i] && cs[i] != last;
        }
      }
    }
  }

  // ----- frames -----

  /** A chain none of whose entries changed is still a chain. */
  lemma ChainKept(fat: seq<dword>, fat': seq<dword>, cs: seq<nat>)
    requires IsChain(fat, cs) && |fat'| == |fat|
    requires forall i :: 0 <= i < |cs| ==> fat'[cs[i]] == fat[cs[i]]
    ensures IsChain(fat', cs)
  {
  }

  ghost predicate Disjoint(cs: seq<nat>, ds: seq<nat>) {
    forall c :: c in cs ==> c !in ds
  }

  /** Every cluster of a chain has a non-zero entry. */
  lemma ChainUsed(fat: seq<dword>, cs: seq<nat>, c: nat)
    requires IsChain(fat, cs) && c in cs
    ensures 2 <= c < |fat| && fat[c] >= 2
  {
    var i :| 0 <= i < |cs| && cs[i] == c;
    if i < |cs| - 1 {
      assert fat[cs[i]] == cs[i + 1];
    }
  }

  /** The live chains of a volume: each proper, no two sharing a cluster. */
  ghost predicate Forest(fat: seq<dword>, chains: seq<seq<nat>>) {
    && (forall k :: 0 <= k < |chains| ==> IsChain(fat, chains[k]))
    && (forall k, l :: 0 <= k < l < |chains| ==> Disjoint(chains[k], chains[l]))
  }

  /** Starting a chain adds one tree to the forest. */
  lemma ForestCreate(fat: seq<dword>, chains: seq<seq<nat>>, n: dword, eoc: dword)
    requires Forest(fat, chains)
    requires 2 <= n < |fat| && fat[n] == 0 && eoc >= |fat|
    ensures Forest(Linked(fat, 0, n, eoc), chains + [[n]])
  {
    var t := Linked(fat, 0, n, eoc);
    LinkedChain(fat, [], n, eoc);
    assert [] + [n] == [n];
    forall k | 0 <= k < |chains|
      ensures IsChain(t, chains[k]) && Disjoint(chains[k], [n])
    {
      OtherChainKept(fat, chains[k], 0, n, eoc);
    }
  }

  lemma OtherChainKept(fat: seq<dword>, cs: seq<nat>, last: nat, n: dword, eoc: dword)
    requires IsChain(fat, cs) && n < |fat| && last < |fat| && fat[n] == 0
    requires last !in cs
    ensures IsChain(Linked(fat, last, n, eoc), cs) && n !in cs
  {
    if n in cs {
      ChainUsed(fat, cs, n);
    }
    ChainKept(fat, Linked(fat, last, n, eoc), cs);
  }

  /** Stretching chain k appends the new cluster to it and leaves every other chain alone. */
  lemma ForestStretch(fat: seq<dword>, chains: seq<seq<nat>>, k: nat, n: dword, eoc: dword)
    requires Forest(fat, chains) && k < |chains|
    requires 2 <= n < |fat| && fat[n] == 0 && eoc >= |fat|
    ensures var cs := chains[k];
            Forest(Linked(fat, cs[|cs| - 1], n, eoc), chains[k := cs + [n]])
  {
    var cs := chains[k];
    var last := cs[|cs| - 1];
    LinkedChain(fat, cs, n, eoc);
    forall l | 0 <= l < |chains| && l != k
      ensures IsChain(Linked(fat, last, n, eoc), chains[l]) && n !in chains[l] && Disjoint(chains[l], cs)
    {
      assert last in cs;
      OtherChainKept(fat, chains[l], last, n, eoc);
    }
  }

  /** Removing chain k frees exactly its clusters and leaves every other chain alone. */
  lemma ForestRemove(fat: seq<dword>, chains: seq<seq<nat>>, k: nat)
    requires Forest(fat, chains) && k < |chains|
    ensures Released(fat, chains[k][0]) == (Cleared(fat, chains[k]), true)
    ensures Forest(Cleared(fat, chains[k]), chains[..k] + chains[k + 1..])
  {
    ReleasedChain(fat, chains[k]);
    var t := Cleared(fat, chains[k]);
    forall l | 0 <= l < |chains| && l != k
      ensures IsChain(t, chains[l])
    {
      assert Disjoint(chains[l], chains[k]);
      ChainKept(fat, t, chains[l]);
    }
  }
}
