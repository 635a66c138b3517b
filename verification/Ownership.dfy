/** Who owns the clusters of a volume. */
module Ownership {
  import opened Words
  import opened Layout
  import opened Chains
  import opened Contents
  import opened Allocation

  type ChainMap = map<u32, seq<u32>>

  /**
   * The FAT is a set of pairwise disjoint, end-marked chains, each named by its first
   * cluster; every other entry from cluster 2 up is free.
   */
  ghost predicate Owned(g: Geometry, T: seq<u32>, chains: ChainMap) {
    && 2 <= |T| < 0x1000_0000 && Link(g.fatType, T[0]) == LAST_CLUSTER && Link(g.fatType, T[1]) == LAST_CLUSTER
    && (forall s :: s in chains ==> DataChain(g, T, chains[s]) && chains[s][0] == s)
    && (forall s, t :: s in chains && t in chains && s != t ==> Disjoint(chains[s], chains[t]))
    && (forall c: u32 :: 2 <= c < |T| && !IsFree(g.fatType, T, c) ==> InSome(chains, c))
  }

  ghost predicate InSome(chains: ChainMap, c: u32) {
    exists s :: s in chains && c in chains[s]
  }

  /** Clusters that may be linked: free, with data sectors, none twice. */
  ghost predicate Takeable(g: Geometry, T: seq<u32>, add: seq<u32>) {
    && (forall i :: 0 <= i < |add| ==> 2 <= add[i] < g.Limit() && add[i] < |T| && IsFree(g.fatType, T, add[i]))
    && (forall i, j :: 0 <= i < j < |add| ==> add[i] != add[j])
  }

  /** No chain runs through a free cluster. */
  lemma FreeInNoChain(g: Geometry, T: seq<u32>, ch: seq<u32>, add: seq<u32>)
    requires DataChain(g, T, ch) && Takeable(g, T, add)
    ensures Disjoint(ch, add) && forall i :: 0 <= i < |add| ==> add[i] !in ch
  {
    forall i, j | 0 <= i < |ch| && 0 <= j < |add| ensures ch[i] != add[j] {
      assert Link(g.fatType, T[ch[i]]) != 0 by {
        assert i < |ch| - 1 ==> Link(g.fatType, T[ch[i]]) == ch[i + 1];
      }
    }
  }

  lemma LimitLinkable(g: Geometry)
    requires g.Ok()
    ensures forall c :: 2 <= c < g.Limit() ==> Linkable(g.fatType, c)
  {
  }

  /** A table that differs only on the given clusters, none of them in the chain. */
  ghost predicate OnlyEntries(T: seq<u32>, U: seq<u32>, touched: seq<u32>) {
    && |U| == |T|
    && forall c: u32 :: c < |T| && c !in touched ==> U[c] == T[c]
  }

  lemma DataChainKept(g: Geometry, T: seq<u32>, U: seq<u32>, ch: seq<u32>, touched: seq<u32>)
    requires DataChain(g, T, ch) && OnlyEntries(T, U, touched) && Disjoint(ch, touched)
    ensures DataChain(g, U, ch)
  {
    forall i | 0 <= i < |ch| ensures U[ch[i]] == T[ch[i]] {
      assert ch[i] !in touched;
    }
    hide Link, Linkable;
    ChainKept(g.fatType, T, U, ch);
  }

  /** Chain s becomes ch', by clusters that were free: what is left to show for ownership. */
  lemma OwnedAfter(g: Geometry, T: seq<u32>, U: seq<u32>, chains: ChainMap, s: u32, ch': seq<u32>, add: seq<u32>)
    requires Owned(g, T, chains) && Takeable(g, T, add)
    requires OnlyEntries(T, U, ch')
    requires ch' == (if s in chains then chains[s] else []) + add
    requires DataChain(g, U, ch') && ch'[0] == s
    ensures Owned(g, U, chains[s := ch'])
  {
    hide IsChain, IsFree, Link, Linkable, Takeable, Disjoint;
    ReservedNotInChain(g, U, ch');
    forall t | t in chains && t != s
      ensures DataChain(g, U, chains[t]) && Disjoint(chains[t], ch') && Disjoint(ch', chains[t])
    {
      OtherChain(g, T, U, chains, s, t, ch', add);
    }
    CoveredAfter(g, T, U, chains, s, ch');
  }

  lemma ReservedNotInChain(g: Geometry, T: seq<u32>, ch: seq<u32>)
    requires DataChain(g, T, ch)
    ensures 0 !in ch && 1 !in ch
  {
    assert forall i :: 0 <= i < |ch| ==> Linkable(g.fatType, ch[i]);
  }

  lemma OtherChain(g: Geometry, T: seq<u32>, U: seq<u32>, chains: ChainMap, s: u32, t: u32, ch': seq<u32>,
      add: seq<u32>)
    requires Owned(g, T, chains) && Takeable(g, T, add) && OnlyEntries(T, U, ch')
    requires ch' == (if s in chains then chains[s] else []) + add && t in chains && t != s
    ensures DataChain(g, U, chains[t]) && Disjoint(chains[t], ch') && Disjoint(ch', chains[t])
  {
    hide IsChain, IsFree, Link, Linkable, Takeable, OnlyEntries;
    FreeInNoChain(g, T, chains[t], add);
    if s in chains {
      DisjointAppend(chains[t], chains[s], add);
    } else {
      assert ch' == add;
    }
    DataChainKept(g, T, U, chains[t], ch');
  }

  lemma CoveredAfter(g: Geometry, T: seq<u32>, U: seq<u32>, chains: ChainMap, s: u32, ch': seq<u32>)
    requires OnlyEntries(T, U, ch') && forall c: u32 :: 2 <= c < |T| && !IsFree(g.fatType, T, c) ==> InSome(chains, c)
    requires s in chains ==> forall c :: c in chains[s] ==> c in ch'
    ensures forall c: u32 :: 2 <= c < |U| && !IsFree(g.fatType, U, c) ==> InSome(chains[s := ch'], c)
  {
    hide IsFree;
    forall c: u32 | 2 <= c < |U| && !IsFree(g.fatType, U, c) ensures InSome(chains[s := ch'], c) {
      if c in ch' {
        assert c in chains[s := ch'][s];
      } else {
        FreeDepends(g.fatType, T, U, c);
        var t :| t in chains && c in chains[t];
        assert c in chains[s := ch'][t];
      }
    }
  }

  lemma FreeDepends(ty: FatType, T: seq<u32>, U: seq<u32>, c: u32)
    requires c < |T| && c < |U| && U[c] == T[c]
    ensures IsFree(ty, T, c) == IsFree(ty, U, c)
  {
  }

  lemma DisjointAppend(a: seq<u32>, b: seq<u32>, c: seq<u32>)
    requires Disjoint(a, b) && Disjoint(a, c)
    ensures Disjoint(a, b + c)
  {
  }

  /** A cluster with a chain of its own: the start of a new file. */
  lemma AllocKeeps(g: Geometry, T: seq<u32>, chains: ChainMap, c: u32)
    requires g.Ok() && Owned(g, T, chains) && Takeable(g, T, [c])
    ensures c < |T| && c !in chains
    ensures Owned(g, T[c := Stored(g.fatType, LAST_CLUSTER)], chains[c := [c]])
  {
    assert [c][0] == c;
    if c in chains {
      FreeInNoChain(g, T, chains[c], [c]);
    }
    var U := T[c := Stored(g.fatType, LAST_CLUSTER)];
    StoredLink(g.fatType, c);
    LimitLinkable(g);
    assert DataChain(g, U, [c]);
    hide IsChain, IsFree, Link, Linkable, Owned, Takeable;
    OwnedAfter(g, T, U, chains, c, [c], [c]);
  }

  /** Linking free clusters behind a chain lengthens that chain and leaves the others. */
  lemma GrowKeeps(g: Geometry, T: seq<u32>, chains: ChainMap, s: u32, add: seq<u32>)
    requires g.Ok() && Owned(g, T, chains) && s in chains && Takeable(g, T, add)
    ensures var ch := chains[s];
      && |ch| >= 1 && ch[|ch| - 1] < |T| && (forall i :: 0 <= i < |add| ==> add[i] < |T|)
      && Owned(g, Appended(g.fatType, T, ch[|ch| - 1], add), chains[s := ch + add])
  {
    var ch := chains[s];
    assert DataChain(g, T, ch) && ch[0] == s && ch[|ch| - 1] < |T| && ch[|ch| - 1] in ch;
    FreeInNoChain(g, T, ch, add);
    LimitLinkable(g);
    var U := Appended(g.fatType, T, ch[|ch| - 1], add);
    AppendedChain(g.fatType, T, ch, add);
    assert OnlyEntries(T, U, ch + add);
    assert DataChain(g, U, ch + add);
    hide IsChain, IsFree, Link, Linkable, Owned, Takeable, Appended;
    OwnedAfter(g, T, U, chains, s, ch + add, add);
  }

  /** Every link of an owned table stays in the table. */
  lemma OwnedLinks(g: Geometry, T: seq<u32>, chains: ChainMap)
    requires Owned(g, T, chains)
    ensures LinksInRange(g.fatType, T)
  {
    forall c: u32 | c < |T| ensures Link(g.fatType, T[c]) == LAST_CLUSTER || Link(g.fatType, T[c]) < |T| {
      if 2 <= c && !IsFree(g.fatType, T, c) {
        assert InSome(chains, c);
        var s :| s in chains && c in chains[s];
        assert DataChain(g, T, chains[s]);
        ChainLinks(g.fatType, T, chains[s], c);
      }
    }
  }

  lemma ChainLinks(ty: FatType, T: seq<u32>, ch: seq<u32>, c: u32)
    requires IsChain(ty, T, ch) && c in ch
    ensures c < |T| && (Link(ty, T[c]) == LAST_CLUSTER || Link(ty, T[c]) < |T|)
  {
    var i :| 0 <= i < |ch| && ch[i] == c;
    hide Link, Linkable;
    if i < |ch| - 1 {
      assert Link(ty, T[ch[i]]) == ch[i + 1];
    }
  }

  /** Freeing a chain gives back exactly its clusters. */
  lemma FreeKeeps(g: Geometry, T: seq<u32>, chains: ChainMap, s: u32)
    requires Owned(g, T, chains) && s in chains
    ensures LinksInRange(g.fatType, T) && s < |T|
    ensures Freed(g.fatType, T, s) == Cleared(T, chains[s])
    ensures Owned(g, Cleared(T, chains[s]), chains - {s})
  {
    var ch := chains[s];
    OwnedLinks(g, T, chains);
    assert DataChain(g, T, ch) && ch[0] == s;
    FreedChain(g.fatType, T, ch);
    ClearedOwned(g, T, chains, s);
  }

  lemma ClearedOwned(g: Geometry, T: seq<u32>, chains: ChainMap, s: u32)
    requires Owned(g, T, chains) && s in chains
    ensures Owned(g, Cleared(T, chains[s]), chains - {s})
  {
    hide IsChain, IsFree, Link, Linkable, Cleared;
    var ch, U, chains' := chains[s], Cleared(T, chains[s]), chains - {s};
    ReservedNotInChain(g, T, ch);
    ClearedEntries(g.fatType, T, ch);
    forall t | t in chains' ensures DataChain(g, U, chains'[t]) {
      DataChainKept(g, T, U, chains[t], ch);
    }
    forall c: u32 | 2 <= c < |U| && !IsFree(g.fatType, U, c) ensures InSome(chains', c) {
      FreeDepends(g.fatType, T, U, c);
      assert InSome(chains, c);
      var t :| t in chains && c in chains[t];
      assert c in chains'[t];
    }
  }

  lemma ClearedEntries(ty: FatType, T: seq<u32>, ch: seq<u32>)
    ensures OnlyEntries(T, Cleared(T, ch), ch)
    ensures forall c: u32 :: c < |T| && c in ch ==> IsFree(ty, Cleared(T, ch), c)
  {
  }

  /** The clusters handed out next, if they have data sectors, may be linked. */
  lemma FreeTakeable(g: Geometry, T: seq<u32>, n: nat)
    requires g.Ok() && g.fatType == FAT32 && g.rootCluster <= |T| < 0x1000_0000
    requires n <= |Free(g, T)| && forall i :: 0 <= i < n ==> Free(g, T)[i] < g.Limit()
    ensures Takeable(g, T, Free(g, T)[..n])
  {
    hide IsFree;
    FreeInMembers(g.fatType, T, g.rootCluster, |T|);
  }
}
