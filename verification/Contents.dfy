/** From a cluster chain to the sectors and bytes it holds. */
module Contents {
  import opened Words
  import opened Layout
  import opened Chains
  import Arith

  /** A chain whose clusters all have data sectors. */
  ghost predicate DataChain(g: Geometry, T: seq<u32>, ch: seq<u32>) {
    && IsChain(g.fatType, T, ch)
    && (forall i :: 0 <= i < |ch| ==> ch[i] < g.Limit())
  }

  /** The clusters a chain may consist of. */
  ghost predicate Clusters(g: Geometry, ch: seq<u32>) {
    && (forall i :: 0 <= i < |ch| ==> 2 <= ch[i] < g.Limit())
    && (forall i, j :: 0 <= i < j < |ch| ==> ch[i] != ch[j])
  }

  ghost predicate Disjoint(a: seq<u32>, b: seq<u32>) {
    forall i, j :: 0 <= i < |a| && 0 <= j < |b| ==> a[i] != b[j]
  }

  /** Sectors of the data region: the FAT16 root directory and the clusters. */
  function Span(g: Geometry): nat { g.RootSpan() + g.clusterCount * g.sectorsPerCluster }

  /** The sectors of the clusters, in order, counted from clusterBegin. */
  function Addrs(g: Geometry, ch: seq<u32>): (a: seq<int>)
    ensures |a| == |ch| * g.sectorsPerCluster
  {
    seq(|ch| * g.sectorsPerCluster, s requires 0 <= s < |ch| * g.sectorsPerCluster => AddrAt(g, ch, s))
  }

  function AddrAt(g: Geometry, ch: seq<u32>, s: nat): int
    requires s < |ch| * g.sectorsPerCluster
  {
    Arith.DivBelow(s, |ch|, g.sectorsPerCluster);
    g.Rel(ch[s / g.sectorsPerCluster], s % g.sectorsPerCluster)
  }

  /** Sector s of a chain is sector k of its cluster i. */
  lemma AddrsSplit(g: Geometry, ch: seq<u32>, s: nat) returns (i: nat, k: nat)
    requires g.sectorsPerCluster > 0 && s < |Addrs(g, ch)|
    ensures i < |ch| && k < g.sectorsPerCluster
    ensures s == i * g.sectorsPerCluster + k
    ensures i == s / g.sectorsPerCluster
    ensures Addrs(g, ch)[s] == g.Rel(ch[i], k)
  {
    hide Geometry.Rel;
    i, k := s / g.sectorsPerCluster, s % g.sectorsPerCluster;
    Arith.DivBelow(s, |ch|, g.sectorsPerCluster);
    Arith.CellOf(s, g.sectorsPerCluster);
  }

  lemma AddrsIn(g: Geometry, ch: seq<u32>, s: nat) returns (i: nat, k: nat)
    requires g.Ok() && Clusters(g, ch) && s < |Addrs(g, ch)|
    ensures i < |ch| && k < g.sectorsPerCluster
    ensures i == s / g.sectorsPerCluster && s == i * g.sectorsPerCluster + k
    ensures g.RootSpan() <= Addrs(g, ch)[s] < Span(g)
    ensures Addrs(g, ch)[s] == g.Rel(ch[i], k)
    ensures g.LbaOfCluster(ch[i]) + k == g.clusterBegin + Addrs(g, ch)[s]
  {
    i, k := AddrsSplit(g, ch, s);
    assert 2 <= ch[i] < g.Limit();
    hide Geometry.Ok, Geometry.Rel, Geometry.LbaOfCluster, Geometry.RootSpan, Addrs;
    g.LbaIsRel(ch[i], k);
  }

  /** (cluster, sector) to sector address is injective. */
  lemma AddrsDistinct(g: Geometry, ch: seq<u32>, s: nat, t: nat)
    requires g.sectorsPerCluster > 0 && Clusters(g, ch) && s < |Addrs(g, ch)| && t < |Addrs(g, ch)|
    requires Addrs(g, ch)[s] == Addrs(g, ch)[t]
    ensures s == t
  {
    hide Geometry.Rel, Addrs;
    var i, k := AddrsSplit(g, ch, s);
    var j, l := AddrsSplit(g, ch, t);
    g.RelInjective(ch[i], k, ch[j], l);
  }

  /** Chains without a common cluster have no common sector. */
  lemma AddrsDisjoint(g: Geometry, a: seq<u32>, b: seq<u32>, s: nat, t: nat)
    requires g.sectorsPerCluster > 0 && Clusters(g, a) && Clusters(g, b) && Disjoint(a, b)
    requires s < |Addrs(g, a)| && t < |Addrs(g, b)|
    ensures Addrs(g, a)[s] != Addrs(g, b)[t]
  {
    hide Geometry.Rel, Addrs;
    var i, k := AddrsSplit(g, a, s);
    var j, l := AddrsSplit(g, b, t);
    if g.Rel(a[i], k) == g.Rel(b[j], l) {
      g.RelInjective(a[i], k, b[j], l);
    }
  }

  lemma AddrsAppend(g: Geometry, a: seq<u32>, b: seq<u32>)
    requires g.sectorsPerCluster > 0
    ensures Addrs(g, a + b) == Addrs(g, a) + Addrs(g, b)
  {
    var w := g.sectorsPerCluster;
    var ab, xs := a + b, Addrs(g, a) + Addrs(g, b);
    assert |Addrs(g, ab)| == |xs| by {
      assert (|a| + |b|) * w == |a| * w + |b| * w;
    }
    forall s | 0 <= s < |xs| ensures Addrs(g, ab)[s] == xs[s] {
      AddrsAppendAt(g, a, b, s);
    }
  }

  lemma AddrsAppendAt(g: Geometry, a: seq<u32>, b: seq<u32>, s: nat)
    requires g.sectorsPerCluster > 0
    requires s < |Addrs(g, a)| + |Addrs(g, b)| == |Addrs(g, a + b)|
    ensures Addrs(g, a + b)[s] == (Addrs(g, a) + Addrs(g, b))[s]
  {
    var w, n := g.sectorsPerCluster, |Addrs(g, a)|;
    assert n == |a| * w;
    hide Geometry.Rel, Addrs;
    var i, k := AddrsSplit(g, a + b, s);
    if s < n {
      var j, l := AddrsSplit(g, a, s);
      Arith.CellUnique(i, k, j, l, w);
    } else {
      var j, l := AddrsSplit(g, b, s - n);
      assert (|a| + j) * w == |a| * w + j * w;
      Arith.CellUnique(i, k, |a| + j, l, w);
    }
  }

  /** The sectors of one cluster. */
  lemma AddrsOne(g: Geometry, c: u32)
    requires g.Ok() && 2 <= c < g.Limit()
    ensures |Addrs(g, [c])| == g.sectorsPerCluster
    ensures forall s :: 0 <= s < g.sectorsPerCluster ==>
              && Addrs(g, [c])[s] == g.Rel(c, s)
              && g.LbaOfCluster(c) + s == g.clusterBegin + Addrs(g, [c])[s]
              && 0 <= Addrs(g, [c])[s] < Span(g)
  {
    assert 1 * g.sectorsPerCluster == g.sectorsPerCluster;
    hide Addrs, Geometry.Rel, Geometry.LbaOfCluster, Span;
    forall s | 0 <= s < g.sectorsPerCluster
      ensures Addrs(g, [c])[s] == g.Rel(c, s) && g.LbaOfCluster(c) + s == g.clusterBegin + Addrs(g, [c])[s]
      ensures 0 <= Addrs(g, [c])[s] < Span(g)
    {
      var i, k := AddrsIn(g, [c], s);
    }
  }

  // ----- directories: a chain, or the FAT16 root written as the empty chain

  ghost predicate DirChain(g: Geometry, T: seq<u32>, start: u32, dir: seq<u32>) {
    if dir == [] then g.fatType == FAT16 && start == 0 else DataChain(g, T, dir) && dir[0] == start
  }

  lemma DirClusters(g: Geometry, T: seq<u32>, start: u32, dir: seq<u32>)
    requires DirChain(g, T, start, dir)
    ensures Clusters(g, dir) && (dir == [] ==> g.fatType == FAT16)
  {
  }

  function DirAddrs(g: Geometry, dir: seq<u32>): seq<int> {
    if dir == [] then seq(g.rootSectors, s => s) else Addrs(g, dir)
  }

  /** The FAT16 root directory lies right at clusterBegin. */
  lemma RootAddrs(g: Geometry, s: nat)
    requires s < g.rootSectors
    ensures |DirAddrs(g, [])| == g.rootSectors && DirAddrs(g, [])[s] == s
  {
  }

  lemma DirAddrsIn(g: Geometry, dir: seq<u32>, s: nat)
    requires g.Ok() && Clusters(g, dir) && (dir == [] ==> g.fatType == FAT16) && s < |DirAddrs(g, dir)|
    ensures 0 <= DirAddrs(g, dir)[s] < Span(g)
    ensures forall t :: 0 <= t < |DirAddrs(g, dir)| && t != s ==> DirAddrs(g, dir)[t] != DirAddrs(g, dir)[s]
  {
    if dir == [] {
      assert g.clusterCount * g.sectorsPerCluster >= 0;
    } else {
      var i, k := AddrsIn(g, dir, s);
      forall t | 0 <= t < |DirAddrs(g, dir)| && t != s ensures DirAddrs(g, dir)[t] != DirAddrs(g, dir)[s] {
        if DirAddrs(g, dir)[t] == DirAddrs(g, dir)[s] {
          AddrsDistinct(g, dir, s, t);
        }
      }
    }
  }

  /**
   * Cluster index and sector in the cluster of a sector offset.  Following that many links
   * from the head of a chain finds the cluster of its sector, or the end.
   */
  method SplitOffset(g: Geometry, offset: nat, ghost ch: seq<u32>) returns (i: nat, k: nat)
    requires g.Ok() && Clusters(g, ch) && offset <= |Addrs(g, ch)|
    ensures i <= |ch| && k < g.sectorsPerCluster
    ensures i < |ch| <==> offset < |Addrs(g, ch)|
    ensures i * g.sectorsPerCluster + k == offset
    ensures i < |ch| ==>
              && Addrs(g, ch)[offset] == g.Rel(ch[i], k) < Span(g)
              && g.LbaOfCluster(ch[i]) + k == g.clusterBegin + Addrs(g, ch)[offset] < 0x1_0000_0000
  {
    i := offset / g.sectorsPerCluster;
    k := offset - i * g.sectorsPerCluster;
    var w := g.sectorsPerCluster;
    Arith.DivBelow(offset, |ch|, w);
    Arith.DivBelow(offset, |ch| + 1, w);
    assert (|ch| + 1) * w == |ch| * w + w;
    Arith.CellOf(offset, w);
    if offset < |Addrs(g, ch)| {
      var j, l := AddrsIn(g, ch, offset);
    }
  }

  /** Directories and files without a common cluster have no common sector. */
  lemma DirAddrsDisjoint(g: Geometry, a: seq<u32>, b: seq<u32>, s: nat, t: nat)
    requires g.Ok() && Clusters(g, a) && Clusters(g, b) && Disjoint(a, b) && (a == [] ==> g.fatType == FAT16) && b != []
    requires s < |DirAddrs(g, a)| && t < |Addrs(g, b)|
    ensures DirAddrs(g, a)[s] != Addrs(g, b)[t]
  {
    var i, k := AddrsIn(g, b, t);
    if a != [] {
      AddrsDisjoint(g, a, b, s, t);
    }
  }

  function Blank(): Sector { seq(SECTOR_SIZE, _ => 0) }

  /** The sectors at the given places. */
  function Pick(data: seq<Sector>, addrs: seq<int>): (r: seq<Sector>)
    ensures |r| == |addrs|
    ensures forall i :: 0 <= i < |addrs| ==> r[i] == if 0 <= addrs[i] < |data| then data[addrs[i]] else Blank()
  {
    seq(|addrs|, i requires 0 <= i < |addrs| => if 0 <= addrs[i] < |data| then data[addrs[i]] else Blank())
  }

  /** Places that are pairwise different and exist. */
  ghost predicate Proper(addrs: seq<int>, size: nat) {
    && (forall i :: 0 <= i < |addrs| ==> 0 <= addrs[i] < size)
    && (forall i, j :: 0 <= i < j < |addrs| ==> addrs[i] != addrs[j])
  }

  lemma PickWritten(data: seq<Sector>, addrs: seq<int>, x: nat, s: Sector)
    requires Proper(addrs, |data|) && x < |addrs|
    ensures Pick(data[addrs[x] := s], addrs) == Pick(data, addrs)[x := s]
  {
  }

  lemma DirAddrsProper(g: Geometry, dir: seq<u32>, size: nat)
    requires g.Ok() && Clusters(g, dir) && (dir == [] ==> g.fatType == FAT16) && Span(g) <= size
    ensures Proper(DirAddrs(g, dir), size)
  {
    var addrs := DirAddrs(g, dir);
    hide Geometry.Ok, Clusters, Span, DirAddrs, Addrs;
    forall i | 0 <= i < |addrs|
      ensures 0 <= addrs[i] < size && forall j :: 0 <= j < |addrs| && j != i ==> addrs[j] != addrs[i]
    {
      DirAddrsIn(g, dir, i);
    }
  }
}
