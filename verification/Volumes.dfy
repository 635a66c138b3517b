/**
 * The volume invariant: chains, directories and the entries that name chains.  Each step
 * of a file operation is a relation between two volumes, with the tree of names beside
 * them, and keeps the invariant.
 */
module Volumes {
  import opened Words
  import Arith
  import opened Layout
  import opened Chains
  import opened Contents
  import opened FatStrings
  import opened LongNames
  import opened Directories
  import opened Access
  import opened DirScan
  import opened Allocation
  import opened DirWrite
  import opened DirInsert
  import opened Listings
  import opened Ownership

  /**
   * chains by first cluster, the pairs of each directory by its first cluster, and the
   * chains that no entry names: allocated, but not entered.
   */
  datatype Tree = Tree(chains: ChainMap, list: Lists, loose: set<u32>)

  type Lists = map<u32, seq<Pair>>

  // ----- the names

  /** Pair i of directory d names chain s. */
  predicate RefAt(list: Lists, d: u32, i: nat, s: u32) {
    d in list && i < |list[d]| && StartCluster(list[d][i].record) == s
  }

  ghost predicate HasRef(list: Lists, s: u32) { exists d, i: nat :: RefAt(list, d, i, s) }

  /** No two pairs name the same chain. */
  ghost predicate OneRefEach(list: Lists) {
    forall d, i: nat, e, j: nat, s :: RefAt(list, d, i, s) && RefAt(list, e, j, s) ==> d == e && i == j
  }

  /** The pairs marked as directories are those that name directories. */
  ghost predicate KindsAgree(list: Lists) {
    forall d, i: nat :: d in list && i < |list[d]| ==>
      (IsDirectory(list[d][i].record) <==> StartCluster(list[d][i].record) in list)
  }

  ghost predicate RefsIn(root: u32, t: Tree) {
    forall d, i: nat, s :: RefAt(t.list, d, i, s) ==> s in t.chains && s != root && s !in t.loose
  }

  /** Every chain but the root's and the loose ones has a pair. */
  ghost predicate AllNamed(root: u32, t: Tree) {
    forall s :: s in t.chains && s != root && s !in t.loose ==> HasRef(t.list, s)
  }

  ghost predicate Referenced(root: u32, t: Tree) {
    && RefsIn(root, t) && AllNamed(root, t) && OneRefEach(t.list) && KindsAgree(t.list)
    && t.loose <= t.chains.Keys && t.loose !! t.list.Keys
    && root in t.list && t.list.Keys <= t.chains.Keys
  }

  /** No two pairs of a directory have the same short name or the same name. */
  ghost predicate NamesDiffer(list: seq<Pair>) {
    forall i, j :: 0 <= i < j < |list| ==>
      && !SameShortName(list[i].record, list[j].record)
      && Normal(list[i].name) != Normal(list[j].name)
  }

  // ----- the sizes

  /** The bytes that n clusters hold. */
  function Capacity(g: Geometry, n: nat): nat { SECTOR_SIZE * (n * g.sectorsPerCluster) }

  /** No file is longer than its chain. */
  ghost predicate SizesFit(g: Geometry, t: Tree) {
    forall d, i: nat, s :: RefAt(t.list, d, i, s) && s in t.chains && s !in t.list ==>
      FileSize(t.list[d][i].record) <= Capacity(g, |t.chains[s]|)
  }

  lemma MoreHolds(g: Geometry, m: nat, n: nat)
    requires m <= n
    ensures Capacity(g, m) <= Capacity(g, n)
  {
    Arith.MulOrder(m, n, g.sectorsPerCluster);
  }

  /** Chains that files keep or that get longer. */
  lemma SizesStay(g: Geometry, t: Tree, t': Tree)
    requires SizesFit(g, t) && t'.list == t.list
    requires forall d, i: nat, s :: RefAt(t.list, d, i, s) && s in t'.chains ==>
            s in t.chains && |t.chains[s]| <= |t'.chains[s]|
    ensures SizesFit(g, t')
  {
    hide StartCluster, FileSize, Capacity;
    forall d, i: nat, s | RefAt(t'.list, d, i, s) && s in t'.chains && s !in t'.list
      ensures FileSize(t'.list[d][i].record) <= Capacity(g, |t'.chains[s]|)
    {
      MoreHolds(g, |t.chains[s]|, |t'.chains[s]|);
    }
  }

  // ----- the invariant

  /** The slots of every directory list its pairs. */
  ghost predicate Stocked(g: Geometry, v: Volume, t: Tree) {
    forall d :: d in t.list && d in t.chains ==>
      && WellFormed(DirSlots(g, v.data, t.chains[d])) && t.list[d] == Listing(DirSlots(g, v.data, t.chains[d]))
  }

  ghost predicate Inv(g: Geometry, v: Volume, t: Tree) {
    && g.Ok() && g.fatType == FAT32 && Span(g) <= |v.data|
    && Owned(g, v.T, t.chains)
    && Stocked(g, v, t)
    && Referenced(g.rootCluster, t)
    && (forall d :: d in t.list ==> NamesDiffer(t.list[d]))
    && SizesFit(g, t)
  }

  /**
   * Every used cluster is in one chain, which is the root's, or nameless and known to be so, or named
   * by exactly one entry.
   */
  lemma NothingLost(g: Geometry, v: Volume, t: Tree, c: u32) returns (s: u32)
    requires Inv(g, v, t) && 2 <= c < |v.T| && !IsFree(g.fatType, v.T, c)
    ensures s in t.chains && c in t.chains[s]
    ensures forall u :: u in t.chains && c in t.chains[u] ==> u == s
    ensures s != g.rootCluster && s !in t.loose ==> HasRef(t.list, s)
    ensures s == g.rootCluster || s in t.loose ==> !HasRef(t.list, s)
    ensures forall d, i: nat, e, j: nat :: RefAt(t.list, d, i, s) && RefAt(t.list, e, j, s) ==> d == e && i == j
  {
    hide DataChain, IsFree, Link, Stocked, Geometry.Ok, NamesDiffer, RefAt, KindsAgree;
    assert InSome(t.chains, c);
    s :| s in t.chains && c in t.chains[s];
    forall u | u in t.chains && c in t.chains[u] ensures u == s {
      assert u != s ==> Disjoint(t.chains[u], t.chains[s]);
    }
  }

  // ----- frames

  /** The sectors of a chain are the same in both volumes. */
  ghost predicate SameSectors(g: Geometry, v: Volume, w: Volume, ch: seq<u32>) {
    Pick(w.data, Addrs(g, ch)) == Pick(v.data, Addrs(g, ch))
  }

  lemma SectorsKept(g: Geometry, v: Volume, w: Volume, ch: seq<u32>, touched: seq<u32>)
    requires g.Ok() && Clusters(g, ch) && Clusters(g, touched) && Disjoint(ch, touched)
    requires OnlyAt(v.data, w.data, Addrs(g, touched))
    ensures SameSectors(g, v, w, ch)
    ensures ch != [] ==> DirSlots(g, w.data, ch) == DirSlots(g, v.data, ch)
  {
    assert g.sectorsPerCluster > 0;
    hide Geometry.Ok, Clusters, Disjoint, Addrs, OnlyAt, Slots;
    forall i, j | 0 <= i < |Addrs(g, ch)| && 0 <= j < |Addrs(g, touched)|
      ensures Addrs(g, ch)[i] != Addrs(g, touched)[j]
    {
      AddrsDisjoint(g, ch, touched, i, j);
    }
    PickElsewhere(v.data, w.data, Addrs(g, ch), Addrs(g, touched));
  }

  lemma ChainClusters(g: Geometry, T: seq<u32>, chains: ChainMap, s: u32)
    requires Owned(g, T, chains) && s in chains
    ensures Clusters(g, chains[s]) && chains[s] != [] && chains[s][0] == s
    ensures DirChain(g, T, s, chains[s]) && DataChain(g, T, chains[s])
  {
    assert DataChain(g, T, chains[s]);
    assert forall i :: 0 <= i < |chains[s]| ==> Linkable(g.fatType, chains[s][i]);
  }

  /** Chains apart from the touched clusters keep their clusters and their sectors. */
  ghost predicate Apart(chains: ChainMap, chains': ChainMap, s: u32, touched: seq<u32>) {
    s in chains && s in chains' && chains'[s] == chains[s] && Disjoint(chains[s], touched)
  }

  lemma OthersApart(g: Geometry, T: seq<u32>, chains: ChainMap, chains': ChainMap, s: u32)
    requires Owned(g, T, chains) && s in chains
    ensures forall d :: d in chains && d in chains' && chains'[d] == chains[d] && d != s ==>
            Apart(chains, chains', d, chains[s])
  {
    hide DataChain, Disjoint, IsFree;
  }

  /** Directories whose chains are apart from the touched clusters still list their pairs. */
  lemma StockedKept(g: Geometry, v: Volume, w: Volume, t: Tree, t': Tree, touched: seq<u32>)
    requires g.Ok() && Owned(g, v.T, t.chains) && Stocked(g, v, t) && Clusters(g, touched)
    requires OnlyAt(v.data, w.data, Addrs(g, touched))
    requires forall d :: d in t'.list && d in t'.chains ==>
      || (WellFormed(DirSlots(g, w.data, t'.chains[d])) && t'.list[d] == Listing(DirSlots(g, w.data, t'.chains[d])))
      || (d in t.list && t'.list[d] == t.list[d] && Apart(t.chains, t'.chains, d, touched))
    ensures Stocked(g, w, t')
  {
    hide Geometry.Ok, Owned, SizesFit, Clusters, Addrs, OnlyAt, DirSlots, WellFormed, Listing, Disjoint;
    forall d | d in t'.list && d in t'.chains
      ensures WellFormed(DirSlots(g, w.data, t'.chains[d])) && t'.list[d] == Listing(DirSlots(g, w.data, t'.chains[d]))
    {
      if d in t.list && t'.list[d] == t.list[d] && Apart(t.chains, t'.chains, d, touched) {
        ChainClusters(g, v.T, t.chains, d);
        SectorsKept(g, v, w, t.chains[d], touched);
      }
    }
  }

  // ----- steps: a new chain

  /** A free cluster becomes a chain that nothing names yet. */
  ghost predicate Allocated(g: Geometry, v: Volume, t: Tree, w: Volume, t': Tree, c: u32) {
    && Takeable(g, v.T, [c]) && c < |v.T|
    && w == v.(T := v.T[c := Stored(g.fatType, LAST_CLUSTER)])
    && t' == t.(chains := t.chains[c := [c]], loose := t.loose + {c})
  }

  lemma AllocatedKeeps(g: Geometry, v: Volume, t: Tree, w: Volume, t': Tree, c: u32)
    requires Inv(g, v, t) && Allocated(g, v, t, w, t', c)
    ensures Inv(g, w, t')
  {
    hide Geometry.Ok, Owned, SizesFit, Takeable, Stored, Span, NamesDiffer, DirSlots, WellFormed, Listing, RefAt;
    hide HasRef, OneRefEach, KindsAgree;
    AllocKeeps(g, v.T, t.chains, c);
    SizesStay(g, t, t');
  }

  /** The loose chain's clusters are overwritten. */
  ghost predicate Cleaned(g: Geometry, v: Volume, t: Tree, w: Volume, t': Tree, c: u32) {
    c in t.loose && c in t.chains && w.T == v.T && t' == t && OnlyAt(v.data, w.data, Addrs(g, t.chains[c]))
  }

  lemma CleanedKeeps(g: Geometry, v: Volume, t: Tree, w: Volume, t': Tree, c: u32)
    requires Inv(g, v, t) && Cleaned(g, v, t, w, t', c)
    ensures Inv(g, w, t')
  {
    hide Geometry.Ok, Owned, SizesFit, Clusters, Span, Addrs, NamesDiffer, DirSlots, WellFormed, Listing, Stocked;
    hide Disjoint, Apart;
    hide RefAt, RefsIn, AllNamed, OneRefEach, KindsAgree;
    ChainClusters(g, v.T, t.chains, c);
    OthersApart(g, v.T, t.chains, t.chains, c);
    StockedKept(g, v, w, t, t', t.chains[c]);
  }

  /** A loose chain is given back. */
  ghost predicate Dropped(g: Geometry, v: Volume, t: Tree, w: Volume, t': Tree, c: u32) {
    && c in t.loose && c in t.chains
    && w == v.(T := Cleared(v.T, t.chains[c]))
    && t' == t.(chains := t.chains - {c}, loose := t.loose - {c})
  }

  lemma DroppedKeeps(g: Geometry, v: Volume, t: Tree, w: Volume, t': Tree, c: u32)
    requires Inv(g, v, t) && Dropped(g, v, t, w, t', c)
    ensures Inv(g, w, t')
  {
    hide Geometry.Ok, Owned, SizesFit, Cleared, Span, NamesDiffer, DirSlots, WellFormed, Listing, RefAt, HasRef;
    hide OneRefEach, KindsAgree;
    FreeKeeps(g, v.T, t.chains, c);
    SizesStay(g, t, t');
  }

  // ----- steps: entries

  /** Slots that list nothing: what a new directory must consist of. */
  ghost predicate Bare(slots: seq<Slot>) { WellFormed(slots) && Listing(slots) == [] }

  ghost predicate NameIsNew(list: seq<Pair>, e: NewEntry) {
    forall i :: 0 <= i < |list| ==> !SameShortName(list[i].record, Record(e)) && Normal(list[i].name) != Normal(e.name)
  }

  /** A loose chain is entered into a directory under names that are not in use there. */
  ghost predicate Entered(g: Geometry, v: Volume, t: Tree, w: Volume, t': Tree, d: u32, dir': seq<u32>, e: NewEntry) {
    var c := e.startCluster;
    && c in t.loose && c in t.chains && d in t.list && d in t.chains && dir' != []
    && NameIsNew(t.list[d], e) && WellNamed(e) && e.size == 0 && Usable(g, v.T)
    && (e.isDir ==> Bare(DirSlots(g, v.data, t.chains[c])))
    && EntryAdded(g, v, w, d, t.chains[d], dir', e)
    && t'.chains == t.chains[d := dir'] && t'.loose == t.loose - {c}
    && t'.list == EnteredLists(t.list, d, Listing(DirSlots(g, w.data, dir')), e)
  }

  function EnteredLists(list: Lists, d: u32, after: seq<Pair>, e: NewEntry): Lists {
    if e.isDir then list[e.startCluster := []][d := after] else list[d := after]
  }

  /** The FAT side of adding an entry. */
  lemma EnteredOwned(g: Geometry, v: Volume, w: Volume, chains: ChainMap, d: u32, dir': seq<u32>)
    requires g.Ok() && g.fatType == FAT32 && Owned(g, v.T, chains) && d in chains && Usable(g, v.T)
    requires SameOrLonger(g, v, w, chains[d], dir')
    ensures Owned(g, w.T, chains[d := dir'])
  {
    hide Owned, SizesFit, Appended, Free, Takeable, Geometry.Ok;
    if dir' == chains[d] {
      assert chains[d := dir'] == chains;
    } else {
      FreeHere(g, v.T);
      FreeTakeable(g, v.T, 1);
      assert Free(g, v.T)[..1] == [Free(g, v.T)[0]];
      GrowKeeps(g, v.T, chains, d, [Free(g, v.T)[0]]);
    }
  }

  lemma FreeHere(g: Geometry, T: seq<u32>)
    requires Free(g, T) != []
    ensures g.rootCluster <= |T| < 0x1000_0000
  {
  }

  /** The data side of adding an entry. */
  lemma EnteredStocked(g: Geometry, v: Volume, t: Tree, w: Volume, t': Tree, d: u32, dir': seq<u32>, e: NewEntry)
    requires g.Ok() && Owned(g, v.T, t.chains) && Owned(g, w.T, t'.chains) && Stocked(g, v, t)
    requires Entered(g, v, t, w, t', d, dir', e) && t.loose !! t.list.Keys && t.list.Keys <= t.chains.Keys
    ensures Stocked(g, w, t')
    ensures OneMore(t.list[d], t'.list[d], Pair(e.name, Record(e)))
  {
    hide Geometry.Ok, Owned, SizesFit, Clusters, Addrs, DirSlots, WellFormed, Listing, Apart, OnlyAt, Disjoint;
    hide DirChain, SameOrLonger, Usable;
    hide Takeable, OneMore, NameIsNew, Record;
    var c := e.startCluster;
    assert c != d && t'.chains[c] == t.chains[c] && t'.chains[d] == dir';
    ChainClusters(g, w.T, t'.chains, d);
    ApartAfter(g, w.T, t.chains, t'.chains, d);
    if e.isDir {
      NewDirectoryKept(g, v, w, t.chains, t'.chains, c, dir');
    }
    StockedKept(g, v, w, t, t', dir');
  }

  lemma ApartAfter(g: Geometry, T: seq<u32>, chains: ChainMap, chains': ChainMap, s: u32)
    requires Owned(g, T, chains') && s in chains'
    ensures forall d :: d in chains && d in chains' && chains'[d] == chains[d] && d != s ==>
            Apart(chains, chains', d, chains'[s])
  {
    hide DataChain, Disjoint, IsFree;
  }

  lemma NewDirectoryKept(g: Geometry, v: Volume, w: Volume, chains: ChainMap, chains': ChainMap, c: u32, dir': seq<u32>)
    requires g.Ok() && Owned(g, v.T, chains) && Clusters(g, dir') && Apart(chains, chains', c, dir')
    requires OnlyAt(v.data, w.data, Addrs(g, dir'))
    ensures DirSlots(g, w.data, chains'[c]) == DirSlots(g, v.data, chains[c])
  {
    hide Geometry.Ok, Owned, SizesFit, Clusters, Addrs, OnlyAt, Disjoint, DirSlots;
    ChainClusters(g, v.T, chains, c);
    SectorsKept(g, v, w, chains[c], dir');
  }

  /** after is before with the pair inserted at i. */
  ghost predicate PairAdded(before: seq<Pair>, after: seq<Pair>, pair: Pair, i: nat) {
    && |after| == |before| + 1 && i <= |before| && after[i] == pair
    && forall j {:trigger after[j]} :: 0 <= j < |after| && j != i ==>
            after[j] == if j < i then before[j] else before[j - 1]
  }

  lemma InsertedSomewhere(before: seq<Pair>, after: seq<Pair>, pair: Pair) returns (i: nat)
    requires OneMore(before, after, pair)
    ensures PairAdded(before, after, pair, i)
  {
    i :| i <= |before| && after == before[..i] + [pair] + before[i..];
  }

  lemma EnteredNames(before: seq<Pair>, after: seq<Pair>, e: NewEntry)
    requires NamesDiffer(before) && NameIsNew(before, e) && OneMore(before, after, Pair(e.name, Record(e)))
    ensures NamesDiffer(after)
  {
    hide OneMore, Record, SameShortName, Normal;
    var i := InsertedSomewhere(before, after, Pair(e.name, Record(e)));
    SameShortSymmetric();
  }

  lemma SameShortSymmetric()
    ensures forall a: Slot, b: Slot :: SameShortName(a, b) ==> SameShortName(b, a)
  {
  }

  /** In list' the directory d has one pair more, at n, and there may be new empty directories. */
  ghost predicate ListsGrow(list: Lists, list': Lists, d: u32, n: nat, pair: Pair) {
    && d in list && d in list' && PairAdded(list[d], list'[d], pair, n)
    && (forall x :: x in list ==> x in list')
    && (forall x :: x in list' && x != d ==> (x in list && list'[x] == list[x]) || list'[x] == [])
  }

  lemma RefBack(list: Lists, list': Lists, d: u32, n: nat, pair: Pair, x: u32, i: nat, s: u32)
    requires ListsGrow(list, list', d, n, pair) && RefAt(list', x, i, s) && !(x == d && i == n)
    ensures RefAt(list, x, if x == d && i > n then i - 1 else i, s)
  {
    hide StartCluster;
  }

  lemma RefForth(list: Lists, list': Lists, d: u32, n: nat, pair: Pair, x: u32, i: nat, s: u32)
    requires ListsGrow(list, list', d, n, pair) && RefAt(list, x, i, s)
    requires forall y :: y in list && list[y] != [] && y != d ==> list'[y] == list[y]
    ensures RefAt(list', x, if x == d && i >= n then i + 1 else i, s)
  {
    hide StartCluster;
  }

  /** Which chains the new lists name. */
  lemma RefsAfter(list: Lists, list': Lists, d: u32, n: nat, pair: Pair)
    requires ListsGrow(list, list', d, n, pair) && OneRefEach(list) && !HasRef(list, StartCluster(pair.record))
    requires forall y :: y in list && list[y] != [] && y != d ==> list'[y] == list[y]
    ensures forall x, i: nat, s :: RefAt(list', x, i, s) ==> s == StartCluster(pair.record) || HasRef(list, s)
    ensures forall s :: HasRef(list, s) ==> HasRef(list', s)
    ensures HasRef(list', StartCluster(pair.record))
    ensures OneRefEach(list')
  {
    var c := StartCluster(pair.record);
    hide StartCluster;
    assert RefAt(list', d, n, c);
    hide RefAt, ListsGrow;
    forall x, i: nat, s | RefAt(list', x, i, s) ensures s == c || HasRef(list, s) {
      RefBackOrNew(list, list', d, n, pair, x, i, s);
    }
    forall s | HasRef(list, s) ensures HasRef(list', s) {
      var x, i: nat :| RefAt(list, x, i, s);
      RefForth(list, list', d, n, pair, x, i, s);
    }
    forall x, i: nat, y, j: nat, s | RefAt(list', x, i, s) && RefAt(list', y, j, s) ensures x == y && i == j {
      RefBackOrNew(list, list', d, n, pair, x, i, s);
      RefBackOrNew(list, list', d, n, pair, y, j, s);
    }
  }

  lemma RefBackOrNew(list: Lists, list': Lists, d: u32, n: nat, pair: Pair, x: u32, i: nat, s: u32)
    requires ListsGrow(list, list', d, n, pair) && RefAt(list', x, i, s)
    ensures (x == d && i == n && s == StartCluster(pair.record))
            || (!(x == d && i == n) && RefAt(list, x, if x == d && i > n then i - 1 else i, s))
  {
    hide StartCluster;
    if !(x == d && i == n) {
      RefBack(list, list', d, n, pair, x, i, s);
    }
  }

  lemma KindsAfter(list: Lists, list': Lists, d: u32, n: nat, pair: Pair)
    requires ListsGrow(list, list', d, n, pair) && KindsAgree(list)
    requires IsDirectory(pair.record) <==> StartCluster(pair.record) in list'
    requires forall x, i: nat, s :: RefAt(list, x, i, s) ==> (s in list <==> s in list')
    ensures KindsAgree(list')
  {
    hide StartCluster, IsDirectory;
    forall x, i: nat | x in list' && i < |list'[x]|
      ensures IsDirectory(list'[x][i].record) <==> StartCluster(list'[x][i].record) in list'
    {
      if !(x == d && i == n) {
        var s := StartCluster(list'[x][i].record);
        assert RefAt(list', x, i, s);
        RefBack(list, list', d, n, pair, x, i, s);
      }
    }
  }

  lemma EnteredReferenced(root: u32, t: Tree, t': Tree, d: u32, dir': seq<u32>, e: NewEntry)
    requires Referenced(root, t) && e.startCluster in t.loose && e.startCluster in t.chains && d in t.list
    requires e.startCluster != root
    requires d in t'.list && OneMore(t.list[d], t'.list[d], Pair(e.name, Record(e)))
    requires t'.chains == t.chains[d := dir'] && t'.loose == t.loose - {e.startCluster}
    requires t'.list == EnteredLists(t.list, d, t'.list[d], e)
    ensures Referenced(root, t')
  {
    hide OneMore, Record, StartCluster, IsDirectory, OneRefEach, KindsAgree, ListsGrow, RefAt, RefsIn, AllNamed;
    var c, pair := e.startCluster, Pair(e.name, Record(e));
    var n := EnteredGrow(t.list, t'.list, d, e);
    RefsNotLoose(root, t);
    NoRefToLoose(root, t, c);
    RefsAfter(t.list, t'.list, d, n, pair);
    forall x, i: nat, s | RefAt(t.list, x, i, s) ensures s in t.list <==> s in t'.list {
    }
    KindsAfter(t.list, t'.list, d, n, pair);
    RefsInAfter(root, t, t', c);
  }

  lemma EnteredGrow(list: Lists, list': Lists, d: u32, e: NewEntry) returns (n: nat)
    requires d in list && d in list' && OneMore(list[d], list'[d], Pair(e.name, Record(e)))
    requires list' == EnteredLists(list, d, list'[d], e) && e.startCluster !in list
    ensures ListsGrow(list, list', d, n, Pair(e.name, Record(e)))
    ensures StartCluster(Record(e)) == e.startCluster
    ensures IsDirectory(Record(e)) <==> StartCluster(Record(e)) in list'
  {
    hide OneMore, StartCluster, IsDirectory;
    n := InsertedSomewhere(list[d], list'[d], Pair(e.name, Record(e)));
  }

  lemma RefsNotLoose(root: u32, t: Tree)
    requires RefsIn(root, t)
    ensures forall x, i: nat, s :: RefAt(t.list, x, i, s) ==> s !in t.loose
  {
    hide RefAt;
  }

  lemma NoRefToLoose(root: u32, t: Tree, c: u32)
    requires RefsIn(root, t) && c in t.loose
    ensures !HasRef(t.list, c)
  {
    hide RefAt;
  }

  lemma RefsInAfter(root: u32, t: Tree, t': Tree, c: u32)
    requires RefsIn(root, t) && AllNamed(root, t) && c in t.chains && c != root && t'.loose == t.loose - {c}
    requires t'.chains.Keys == t.chains.Keys && HasRef(t'.list, c)
    requires forall x, i: nat, s :: RefAt(t'.list, x, i, s) ==> s == c || HasRef(t.list, s)
    requires forall s :: HasRef(t.list, s) ==> HasRef(t'.list, s)
    ensures RefsIn(root, t') && AllNamed(root, t')
  {
    hide RefAt;
  }

  lemma EnteredSizes(g: Geometry, t: Tree, t': Tree, d: u32, dir': seq<u32>, e: NewEntry)
    requires SizesFit(g, t) && Referenced(g.rootCluster, t) && e.startCluster in t.loose && d in t.list && e.size == 0
    requires d in t'.list && OneMore(t.list[d], t'.list[d], Pair(e.name, Record(e)))
    requires t'.chains == t.chains[d := dir'] && t'.list == EnteredLists(t.list, d, t'.list[d], e)
    ensures SizesFit(g, t')
  {
    hide OneMore, StartCluster, FileSize, IsDirectory, OneRefEach, KindsAgree, RefsIn, AllNamed, Capacity;
    var pair := Pair(e.name, Record(e));
    var n := EnteredGrow(t.list, t'.list, d, e);
    assert FileSize(Record(e)) == 0;
    hide Record;
    forall x, i: nat, s | RefAt(t'.list, x, i, s) && s in t'.chains && s !in t'.list
      ensures FileSize(t'.list[x][i].record) <= Capacity(g, |t'.chains[s]|)
    {
      if !(x == d && i == n) {
        RefBack(t.list, t'.list, d, n, pair, x, i, s);
      }
    }
  }

  lemma EnteredKeeps(g: Geometry, v: Volume, t: Tree, w: Volume, t': Tree, d: u32, dir': seq<u32>, e: NewEntry)
    requires Inv(g, v, t) && Entered(g, v, t, w, t', d, dir', e)
    ensures Inv(g, w, t')
  {
    hide Geometry.Ok, Owned, SizesFit, Stocked, OneRefEach, KindsAgree, RefsIn, AllNamed, DirSlots, Listing, WellFormed;
    hide Span, NameIsNew, Usable, Record;
    hide WellNamed, OneMore, OnlyAt, SameOrLonger, DirChain, NamesDiffer;
    EnteredOwned(g, v, w, t.chains, d, dir');
    EnteredStocked(g, v, t, w, t', d, dir', e);
    EnteredReferenced(g.rootCluster, t, t', d, dir', e);
    EnteredNames(t.list[d], t'.list[d], e);
    EnteredSizes(g, t, t', d, dir', e);
    SameLength(v, w, DirAddrs(g, dir'));
    NoNamesYet();
  }

  lemma SameLength(v: Volume, w: Volume, addrs: seq<int>)
    requires OnlyAt(v.data, w.data, addrs)
    ensures |w.data| == |v.data|
  {
  }

  lemma NoNamesYet()
    ensures NamesDiffer([])
  {
  }

  // ----- steps: removal

  /** The chain a live slot names is given back, and the slot marked deleted. */
  ghost predicate Unlinked(g: Geometry, v: Volume, t: Tree, w: Volume, t': Tree, d: u32, k: nat) {
    && d in t.list && d in t.chains && k < |DirSlots(g, v.data, t.chains[d])|
    && IsLive(DirSlots(g, v.data, t.chains[d])[k])
    && var slots := DirSlots(g, v.data, t.chains[d]);
      var i, s := |Pairs(slots, k)|, StartCluster(slots[k]);
      && s in t.chains && d !in Under(t, s) && i < |t.list[d]|
      && w.T == Cleared(v.T, t.chains[s])
      && Rewritten(g, v.(T := w.T), w, t.chains[d], k, Deleted(slots[k]))
      && t' == Pruned(t, d, i, s)
  }

  /** The tree without pair i of directory d and the chain s that it named; what was below s is nameless then. */
  ghost function Pruned(t: Tree, d: u32, i: nat, s: u32): Tree
    requires d in t.list && i < |t.list[d]|
  {
    Tree(t.chains - {s}, t.list[d := Without(t.list[d], i)] - Under(t, s), t.loose + Below(t, s))
  }

  /** n entries, one inside the other, lead from directory a to chain x. */
  ghost predicate Leads(a: u32, list: Lists, x: u32, n: nat)
    decreases n
  {
    if n == 0 then x == a else exists p, i: nat :: RefAt(list, p, i, x) && Leads(a, list, p, n - 1)
  }

  ghost predicate IsBelow(list: Lists, s: u32, x: u32) { exists n: nat :: n >= 1 && Leads(s, list, x, n) }

  /** The chains below s, and s with them. */
  ghost function Below(t: Tree, s: u32): set<u32> { set x | x in t.chains && IsBelow(t.list, s, x) }

  ghost function Under(t: Tree, s: u32): set<u32> { Below(t, s) + {s} }

  /** lost is what hangs below s. */
  ghost predicate Hangs(list: Lists, s: u32, lost: set<u32>) {
    && (forall x, i: nat, u :: RefAt(list, x, i, u) && (x == s || x in lost) ==> u in lost)
    && (forall u :: u in lost ==> HasRefFrom(list, lost + {s}, u))
  }

  ghost predicate HasRefFrom(list: Lists, dirs: set<u32>, u: u32) {
    exists x, i: nat :: x in dirs && RefAt(list, x, i, u)
  }

  lemma BelowHangs(root: u32, t: Tree, s: u32)
    requires RefsIn(root, t)
    ensures Hangs(t.list, s, Below(t, s))
  {
    hide StartCluster, RefAt;
    var lost := Below(t, s);
    forall x, i: nat, u | RefAt(t.list, x, i, u) && (x == s || x in lost) ensures u in lost {
      if x == s {
        assert Leads(s, t.list, x, 0) && Leads(s, t.list, u, 1);
      } else {
        var n: nat :| n >= 1 && Leads(s, t.list, x, n);
        assert Leads(s, t.list, u, n + 1);
      }
    }
    forall u | u in lost ensures HasRefFrom(t.list, lost + {s}, u) {
      var n: nat :| n >= 1 && Leads(s, t.list, u, n);
      var p, i: nat :| RefAt(t.list, p, i, u) && Leads(s, t.list, p, n - 1);
      if n == 1 {
        assert p == s;
      } else {
        var q, j: nat :| RefAt(t.list, q, j, p) && Leads(s, t.list, q, n - 2);
        assert IsBelow(t.list, s, p) && p in t.chains;
      }
    }
  }

  /** A path that leaves a starts with an entry of a. */
  lemma {:induction false} LeadsFrom(a: u32, list: Lists, x: u32, n: nat)
    requires Leads(a, list, x, n) && n >= 1
    ensures a in list && list[a] != []
    decreases n
  {
    hide StartCluster;
    var p, i: nat :| RefAt(list, p, i, x) && Leads(a, list, p, n - 1);
    if n > 1 {
      hide RefAt;
      LeadsFrom(a, list, p, n - 1);
    }
  }

  lemma BelowNone(t: Tree, s: u32)
    requires s !in t.list || t.list[s] == []
    ensures Below(t, s) == {}
  {
    hide StartCluster;
    if Below(t, s) != {} {
      var x :| x in Below(t, s);
      var n: nat :| n >= 1 && Leads(s, t.list, x, n);
      LeadsFrom(s, t.list, x, n);
    }
  }

  /** Something is below a chain exactly if it is a directory that is not empty. */
  lemma BelowExactly(root: u32, t: Tree, s: u32)
    requires RefsIn(root, t)
    ensures Below(t, s) == {} <==> s !in t.list || t.list[s] == []
  {
    hide StartCluster;
    BelowHangs(root, t, s);
    if s in t.list && t.list[s] != [] {
      assert RefAt(t.list, s, 0, StartCluster(t.list[s][0].record));
    } else {
      BelowNone(t, s);
    }
  }

  /**
   * list' is list without pair n of directory d, which named chain s, and without s and the
   * directories below it.
   */
  ghost predicate ListsShrink(list: Lists, list': Lists, d: u32, n: nat, s: u32, lost: set<u32>) {
    && RefAt(list, d, n, s) && d != s && d !in lost && Hangs(list, s, lost)
    && list' == list[d := Without(list[d], n)] - (lost + {s})
  }

  lemma RefGone(list: Lists, list': Lists, d: u32, n: nat, s: u32, lost: set<u32>, x: u32, i: nat, u: u32)
    requires ListsShrink(list, list', d, n, s, lost) && OneRefEach(list) && RefAt(list', x, i, u)
    ensures RefAt(list, x, if x == d && i >= n then i + 1 else i, u)
    ensures u != s && u !in lost
  {
    hide StartCluster;
    assert RefAt(list, x, if x == d && i >= n then i + 1 else i, u);
    assert u in lost ==> HasRefFrom(list, lost + {s}, u);
  }

  lemma RefStays(list: Lists, list': Lists, d: u32, n: nat, s: u32, lost: set<u32>, x: u32, i: nat, u: u32)
    requires ListsShrink(list, list', d, n, s, lost) && RefAt(list, x, i, u) && u != s && u !in lost
    ensures RefAt(list', x, if x == d && i > n then i - 1 else i, u)
  {
    hide StartCluster;
  }

  lemma ShrinkRefs(list: Lists, list': Lists, d: u32, n: nat, s: u32, lost: set<u32>)
    requires ListsShrink(list, list', d, n, s, lost) && OneRefEach(list)
    ensures forall x, i: nat, u :: RefAt(list', x, i, u) ==> u != s && u !in lost && HasRef(list, u)
    ensures forall u :: HasRef(list, u) && u != s && u !in lost ==> HasRef(list', u)
    ensures OneRefEach(list')
  {
    assert RefAt(list, d, n, s);
    hide RefAt, ListsShrink;
    forall x, i: nat, u | RefAt(list', x, i, u) ensures u != s && u !in lost && HasRef(list, u) {
      RefGone(list, list', d, n, s, lost, x, i, u);
    }
    forall u | HasRef(list, u) && u != s && u !in lost ensures HasRef(list', u) {
      var x, i: nat :| RefAt(list, x, i, u);
      RefStays(list, list', d, n, s, lost, x, i, u);
    }
    forall x, i: nat, y, j: nat, u | RefAt(list', x, i, u) && RefAt(list', y, j, u) ensures x == y && i == j {
      RefGone(list, list', d, n, s, lost, x, i, u);
      RefGone(list, list', d, n, s, lost, y, j, u);
    }
  }

  lemma ShrinkKinds(list: Lists, list': Lists, d: u32, n: nat, s: u32, lost: set<u32>)
    requires ListsShrink(list, list', d, n, s, lost) && OneRefEach(list) && KindsAgree(list)
    ensures KindsAgree(list')
  {
    hide StartCluster, IsDirectory, Hangs;
    forall x, i: nat | x in list' && i < |list'[x]|
      ensures IsDirectory(list'[x][i].record) <==> StartCluster(list'[x][i].record) in list'
    {
      var u := StartCluster(list'[x][i].record);
      assert RefAt(list', x, i, u);
      RefGone(list, list', d, n, s, lost, x, i, u);
      assert u in list' <==> u in list;
    }
  }

  /** What hangs below s is neither s nor the root, and it is not nameless yet. */
  lemma LostParts(root: u32, t: Tree, t': Tree, d: u32, n: nat, s: u32, lost: set<u32>)
    requires Referenced(root, t) && ListsShrink(t.list, t'.list, d, n, s, lost)
    ensures s !in lost && root !in lost && lost !! t.loose && lost <= t.chains.Keys
    ensures t'.list.Keys == t.list.Keys - lost - {s} && d in t.list
  {
    hide KindsAgree, HasRef, StartCluster, AllNamed;
    forall u | u in lost ensures u != s && u != root && u !in t.loose && u in t.chains {
      var x, i: nat :| x in lost + {s} && RefAt(t.list, x, i, u);
    }
  }

  lemma UnlinkedReferenced(root: u32, t: Tree, t': Tree, d: u32, n: nat, s: u32, lost: set<u32>)
    requires Referenced(root, t) && ListsShrink(t.list, t'.list, d, n, s, lost)
    requires t'.chains == t.chains - {s} && t'.loose == t.loose + lost
    ensures Referenced(root, t') && d != s && d in t'.list && s in t.chains
  {
    hide OneRefEach, KindsAgree, RefsIn, AllNamed, ListsShrink;
    LostParts(root, t, t', d, n, s, lost);
    ShrinkKinds(t.list, t'.list, d, n, s, lost);
    UnlinkedRefs(root, t, t', d, n, s, lost);
  }

  /** The other chains keep their pairs, and there are no other pairs. */
  lemma UnlinkedRefs(root: u32, t: Tree, t': Tree, d: u32, n: nat, s: u32, lost: set<u32>)
    requires RefsIn(root, t) && AllNamed(root, t) && OneRefEach(t.list)
    requires ListsShrink(t.list, t'.list, d, n, s, lost)
    requires t'.chains == t.chains - {s} && t'.loose == t.loose + lost
    ensures RefsIn(root, t') && AllNamed(root, t') && OneRefEach(t'.list)
    ensures d != s && d !in lost && s in t.chains && s != root && s !in t.loose
  {
    hide OneRefEach, RefAt, Hangs;
    RefsLead(root, t);
    ShrinkRefs(t.list, t'.list, d, n, s, lost);
    RefIs(t.list, t'.list, d, n, s, lost);
    hide HasRef, ListsShrink;
    forall x, i: nat, u | RefAt(t'.list, x, i, u) ensures u in t'.chains && u != root && u !in t'.loose {
      assert u != s && u !in lost && HasRef(t.list, u);
    }
  }

  lemma RefIs(list: Lists, list': Lists, d: u32, n: nat, s: u32, lost: set<u32>)
    requires ListsShrink(list, list', d, n, s, lost)
    ensures HasRef(list, s) && d != s && d !in lost
  {
    hide RefAt, Hangs;
  }

  lemma RefsLead(root: u32, t: Tree)
    requires RefsIn(root, t)
    ensures forall u :: HasRef(t.list, u) ==> u in t.chains && u != root && u !in t.loose
  {
    hide RefAt;
  }

  lemma WithoutNames(list: seq<Pair>, n: nat)
    requires NamesDiffer(list) && n < |list|
    ensures NamesDiffer(Without(list, n))
  {
    hide SameShortName, Normal;
  }

  lemma UnlinkedStocked(g: Geometry, v: Volume, t: Tree, w: Volume, t': Tree, d: u32, k: nat)
    requires g.Ok() && Owned(g, v.T, t.chains) && Stocked(g, v, t) && Unlinked(g, v, t, w, t', d, k) && d in t'.chains
    requires t.list.Keys <= t.chains.Keys
    ensures Stocked(g, w, t') && |w.data| == |v.data|
  {
    hide Geometry.Ok, Owned, SizesFit, DirSlots, Listing, Pairs, WellFormed, Span, OnlyAt, DirChain, IsLive;
    hide StartCluster, Deleted, Cleared, Apart, Below;
    hide Clusters, Addrs, Without;
    var slots := DirSlots(g, v.data, t.chains[d]);
    DeleteOnList(slots, k);
    ChainClusters(g, v.T, t.chains, d);
    OthersApart(g, v.T, t.chains, t'.chains, d);
    SameLength(v, w, DirAddrs(g, t.chains[d]));
    StockedKept(g, v, w, t, t', t.chains[d]);
  }

  lemma UnlinkedSizes(g: Geometry, t: Tree, t': Tree, d: u32, n: nat, s: u32, lost: set<u32>)
    requires SizesFit(g, t) && OneRefEach(t.list) && ListsShrink(t.list, t'.list, d, n, s, lost)
    requires t'.chains == t.chains - {s}
    ensures SizesFit(g, t')
  {
    hide StartCluster, FileSize, OneRefEach, Capacity, Hangs;
    forall x, i: nat, u | RefAt(t'.list, x, i, u) && u in t'.chains && u !in t'.list
      ensures FileSize(t'.list[x][i].record) <= Capacity(g, |t'.chains[u]|)
    {
      RefGone(t.list, t'.list, d, n, s, lost, x, i, u);
    }
  }

  lemma UnlinkedKeeps(g: Geometry, v: Volume, t: Tree, w: Volume, t': Tree, d: u32, k: nat)
    requires Inv(g, v, t) && Unlinked(g, v, t, w, t', d, k)
    ensures Inv(g, w, t')
  {
    hide Geometry.Ok, Owned, SizesFit, OneRefEach, KindsAgree, RefsIn, AllNamed, DirSlots, Listing, Pairs, WellFormed;
    hide Span, Stocked, RefAt;
    hide OnlyAt, Rewritten, NamesDiffer, IsLive, StartCluster, Deleted, Cleared, Without, Below, Hangs;
    var slots := DirSlots(g, v.data, t.chains[d]);
    var n, s := |Pairs(slots, k)|, StartCluster(slots[k]);
    var lost := Below(t, s);
    PairOfSlot(g, v, t, d, k);
    BelowHangs(g.rootCluster, t, s);
    UnlinkedReferenced(g.rootCluster, t, t', d, n, s, lost);
    FreeKeeps(g, v.T, t.chains, s);
    UnlinkedStocked(g, v, t, w, t', d, k);
    UnlinkedSizes(g, t, t', d, n, s, lost);
    WithoutNames(t.list[d], n);
  }

  /** The pair of a live slot. */
  lemma PairOfSlot(g: Geometry, v: Volume, t: Tree, d: u32, k: nat)
    requires Stocked(g, v, t) && d in t.list && d in t.chains
    requires k < |DirSlots(g, v.data, t.chains[d])| && IsLive(DirSlots(g, v.data, t.chains[d])[k])
    ensures var slots := DirSlots(g, v.data, t.chains[d]);
      && |Pairs(slots, k)| < |t.list[d]| && t.list[d][|Pairs(slots, k)|] == Pair(NameAt(slots, k), slots[k])
      && RefAt(t.list, d, |Pairs(slots, k)|, StartCluster(slots[k]))
  {
    hide DirSlots, Pairs, WellFormed, IsLive, NameAt, StartCluster;
    var slots := DirSlots(g, v.data, t.chains[d]);
    Listed(slots, k, |slots|);
  }

  // ----- steps: files

  /** Free clusters are linked behind the chain of a file. */
  ghost predicate FileGrown(g: Geometry, v: Volume, t: Tree, w: Volume, t': Tree, s: u32, add: seq<u32>) {
    && s in t.chains && s !in t.list && Takeable(g, v.T, add)
    && var ch := t.chains[s];
      && ch != [] && ch[|ch| - 1] < |v.T| && (forall i :: 0 <= i < |add| ==> add[i] < |v.T|)
      && w == v.(T := Appended(g.fatType, v.T, ch[|ch| - 1], add))
      && t' == t.(chains := t.chains[s := ch + add])
  }

  lemma FileGrownKeeps(g: Geometry, v: Volume, t: Tree, w: Volume, t': Tree, s: u32, add: seq<u32>)
    requires Inv(g, v, t) && FileGrown(g, v, t, w, t', s, add)
    ensures Inv(g, w, t')
  {
    hide Geometry.Ok, Owned, SizesFit, OneRefEach, KindsAgree, DirSlots, Listing, WellFormed, Span, RefAt, HasRef;
    hide Takeable, NamesDiffer, Appended;
    GrowKeeps(g, v.T, t.chains, s, add);
    SizesStay(g, t, t');
  }

  /** Sectors of a file are overwritten. */
  ghost predicate FileWritten(g: Geometry, v: Volume, t: Tree, w: Volume, t': Tree, s: u32) {
    s in t.chains && s !in t.list && w.T == v.T && t' == t && OnlyAt(v.data, w.data, Addrs(g, t.chains[s]))
  }

  lemma FileWrittenKeeps(g: Geometry, v: Volume, t: Tree, w: Volume, t': Tree, s: u32)
    requires Inv(g, v, t) && FileWritten(g, v, t, w, t', s)
    ensures Inv(g, w, t')
  {
    hide Geometry.Ok, Owned, SizesFit, Clusters, Span, Addrs, NamesDiffer, DirSlots, WellFormed, Listing, Stocked;
    hide Disjoint, Apart;
    hide RefAt, RefsIn, AllNamed, OneRefEach, KindsAgree;
    ChainClusters(g, v.T, t.chains, s);
    OthersApart(g, v.T, t.chains, t.chains, s);
    StockedKept(g, v, w, t, t', t.chains[s]);
  }

  /** The size in the record of a live slot changes. */
  ghost predicate Resized(g: Geometry, v: Volume, t: Tree, w: Volume, t': Tree, d: u32, k: nat, size: u32) {
    && d in t.list && d in t.chains && k < |DirSlots(g, v.data, t.chains[d])|
    && IsLive(DirSlots(g, v.data, t.chains[d])[k])
    && var slots := DirSlots(g, v.data, t.chains[d]);
      var i := |Pairs(slots, k)|;
      && i < |t.list[d]| && Rewritten(g, v, w, t.chains[d], k, WithSize(slots[k], size))
      && (StartCluster(slots[k]) in t.chains ==> size <= Capacity(g, |t.chains[StartCluster(slots[k])]|))
      && t' == t.(list := t.list[d := t.list[d][i := Pair(t.list[d][i].name, WithSize(slots[k], size))]])
  }

  lemma SizeKeepsNames(s: Slot, size: u32)
    ensures StartCluster(WithSize(s, size)) == StartCluster(s) && IsDirectory(WithSize(s, size)) == IsDirectory(s)
    ensures WithSize(s, size)[..11] == s[..11] && FileSize(WithSize(s, size)) == size
  {
    Put32Get32(s, 28, size, 28);
  }

  /** The lists name the same chains, pair by pair. */
  ghost predicate SameRefs(list: Lists, list': Lists) {
    && list'.Keys == list.Keys
    && forall x :: x in list ==> |list'[x]| == |list[x]| && forall j :: 0 <= j < |list[x]| ==>
         && StartCluster(list'[x][j].record) == StartCluster(list[x][j].record)
         && IsDirectory(list'[x][j].record) == IsDirectory(list[x][j].record)
  }

  lemma SameRefsReferenced(root: u32, t: Tree, list': Lists)
    requires Referenced(root, t) && SameRefs(t.list, list')
    ensures Referenced(root, t.(list := list'))
  {
    hide StartCluster, IsDirectory;
    forall x, j: nat, u ensures RefAt(list', x, j, u) <==> RefAt(t.list, x, j, u) {
    }
    assert KindsAgree(list');
    hide KindsAgree, RefAt, SameRefs;
  }

  lemma ResizedReferenced(root: u32, t: Tree, t': Tree, d: u32, i: nat, size: u32)
    requires Referenced(root, t) && d in t.list && i < |t.list[d]|
    requires t' == t.(list := t.list[d := t.list[d][i := Pair(t.list[d][i].name, WithSize(t.list[d][i].record, size))]])
    ensures Referenced(root, t')
  {
    hide StartCluster, IsDirectory, WithSize, Referenced;
    SizeKeepsNames(t.list[d][i].record, size);
    SameRefsReferenced(root, t, t'.list);
  }

  lemma ResizedNames(list: seq<Pair>, i: nat, size: u32)
    requires NamesDiffer(list) && i < |list|
    ensures NamesDiffer(list[i := Pair(list[i].name, WithSize(list[i].record, size))])
  {
    var r := WithSize(list[i].record, size);
    SizeKeepsNames(list[i].record, size);
    assert forall x: Slot ::
        SameShortName(r, x) == SameShortName(list[i].record, x) &&
        SameShortName(x, r) == SameShortName(x, list[i].record);
    hide SameShortName, Normal, WithSize;
  }

  lemma ResizedStocked(g: Geometry, v: Volume, t: Tree, w: Volume, t': Tree, d: u32, k: nat, size: u32)
    requires g.Ok() && Owned(g, v.T, t.chains) && Stocked(g, v, t) && Resized(g, v, t, w, t', d, k, size)
    requires t.list.Keys <= t.chains.Keys
    ensures Stocked(g, w, t') && |w.data| == |v.data|
  {
    hide Geometry.Ok, Owned, SizesFit, DirSlots, Listing, Pairs, WellFormed, Span, OnlyAt, DirChain, IsLive, WithSize;
    hide Apart;
    hide Clusters, Addrs, NameAt;
    var slots := DirSlots(g, v.data, t.chains[d]);
    PairOfSlot(g, v, t, d, k);
    ResizeOnList(slots, k, size);
    ChainClusters(g, v.T, t.chains, d);
    OthersApart(g, v.T, t.chains, t'.chains, d);
    SameLength(v, w, DirAddrs(g, t.chains[d]));
    StockedKept(g, v, w, t, t', t.chains[d]);
  }

  lemma ResizedSizes(g: Geometry, t: Tree, t': Tree, d: u32, i: nat, size: u32)
    requires SizesFit(g, t) && d in t.list && i < |t.list[d]|
    requires var s := StartCluster(t.list[d][i].record); s in t.chains ==> size <= Capacity(g, |t.chains[s]|)
    requires t' == t.(list := t.list[d := t.list[d][i := Pair(t.list[d][i].name, WithSize(t.list[d][i].record, size))]])
    ensures SizesFit(g, t')
  {
    SizeKeepsNames(t.list[d][i].record, size);
    hide StartCluster, FileSize, WithSize, Capacity;
    forall x, j: nat, u | RefAt(t'.list, x, j, u) && u in t'.chains && u !in t'.list
      ensures FileSize(t'.list[x][j].record) <= Capacity(g, |t'.chains[u]|)
    {
      assert RefAt(t.list, x, j, u);
    }
  }

  lemma ResizedKeeps(g: Geometry, v: Volume, t: Tree, w: Volume, t': Tree, d: u32, k: nat, size: u32)
    requires Inv(g, v, t) && Resized(g, v, t, w, t', d, k, size)
    ensures Inv(g, w, t')
  {
    hide Geometry.Ok, Owned, SizesFit, Referenced, DirSlots, Listing, Pairs, WellFormed, Span, Stocked, RefAt;
    hide OnlyAt, NamesDiffer, IsLive, WithSize, NameAt, DirAddrs;
    assert t.list.Keys <= t.chains.Keys by { ListsChained(g.rootCluster, t); }
    var i := |Pairs(DirSlots(g, v.data, t.chains[d]), k)|;
    PairOfSlot(g, v, t, d, k);
    ResizedReferenced(g.rootCluster, t, t', d, i, size);
    ResizedStocked(g, v, t, w, t', d, k, size);
    ResizedNames(t.list[d], i, size);
    ResizedSizes(g, t, t', d, i, size);
  }

  lemma ListsChained(root: u32, t: Tree)
    requires Referenced(root, t)
    ensures t.list.Keys <= t.chains.Keys
  {
  }

  // ----- runs

  datatype Move =
    | Allocate(c: u32)
    | Clean(c: u32)
    | Drop(c: u32)
    | Enter(d: u32, dir: seq<u32>, entry: NewEntry)
    | Unlink(d: u32, k: nat)
    | Grow(s: u32, add: seq<u32>)
    | Write(s: u32)
    | Resize(d: u32, k: nat, size: u32)
  {
    /** The chain whose sectors or length may change. */
    function Touched(): u32 {
      match this
      case Allocate(c) => c
      case Clean(c) => c
      case Drop(c) => c
      case Enter(d, _, _) => d
      case Unlink(d, _) => d
      case Grow(s, _) => s
      case Write(s) => s
      case Resize(d, _, _) => d
    }
  }

  ghost predicate Step(g: Geometry, v: Volume, t: Tree, w: Volume, t': Tree, m: Move) {
    match m
    case Allocate(c) => Allocated(g, v, t, w, t', c)
    case Clean(c) => Cleaned(g, v, t, w, t', c)
    case Drop(c) => Dropped(g, v, t, w, t', c)
    case Enter(d, dir, entry) => Entered(g, v, t, w, t', d, dir, entry)
    case Unlink(d, k) => Unlinked(g, v, t, w, t', d, k)
    case Grow(s, add) => FileGrown(g, v, t, w, t', s, add)
    case Write(s) => FileWritten(g, v, t, w, t', s)
    case Resize(d, k, size) => Resized(g, v, t, w, t', d, k, size)
  }

  lemma StepKeeps(g: Geometry, v: Volume, t: Tree, w: Volume, t': Tree, m: Move)
    requires Inv(g, v, t) && Step(g, v, t, w, t', m)
    ensures Inv(g, w, t')
  {
    hide Inv, Allocated, Cleaned, Dropped, Entered, Unlinked, FileGrown, FileWritten, Resized;
    match m
    case Allocate(c) => AllocatedKeeps(g, v, t, w, t', c);
    case Clean(c) => CleanedKeeps(g, v, t, w, t', c);
    case Drop(c) => DroppedKeeps(g, v, t, w, t', c);
    case Enter(d, dir, entry) => EnteredKeeps(g, v, t, w, t', d, dir, entry);
    case Unlink(d, k) => UnlinkedKeeps(g, v, t, w, t', d, k);
    case Grow(s, add) => FileGrownKeeps(g, v, t, w, t', s, add);
    case Write(s) => FileWrittenKeeps(g, v, t, w, t', s);
    case Resize(d, k, size) => ResizedKeeps(g, v, t, w, t', d, k, size);
  }

  /** A run: volumes and trees, with the moves between them. */
  ghost predicate IsRun(g: Geometry, vs: seq<Volume>, ts: seq<Tree>, ms: seq<Move>) {
    && |vs| == |ts| == |ms| + 1
    && forall i :: 0 <= i < |ms| ==> Step(g, vs[i], ts[i], vs[i + 1], ts[i + 1], ms[i])
  }

  /** The invariant holds at every point of every run. */
  lemma {:induction false} RunKeeps(g: Geometry, vs: seq<Volume>, ts: seq<Tree>, ms: seq<Move>, n: nat)
    requires IsRun(g, vs, ts, ms) && Inv(g, vs[0], ts[0]) && n < |vs|
    ensures Inv(g, vs[n], ts[n])
  {
    hide Inv, Step;
    if n > 0 {
      RunKeeps(g, vs, ts, ms, n - 1);
      StepKeeps(g, vs[n - 1], ts[n - 1], vs[n], ts[n], ms[n - 1]);
    }
  }

  /** Some run leads from the one state to the other. */
  ghost predicate Reaches(g: Geometry, v: Volume, t: Tree, w: Volume, t': Tree) {
    exists vs, ts, ms :: IsRun(g, vs, ts, ms) && vs[0] == v && ts[0] == t && vs[|ms|] == w && ts[|ms|] == t'
  }

  lemma ReachesSelf(g: Geometry, v: Volume, t: Tree)
    ensures Reaches(g, v, t, v, t)
  {
    assert IsRun(g, [v], [t], []);
  }

  lemma ReachesStep(g: Geometry, v: Volume, t: Tree, w: Volume, t': Tree, m: Move)
    requires Step(g, v, t, w, t', m)
    ensures Reaches(g, v, t, w, t')
  {
    hide Step;
    assert IsRun(g, [v, w], [t, t'], [m]);
  }

  lemma ReachesOn(g: Geometry, v: Volume, t: Tree, u: Volume, t1: Tree, w: Volume, t2: Tree)
    requires Reaches(g, v, t, u, t1) && Reaches(g, u, t1, w, t2)
    ensures Reaches(g, v, t, w, t2)
  {
    hide Step;
    var vs, ts, ms :| IsRun(g, vs, ts, ms) && vs[0] == v && ts[0] == t && vs[|ms|] == u && ts[|ms|] == t1;
    var vs', ts', ms' :| IsRun(g, vs', ts', ms') && vs'[0] == u && ts'[0] == t1 && vs'[|ms'|] == w && ts'[|ms'|] == t2;
    var va, ta, ma := vs + vs'[1..], ts + ts'[1..], ms + ms';
    forall i | 0 <= i < |ma| ensures Step(g, va[i], ta[i], va[i + 1], ta[i + 1], ma[i]) {
      if i >= |ms| {
        assert Step(g, vs'[i - |ms|], ts'[i - |ms|], vs'[i - |ms| + 1], ts'[i - |ms| + 1], ms'[i - |ms|]);
      }
    }
    assert IsRun(g, va, ta, ma);
  }

  /** What is reached from a volume in order is in order. */
  lemma ReachesKeeps(g: Geometry, v: Volume, t: Tree, w: Volume, t': Tree)
    requires Inv(g, v, t) && Reaches(g, v, t, w, t')
    ensures Inv(g, w, t')
  {
    hide Inv, Step;
    var vs, ts, ms :| IsRun(g, vs, ts, ms) && vs[0] == v && ts[0] == t && vs[|ms|] == w && ts[|ms|] == t';
    RunKeeps(g, vs, ts, ms, |ms|);
  }

  // ----- what a step leaves alone

  /** Every chain but one that is there before and after keeps its clusters and its sectors. */
  ghost predicate OthersKept(g: Geometry, v: Volume, t: Tree, w: Volume, t': Tree, but: u32) {
    forall u :: u in t.chains && u in t'.chains && u != but ==>
      t'.chains[u] == t.chains[u] && SameSectors(g, v, w, t.chains[u])
  }

  lemma ApartFrame(g: Geometry, v: Volume, w: Volume, chains: ChainMap, chains': ChainMap, s: u32, touched: seq<u32>)
    requires g.Ok() && Owned(g, v.T, chains) && Clusters(g, touched) && OnlyAt(v.data, w.data, Addrs(g, touched))
    requires forall u :: u in chains && u in chains' && u != s ==> Apart(chains, chains', u, touched)
    ensures forall u :: u in chains && u in chains' && u != s ==>
            chains'[u] == chains[u] && SameSectors(g, v, w, chains[u])
  {
    hide Geometry.Ok, Owned, SizesFit, Clusters, Addrs, OnlyAt, SameSectors, Disjoint;
    forall u | u in chains && u in chains' && u != s
      ensures chains'[u] == chains[u] && SameSectors(g, v, w, chains[u])
    {
      ChainClusters(g, v.T, chains, u);
      assert Apart(chains, chains', u, touched);
      SectorsKept(g, v, w, chains[u], touched);
    }
  }

  lemma EnterFrame(g: Geometry, v: Volume, t: Tree, w: Volume, t': Tree, d: u32, dir': seq<u32>, e: NewEntry)
    requires Inv(g, v, t) && Inv(g, w, t') && Entered(g, v, t, w, t', d, dir', e)
    ensures OthersKept(g, v, t, w, t', d)
  {
    hide Owned, SizesFit, Stocked, Referenced, NamesDiffer, Geometry.Ok, Span, Clusters, DirSlots, OnlyAt, Addrs, Apart;
    hide DirChain, SameSectors;
    ChainClusters(g, w.T, t'.chains, d);
    ApartAfter(g, w.T, t.chains, t'.chains, d);
    ApartFrame(g, v, w, t.chains, t'.chains, d, dir');
  }

  /** Only sectors of chain s are overwritten, and no other chain is changed. */
  lemma TouchFrame(g: Geometry, v: Volume, t: Tree, w: Volume, t': Tree, s: u32)
    requires Inv(g, v, t) && s in t.chains && OnlyAt(v.data, w.data, Addrs(g, t.chains[s]))
    requires forall u :: u in t.chains && u in t'.chains && u != s ==> t'.chains[u] == t.chains[u]
    ensures OthersKept(g, v, t, w, t', s)
  {
    hide Owned, SizesFit, Stocked, Referenced, NamesDiffer, Geometry.Ok, Span, Clusters, OnlyAt, Addrs, Apart;
    hide SameSectors;
    ChainClusters(g, v.T, t.chains, s);
    OthersApart(g, v.T, t.chains, t'.chains, s);
    ApartFrame(g, v, w, t.chains, t'.chains, s, t.chains[s]);
  }

  lemma OnlyAtDir(g: Geometry, v: Volume, w: Volume, t: Tree, d: u32)
    requires Inv(g, v, t) && d in t.list && d in t.chains && OnlyAt(v.data, w.data, DirAddrs(g, t.chains[d]))
    ensures OnlyAt(v.data, w.data, Addrs(g, t.chains[d]))
  {
    ChainClusters(g, v.T, t.chains, d);
    hide OnlyAt, Addrs;
  }

  /** A step touches the sectors of one chain only. */
  lemma StepFrame(g: Geometry, v: Volume, t: Tree, w: Volume, t': Tree, m: Move)
    requires Inv(g, v, t) && Step(g, v, t, w, t', m)
    ensures OthersKept(g, v, t, w, t', m.Touched())
  {
    hide Inv, OnlyAt, DirAddrs, Addrs, DirSlots, Listing, IsLive, Pairs, Takeable, Appended, Cleared, Without, Below;
    match m
    case Allocate(c) =>
    case Clean(c) => TouchFrame(g, v, t, w, t', c);
    case Drop(c) =>
    case Enter(d, dir, entry) =>
      StepKeeps(g, v, t, w, t', m);
      EnterFrame(g, v, t, w, t', d, dir, entry);
    case Unlink(d, _) =>
      OnlyAtDir(g, v, w, t, d);
      TouchFrame(g, v, t, w, t', d);
    case Grow(s, add) =>
    case Write(s) => TouchFrame(g, v, t, w, t', s);
    case Resize(d, _, _) =>
      OnlyAtDir(g, v, w, t, d);
      TouchFrame(g, v, t, w, t', d);
  }

  // ----- the start

  /** A fresh volume: the root directory is one blank cluster, and everything else is free. */
  ghost predicate FreshTable(g: Geometry, T: seq<u32>) {
    && g.fatType == FAT32 && g.rootCluster == 2 && 3 <= |T| < 0x1000_0000
    && (forall c :: 0 <= c < 3 ==> Link(g.fatType, T[c]) == LAST_CLUSTER)
    && (forall c :: 3 <= c < |T| ==> T[c] == 0)
  }

  function FreshTree(): Tree { Tree(map[2 := [2]], map[2 := []], {}) }

  lemma FreshInv(g: Geometry, v: Volume)
    requires g.Ok() && Span(g) <= |v.data| && FreshTable(g, v.T) && Bare(DirSlots(g, v.data, [2]))
    ensures Inv(g, v, FreshTree())
  {
    hide Bare, DirSlots, Listing, WellFormed, Span, Owned, SizesFit, Geometry.Ok, FreshTable;
    var t := FreshTree();
    assert t.chains[2] == [2];
    FreshOwned(g, v.T);
    BareIs(DirSlots(g, v.data, [2]));
    NoNamesYet();
  }

  lemma FreshOwned(g: Geometry, T: seq<u32>)
    requires g.Ok() && FreshTable(g, T)
    ensures Owned(g, T, map[2 := [2]]) && g.fatType == FAT32 && g.rootCluster == 2
    ensures SizesFit(g, FreshTree())
  {
    var chains := map[2 := [2]];
    assert DataChain(g, T, [2]);
    forall c: u32 | 2 <= c < |T| && !IsFree(g.fatType, T, c) ensures InSome(chains, c) {
      assert 2 in chains && c in chains[2];
    }
  }

  lemma BareIs(slots: seq<Slot>)
    requires Bare(slots)
    ensures WellFormed(slots) && Listing(slots) == []
  {
  }
}
