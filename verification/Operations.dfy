/** Creating and removing files and directories: kernel/fatfs/fatfs.c. */
module Operations {
  import opened Words
  import opened Layout
  import opened Chains
  import opened Contents
  import opened FatStrings
  import opened LongNames
  import opened Directories
  import opened ShortNames
  import opened Access
  import opened DirScan
  import opened DirLookup
  import opened Allocation
  import opened DirWrite
  import opened DirInsert
  import opened Listings
  import opened Ownership
  import opened Volumes
  import opened ShortChoice

  // ----- the current sector stays in a directory

  ghost predicate Onto(g: Geometry, a: u32, dir: seq<u32>) {
    exists x: nat :: x < |DirAddrs(g, dir)| && a == g.clusterBegin + DirAddrs(g, dir)[x]
  }

  lemma CurrentIsOnto(fs: FatFs, dir: seq<u32>)
    ensures fs.CurrentIn(dir) <==> Onto(fs.geo, fs.curAddress, dir)
  {
    hide DirAddrs;
    if fs.CurrentIn(dir) {
      var x: nat :| fs.Window(dir, x);
    }
    if Onto(fs.geo, fs.curAddress, dir) {
      var x: nat :| x < |DirAddrs(fs.geo, dir)| && fs.curAddress == fs.geo.clusterBegin + DirAddrs(fs.geo, dir)[x];
      assert fs.Window(dir, x);
    }
  }

  ghost predicate CurAt(g: Geometry, a: u32, t: Tree) {
    a == INVALID_CLUSTER || exists d :: d in t.list && d in t.chains && Onto(g, a, t.chains[d])
  }

  /** A mounted volume in order: the invariant holds, and the current sector is unset or a directory's. */
  ghost predicate Ready(fs: FatFs, t: Tree)
    reads fs, fs.table, fs.disk
  {
    fs.Valid() && Inv(fs.geo, fs.State(), t) && CurAt(fs.geo, fs.curAddress, t)
  }

  lemma CurMoved(fs: FatFs, a: u32, t: Tree, d: u32)
    requires CurAt(fs.geo, a, t) && d in t.list && d in t.chains
    requires fs.curAddress == a || fs.CurrentIn(t.chains[d])
    ensures CurAt(fs.geo, fs.curAddress, t)
  {
    hide Onto, FatFs.CurrentIn;
    CurrentIsOnto(fs, t.chains[d]);
  }

  /** The directories of t are those of t', with the same clusters or more. */
  ghost predicate DirsGrow(t: Tree, t': Tree) {
    forall d :: d in t.list && d in t.chains ==>
        d in t'.list && d in t'.chains && t.chains[d] != [] && t.chains[d] <= t'.chains[d]
  }

  lemma OntoLonger(g: Geometry, a: u32, dir: seq<u32>, dir': seq<u32>)
    requires g.sectorsPerCluster > 0 && dir != [] && dir <= dir' && Onto(g, a, dir)
    ensures Onto(g, a, dir')
  {
    var more := dir'[|dir|..];
    assert dir' == dir + more;
    AddrsAppend(g, dir, more);
    hide Addrs;
    var x: nat :| x < |DirAddrs(g, dir)| && a == g.clusterBegin + DirAddrs(g, dir)[x];
    assert DirAddrs(g, dir')[x] == DirAddrs(g, dir)[x];
  }

  lemma CurKept(g: Geometry, a: u32, t: Tree, t': Tree)
    requires g.sectorsPerCluster > 0 && CurAt(g, a, t) && DirsGrow(t, t')
    ensures CurAt(g, a, t')
  {
    hide Onto;
    if a != INVALID_CLUSTER {
      var d :| d in t.list && d in t.chains && Onto(g, a, t.chains[d]);
      OntoLonger(g, a, t.chains[d], t'.chains[d]);
    }
  }

  /** What Inv says about one directory. */
  lemma DirectoryOf(g: Geometry, v: Volume, t: Tree, d: u32)
    requires Inv(g, v, t) && d in t.list
    ensures d in t.chains && t.chains[d] != [] && DirChain(g, v.T, d, t.chains[d]) && g.sectorsPerCluster > 0
    ensures WellFormed(DirSlots(g, v.data, t.chains[d])) && t.list[d] == Listing(DirSlots(g, v.data, t.chains[d]))
  {
    assert d in t.chains by { ListsChained(g.rootCluster, t); }
    assert g.sectorsPerCluster > 0;
    hide Geometry.Ok, Owned, SizesFit, Referenced, WellFormed, Listing, DirSlots, DirChain;
    ChainClusters(g, v.T, t.chains, d);
  }

  // ----- lookup

  /** fatfs_get_file_entry on the list of a directory. */
  method Lookup(fs: FatFs, d: u32, name: seq<byte>, ghost t: Tree)
    returns (found: bool, entry: Slot, ghost i: nat, ghost k: nat)
    requires Ready(fs, t) && d in t.list && CString(name)
    modifies fs, fs.table, fs.disk
    ensures Ready(fs, t) && fs.State() == old(fs.State())
    ensures FirstIn(t.list[d], name, i) && (found <==> i < |t.list[d]|) && (found ==> entry == t.list[d][i].record)
    ensures found ==> d in t.chains && fs.CurrentIn(t.chains[d]) && LiveAt(fs, t, d, k, i)
  {
    hide FatFs.Valid, FatFs.CurrentIn, Inv, CurAt, DirChain, DirSlots, Listing, Pairs, Named, NoneNamed, FirstIn;
    hide WellFormed, LiveAt;
    DirectoryOf(fs.geo, fs.State(), t, d);
    ghost var slots, a := DirSlots(fs.geo, fs.data, t.chains[d]), fs.curAddress;
    found, entry, k := GetFileEntry(fs, d, name, t.chains[d], slots);
    NamedOnList(slots, name, k);
    i := |Pairs(slots, k)|;
    CurMoved(fs, a, t, d);
    if found {
      LiveNamed(fs, t, d, slots, name, k);
    }
  }

  /** Slot k of the directory is live and its pair stands at i. */
  ghost predicate LiveAt(fs: FatFs, t: Tree, d: u32, k: nat, i: nat)
    reads fs, fs.table
  {
    && d in t.chains && k < |DirSlots(fs.geo, fs.State().data, t.chains[d])|
    && IsLive(DirSlots(fs.geo, fs.State().data, t.chains[d])[k])
    && i == |Pairs(DirSlots(fs.geo, fs.State().data, t.chains[d]), k)|
  }

  lemma LiveNamed(fs: FatFs, t: Tree, d: u32, slots: seq<Slot>, name: seq<byte>, k: nat)
    requires d in t.chains && slots == DirSlots(fs.geo, fs.data, t.chains[d]) && FirstNamed(slots, name, k)
    requires k < |slots|
    ensures LiveAt(fs, t, d, k, |Pairs(slots, k)|)
  {
    hide DirSlots, Pairs, IsLive;
  }

  // ----- chains that come and go

  /** The next n clusters that would be handed out, if any, have data sectors. */
  ghost predicate Ample(g: Geometry, T: seq<u32>, n: nat) {
    forall i :: 0 <= i < n && i < |Free(g, T)| ==> Free(g, T)[i] < g.Limit()
  }

  /**
   * The driver searches the whole FAT for a free entry, and the FAT may have entries behind
   * the last data cluster.  It is safe to ask for n clusters exactly if so many data
   * clusters are free or no such entry is.
   */
  lemma AmpleExactly(g: Geometry, T: seq<u32>, n: nat)
    requires g.rootCluster <= g.Limit() <= |T| < 0x1000_0000
    ensures Ample(g, T, n) <==>
            n <= |FreeIn(g.fatType, T, g.rootCluster, g.Limit())| || FreeIn(g.fatType, T, g.Limit(), |T|) == []
  {
    hide FreeIn;
    var a, b := FreeIn(g.fatType, T, g.rootCluster, g.Limit()), FreeIn(g.fatType, T, g.Limit(), |T|);
    FreeInSplit(g.fatType, T, g.rootCluster, g.Limit(), |T|);
    FreeInMembers(g.fatType, T, g.rootCluster, g.Limit());
    FreeInMembers(g.fatType, T, g.Limit(), |T|);
    assert Free(g, T) == a + b;
    if n > |a| && b != [] {
      assert Free(g, T)[|a|] == b[0] >= g.Limit();
    }
  }

  lemma AmpleUsable(g: Geometry, T: seq<u32>)
    requires g.Ok() && g.fatType == FAT32 && Ample(g, T, 1)
    ensures Usable(g, T)
    ensures Free(g, T) != [] ==> Free(g, T)[0] < |T| && Takeable(g, T, [Free(g, T)[0]])
  {
    hide FreeIn;
    if Free(g, T) != [] {
      FreeTakeable(g, T, 1);
      assert Free(g, T)[..1] == [Free(g, T)[0]];
      assert [Free(g, T)[0]][0] == Free(g, T)[0];
    }
  }

  /** The list of free clusters after the first is taken. */
  lemma FreeAfterFirst(g: Geometry, T: seq<u32>)
    requires g.Ok() && g.fatType == FAT32 && Free(g, T) != [] && Free(g, T)[0] < |T|
    ensures Free(g, T[Free(g, T)[0] := Stored(g.fatType, LAST_CLUSTER)]) == Free(g, T)[1..]
  {
    var c := Free(g, T)[0];
    StoredLink(g.fatType, c);
    FreeInMembers(g.fatType, T, g.rootCluster, |T|);
    FreeAfterUse(g.fatType, T, g.rootCluster, T[c := Stored(g.fatType, LAST_CLUSTER)], Free(g, T));
  }

  lemma AmpleNext(g: Geometry, T: seq<u32>, n: nat)
    requires g.Ok() && g.fatType == FAT32 && Ample(g, T, n + 1) && Free(g, T) != [] && Free(g, T)[0] < |T|
    ensures Free(g, T[Free(g, T)[0] := Stored(g.fatType, LAST_CLUSTER)]) == Free(g, T)[1..]
    ensures Ample(g, T[Free(g, T)[0] := Stored(g.fatType, LAST_CLUSTER)], n)
  {
    hide Free, Stored, Geometry.Ok;
    FreeAfterFirst(g, T);
  }

  /** The first free cluster was allocated; another may follow. */
  ghost predicate FirstTaken(g: Geometry, v: Volume, t: Tree, w: Volume, t': Tree, c: u32) {
    && Free(g, v.T) != [] && c == Free(g, v.T)[0] && Allocated(g, v, t, w, t', c)
    && Ample(g, w.T, 1) && Free(g, w.T) == Free(g, v.T)[1..]
  }

  /** Allocate one cluster that nothing names yet. */
  method NewChain(fs: FatFs, ghost t: Tree) returns (ok: bool, c: u32, ghost t': Tree)
    requires Ready(fs, t) && Ample(fs.geo, fs.State().T, 2)
    modifies fs.table, fs.disk
    ensures Ready(fs, t')
    ensures ok <==> Free(fs.geo, old(fs.State()).T) != []
    ensures !ok ==> fs.State() == old(fs.State()) && t' == t
    ensures ok ==> FirstTaken(fs.geo, old(fs.State()), t, fs.State(), t', c)
  {
    hide FatFs.Valid, Inv, CurAt, Free, Takeable, Stored, Ample, Usable, DirsGrow;
    ghost var v := fs.State();
    Ordered(fs.geo, v, t);
    AmpleLess(fs.geo, v.T);
    AmpleUsable(fs.geo, v.T);
    t' := t;
    ok, c := AllocateNew(fs, 1);
    if ok {
      AmpleNext(fs.geo, v.T, 1);
      t' := t.(chains := t.chains[c := [c]], loose := t.loose + {c});
      AllocatedKeeps(fs.geo, v, t, fs.State(), t', c);
      AllocatedDirs(fs.geo, v, t, fs.State(), t', c);
      CurKept(fs.geo, fs.curAddress, t, t');
    }
  }

  lemma Ordered(g: Geometry, v: Volume, t: Tree)
    requires Inv(g, v, t)
    ensures g.Ok() && g.fatType == FAT32 && g.sectorsPerCluster >= 1
  {
  }

  lemma AmpleLess(g: Geometry, T: seq<u32>)
    requires Ample(g, T, 2)
    ensures Ample(g, T, 1)
  {
  }

  lemma NoneEmpty(g: Geometry, T: seq<u32>, chains: ChainMap)
    requires Owned(g, T, chains)
    ensures forall s :: s in chains ==> chains[s] != []
  {
    hide Owned, SizesFit, Clusters, DirChain, DataChain;
    forall s | s in chains ensures chains[s] != [] {
      ChainClusters(g, T, chains, s);
    }
  }

  lemma AllocatedDirs(g: Geometry, v: Volume, t: Tree, w: Volume, t': Tree, c: u32)
    requires Inv(g, v, t) && Allocated(g, v, t, w, t', c)
    ensures DirsGrow(t, t') && c !in t.chains
  {
    hide Geometry.Ok, Owned, SizesFit, Stocked, Referenced, NamesDiffer, Takeable, Stored, Span;
    AllocKeeps(g, v.T, t.chains, c);
    NoneEmpty(g, v.T, t.chains);
  }

  /** The current sector is not in a chain that is no directory. */
  lemma CurElsewhere(g: Geometry, v: Volume, t: Tree, a: u32, s: u32, x: nat)
    requires Inv(g, v, t) && CurAt(g, a, t) && s in t.chains && s !in t.list && x < |Addrs(g, t.chains[s])|
    requires g.clusterBegin + |v.data| < 0x1_0000_0000
    ensures 0 <= Addrs(g, t.chains[s])[x] < Span(g) <= |v.data| && a != g.clusterBegin + Addrs(g, t.chains[s])[x]
  {
    hide Stocked, Referenced, NamesDiffer, Addrs, Geometry.Ok, Onto, Clusters, Span;
    ChainClusters(g, v.T, t.chains, s);
    var i, k := AddrsIn(g, t.chains[s], x);
    if a != INVALID_CLUSTER {
      var d :| d in t.list && d in t.chains && Onto(g, a, t.chains[d]);
      ChainClusters(g, v.T, t.chains, d);
      OntoElsewhere(g, a, t.chains[d], t.chains[s], x);
    }
  }

  lemma OntoElsewhere(g: Geometry, a: u32, dir: seq<u32>, ch: seq<u32>, x: nat)
    requires g.Ok() && Clusters(g, dir) && Clusters(g, ch) && Disjoint(dir, ch) && dir != [] && Onto(g, a, dir)
    requires x < |Addrs(g, ch)|
    ensures a != g.clusterBegin + Addrs(g, ch)[x]
  {
    assert g.sectorsPerCluster > 0;
    hide Addrs, Geometry.Ok, Clusters, Disjoint;
    var y: nat :| y < |DirAddrs(g, dir)| && a == g.clusterBegin + DirAddrs(g, dir)[y];
    AddrsDisjoint(g, dir, ch, y, x);
  }

  /** Erasing the cluster of a new directory, sector by sector, past the current sector. */
  method EraseNew(fs: FatFs, c: u32, ghost t: Tree)
    requires Ready(fs, t) && c in t.loose && c in t.chains && t.chains[c] == [c]
    modifies fs`data, fs.disk
    ensures Ready(fs, t) && Cleaned(fs.geo, old(fs.State()), t, fs.State(), t, c)
    ensures Bare(DirSlots(fs.geo, fs.State().data, [c]))
  {
    hide FatFs.Valid, Inv, CurAt, Addrs, ErasedTo, Erased, Cleaned, Bare, Geometry.LbaOfCluster, DirSlots, Blank;
    hide Geometry.Ok;
    ghost var g, v := fs.geo, fs.State();
    EraseStart(g, v, t, c);
    for i := 0 to fs.geo.sectorsPerCluster
      invariant fs.Valid() && |fs.data| == |v.data| && ErasedTo(g, v, fs.State(), c, i)
    {
      ghost var a := ErasePlace(fs, v, t, c, i);
      fs.WriteData(fs.geo.LbaOfCluster(c) + i, Blank());
    }
    EraseEnd(g, v, t, fs.State(), c);
  }

  lemma EraseStart(g: Geometry, v: Volume, t: Tree, c: u32)
    requires Inv(g, v, t) && c in t.loose && c in t.chains && t.chains[c] == [c]
    ensures ErasedTo(g, v, v, c, 0) && |Addrs(g, [c])| == g.sectorsPerCluster
  {
    hide Owned, SizesFit, Stocked, Referenced, NamesDiffer, Addrs, Geometry.Ok, Clusters, DirChain, DataChain;
    ChainClusters(g, v.T, t.chains, c);
    OneCluster(g, c);
    AddrsOne(g, c);
  }

  lemma OneCluster(g: Geometry, c: u32)
    requires Clusters(g, [c])
    ensures 2 <= c < g.Limit()
  {
    assert 2 <= [c][0] < g.Limit();
  }

  lemma ErasePlace(fs: FatFs, v: Volume, t: Tree, c: u32, i: nat) returns (a: int)
    requires fs.Valid() && |fs.data| == |v.data| && ErasedTo(fs.geo, v, fs.State(), c, i) && i < |Addrs(fs.geo, [c])|
    requires i < fs.geo.sectorsPerCluster
    requires Inv(fs.geo, v, t) && CurAt(fs.geo, fs.curAddress, t) && c in t.loose && c in t.chains && t.chains[c] == [c]
    ensures 0 <= a < |fs.data| && fs.geo.LbaOfCluster(c) + i == fs.geo.clusterBegin + a < 0x1_0000_0000
    ensures fs.geo.clusterBegin + a != fs.curAddress
    ensures ErasedTo(fs.geo, v, Volume(fs.table.T, fs.data[a := Blank()]), c, i + 1)
  {
    hide FatFs.Valid, Owned, SizesFit, Stocked, Referenced, NamesDiffer, Addrs, Geometry.Ok, Clusters, DirChain;
    hide DataChain, CurAt, Span, ErasedTo, Geometry.LbaOfCluster, Blank;
    DataThere(fs);
    LengthOfData(fs);
    a := Addrs(fs.geo, [c])[i];
    ChainClusters(fs.geo, v.T, t.chains, c);
    OneCluster(fs.geo, c);
    AddrsOne(fs.geo, c);
    LooseIsNoDirectory(fs.geo.rootCluster, t, c);
    CurElsewhere(fs.geo, v, t, fs.curAddress, c, i);
    ErasedMore(fs.geo, v, fs.State(), c, i);
  }

  lemma LooseIsNoDirectory(root: u32, t: Tree, c: u32)
    requires Referenced(root, t) && c in t.loose
    ensures c !in t.list && c in t.chains && c != root
  {
  }

  lemma LengthOfData(fs: FatFs)
    requires fs.Valid()
    ensures fs.geo.clusterBegin + |fs.data| == |fs.disk.sectors| < 0x1_0000_0000
  {
  }

  lemma EraseEnd(g: Geometry, v: Volume, t: Tree, w: Volume, c: u32)
    requires Inv(g, v, t) && c in t.loose && c in t.chains && t.chains[c] == [c]
    requires ErasedTo(g, v, w, c, |Addrs(g, [c])|)
    ensures Cleaned(g, v, t, w, t, c) && Inv(g, w, t) && Bare(DirSlots(g, w.data, [c]))
  {
    hide Inv, ErasedTo, Addrs, OnlyAt, Blank, Pick;
    ErasedAll(g, v, w, c);
    CleanedKeeps(g, v, t, w, t, c);
    hide Erased, Cleaned;
    ErasedBlank(g, v, w, c);
    BlankIsBare(Pick(w.data, Addrs(g, [c])));
  }

  lemma ErasedBlank(g: Geometry, v: Volume, w: Volume, c: u32)
    requires Erased(g, v, w, c)
    ensures forall i :: 0 <= i < |Addrs(g, [c])| ==> Pick(w.data, Addrs(g, [c]))[i] == Blank()
  {
  }

  lemma BlankIsBare(secs: seq<Sector>)
    requires forall i :: 0 <= i < |secs| ==> secs[i] == Blank()
    ensures Bare(Slots(secs))
  {
    BlankSector(secs);
    hide Slots;
    var none: seq<Slot> := [];
    assert WellFormed(none) && Listing(none) == [];
    BlankBehind(none, 16 * |secs|);
    assert none + BlankSlots(16 * |secs|) == BlankSlots(16 * |secs|);
  }

  /** Give back a chain that nothing names. */
  method DropNew(fs: FatFs, c: u32, ghost t: Tree) returns (ghost t': Tree)
    requires Ready(fs, t) && c in t.loose && c in t.chains
    modifies fs.table, fs.disk
    ensures Ready(fs, t') && Dropped(fs.geo, old(fs.State()), t, fs.State(), t', c)
  {
    hide FatFs.Valid, Inv, CurAt, LinksInRange, Cleared, Freed;
    ghost var v := fs.State();
    DropParts(fs.geo, v, t, c);
    fs.FreeClusterChain(c);
    t' := t.(chains := t.chains - {c}, loose := t.loose - {c});
    DroppedKeeps(fs.geo, v, t, fs.State(), t', c);
    DroppedDirs(fs.geo, v, t, t', c);
    CurKept(fs.geo, fs.curAddress, t, t');
  }

  lemma DropParts(g: Geometry, v: Volume, t: Tree, c: u32)
    requires Inv(g, v, t) && c in t.chains
    ensures LinksInRange(g.fatType, v.T) && c < |v.T| && Freed(g.fatType, v.T, c) == Cleared(v.T, t.chains[c])
  {
    hide Owned, SizesFit, LinksInRange;
    FreeKeeps(g, v.T, t.chains, c);
  }

  lemma DroppedDirs(g: Geometry, v: Volume, t: Tree, t': Tree, c: u32)
    requires Inv(g, v, t) && c in t.loose && t' == t.(chains := t.chains - {c}, loose := t.loose - {c})
    ensures DirsGrow(t, t') && g.sectorsPerCluster > 0
  {
    hide Owned, SizesFit, Stocked, NamesDiffer, OneRefEach, KindsAgree, RefsIn, AllNamed;
    NoneEmpty(g, v.T, t.chains);
  }

  /** The directory has room for an entry of this name, or there are more than n free clusters. */
  ghost predicate Fitting(g: Geometry, v: Volume, t: Tree, d: u32, name: seq<byte>, n: nat) {
    d in t.chains && (|Free(g, v.T)| > n || HasRoom(DirSlots(g, v.data, t.chains[d]), EntriesRequired(name) + 1))
  }

  /** Enter a chain that nothing names into a directory. */
  method EnterName(fs: FatFs, d: u32, e: NewEntry, ghost t: Tree)
    returns (ok: bool, ghost t': Tree, ghost dir': seq<u32>)
    requires Ready(fs, t) && d in t.list && e.startCluster in t.loose && e.startCluster in t.chains
    requires Ample(fs.geo, fs.State().T, 1)
    requires NameIsNew(t.list[d], e) && WellNamed(e) && e.size == 0
    requires EntriesRequired(e.name) + 1 <= 16 * fs.geo.sectorsPerCluster
    requires e.isDir ==> Bare(DirSlots(fs.geo, fs.State().data, t.chains[e.startCluster]))
    modifies fs, fs.table, fs.disk
    ensures Ready(fs, t')
    ensures ok ==> e.name != [] && Entered(fs.geo, old(fs.State()), t, fs.State(), t', d, dir', e)
    ensures !ok ==> t' == t && fs.State() == old(fs.State())
    ensures ok <==> e.name != [] && Fitting(fs.geo, old(fs.State()), t, d, e.name, 0)
  {
    hide FatFs.Valid, FatFs.CurrentIn, Inv, CurAt, DirChain, DirSlots, Free, EntryAdded, WellNamed, Bare, Ample, Usable;
    hide Takeable, NameIsNew, WellFormed, Listing, DirsGrow, HasRoom, EntriesRequired;
    ghost var v, a := fs.State(), fs.curAddress;
    Ordered(fs.geo, v, t);
    DirectoryOf(fs.geo, v, t, d);
    AmpleUsable(fs.geo, v.T);
    t' := t;
    ok, dir' := AddFileEntry(fs, d, e, v, t.chains[d]);
    ghost var w := fs.State();
    if ok {
      t' := Tree(t.chains[d := dir'], EnteredLists(t.list, d, Listing(DirSlots(fs.geo, w.data, dir')), e),
        t.loose - {e.startCluster});
      EnteredDirs(fs.geo, v, t, w, t', d, dir', e);
      EnteredKeeps(fs.geo, v, t, w, t', d, dir', e);
      CurKept(fs.geo, a, t, t');
    }
    CurMoved(fs, a, t', d);
  }

  lemma EnteredDirs(g: Geometry, v: Volume, t: Tree, w: Volume, t': Tree, d: u32, dir': seq<u32>, e: NewEntry)
    requires Inv(g, v, t) && d in t.list && d in t.chains && EntryAdded(g, v, w, d, t.chains[d], dir', e)
    requires e.startCluster in t.loose
    requires t'.chains == t.chains[d := dir']
    requires t'.list == EnteredLists(t.list, d, Listing(DirSlots(g, w.data, dir')), e)
    ensures DirsGrow(t, t') && dir' != []
  {
    hide Owned, SizesFit, Stocked, Referenced, NamesDiffer, EntryAdded, Listing, DirSlots, Geometry.Ok, Span;
    NoneEmpty(g, v.T, t.chains);
    AddedLonger(g, v, w, d, t.chains[d], dir', e);
  }

  lemma AddedLonger(g: Geometry, v: Volume, w: Volume, d: u32, dir: seq<u32>, dir': seq<u32>, e: NewEntry)
    requires EntryAdded(g, v, w, d, dir, dir', e)
    ensures dir <= dir'
  {
    hide DirChain, OnlyAt, WellFormed, DirSlots, Listing, Free, Appended;
  }

  // ----- creation

  /** From t to t' directory d got an entry for the new chain [c], and maybe one more cluster. */
  ghost predicate Born(t: Tree, t': Tree, d: u32, e: NewEntry) {
    var c := e.startCluster;
    && d in t.list && d in t.chains && c !in t.chains && t'.loose == t.loose
    && t'.chains.Keys == t.chains.Keys + {c} && t'.chains[c] == [c] && t.chains[d] <= t'.chains[d]
    && (forall s :: s in t.chains && s != d ==> t'.chains[s] == t.chains[s])
    && t'.list.Keys == t.list.Keys + (if e.isDir then {c} else {}) && (e.isDir ==> t'.list[c] == [])
    && (forall s :: s in t.list && s != d ==> t'.list[s] == t.list[s])
    && OneMore(t.list[d], t'.list[d], Pair(e.name, Record(e)))
  }

  lemma BornBy(g: Geometry, v: Volume, t: Tree, u: Volume, t1: Tree, w: Volume, t2: Tree, d: u32, dir': seq<u32>,
      e: NewEntry)
    requires Inv(g, v, t) && Inv(g, u, t1)
    requires t1 == t.(chains := t.chains[e.startCluster := [e.startCluster]], loose := t.loose + {e.startCluster})
    requires e.startCluster !in t.chains && Entered(g, u, t1, w, t2, d, dir', e)
    ensures Born(t, t2, d, e)
  {
    hide Geometry.Ok, Owned, SizesFit, Stocked, NamesDiffer, OneRefEach, KindsAgree, RefsIn, AllNamed, DirSlots;
    hide WellFormed, Listing, OneMore, Span;
    hide Record, WellNamed, Usable, NameIsNew, EntryAdded, Bare;
    DirectoryOf(g, u, t1, d);
    AddedLonger(g, u, w, d, t1.chains[d], dir', e);
    AddedInserted(g, u, w, d, t1.chains[d], dir', e);
  }

  lemma AddedInserted(g: Geometry, v: Volume, w: Volume, d: u32, dir: seq<u32>, dir': seq<u32>, e: NewEntry)
    requires EntryAdded(g, v, w, d, dir, dir', e) && WellFormed(DirSlots(g, v.data, dir))
    ensures OneMore(Listing(DirSlots(g, v.data, dir)), Listing(DirSlots(g, w.data, dir')), Pair(e.name, Record(e)))
  {
  }

  /** What the driver is built for: Ascii names that fit a cluster, without a leading dot. */
  predicate Creatable(g: Geometry, name: seq<byte>) {
    && Ascii(name) && (name == [] || name[0] != DOT)
    && EntriesRequired(name) <= MAX_ENTRIES && EntriesRequired(name) + 1 <= 16 * g.sectorsPerCluster
  }

  /** The search for a short name does not end on one that is in use. */
  ghost predicate SomeLeft(list: seq<Pair>, name: seq<byte>) {
    !TakenBelow(list, BaseShort(name), MAX_TAIL) || !TakenShort(list, Candidate(BaseShort(name), MAX_TAIL))
  }

  /** The entry written for a new name. */
  lemma NewNames(g: Geometry, list: seq<Pair>, name: seq<byte>, i: nat, ok: bool, short: ShortName, n: nat, c: u32,
      isDir: bool)
    requires Creatable(g, name) && SomeLeft(list, name) && FirstIn(list, name, i) && i == |list|
    requires Chosen(list, BaseShort(name), ok, short, n)
    ensures ok <==> !TakenBelow(list, BaseShort(name), MAX_TAIL)
    ensures ok ==> WellNamed(NewEntry(name, short, c, 0, isDir)) && NameIsNew(list, NewEntry(name, short, c, 0, isDir))
    ensures ok ==> FirstUnused(list, BaseShort(name), short)
  {
    var e := NewEntry(name, short, c, 0, isDir);
    hide Candidate, TakenBelow, BaseShort, SameShortName, Record, Normal, FirstUnused;
    ChosenFresh(list, BaseShort(name), ok, short, n);
    LastIfRefused(list, BaseShort(name), ok, short, n);
    if ok {
      ChosenFirst(list, BaseShort(name), ok, short, n);
      BaseShortAscii(name);
      CandidateAscii(BaseShort(name), n);
      forall j | 0 <= j < |list| ensures !SameShortName(list[j].record, Record(e)) {
        SameAsRecord(list[j].record, e);
      }
    }
  }

  lemma LastIfRefused(list: seq<Pair>, base: ShortName, ok: bool, short: ShortName, n: nat)
    requires Chosen(list, base, ok, short, n)
    requires !TakenBelow(list, base, MAX_TAIL) || !TakenShort(list, Candidate(base, MAX_TAIL))
    ensures ok ==> !TakenShort(list, short)
    ensures !ok ==> TakenBelow(list, base, MAX_TAIL)
  {
    hide Candidate, TakenShort;
  }

  lemma SameAsRecord(s: Slot, e: NewEntry)
    ensures SameShortName(s, Record(e)) <==> SameShortName(s, e.short)
  {
    assert Record(e)[..11] == e.short[..11];
  }

  /** Lookup by the new name finds the new entry. */
  lemma FoundAgain(list: seq<Pair>, list': seq<Pair>, e: NewEntry, i: nat)
    requires NamesDiffer(list') && OneMore(list, list', Pair(e.name, Record(e))) && FirstIn(list', e.name, i)
    ensures i < |list'| && list'[i].record == Record(e)
  {
    hide Normal, SameShortName, Record;
    var n := InsertedSomewhere(list, list', Pair(e.name, Record(e)));
    assert list'[n].name == e.name;
  }

  /** The directory and the new names a creation starts from. */
  ghost predicate MayCreate(fs: FatFs, t: Tree, d: u32, name: seq<byte>)
    reads fs, fs.table, fs.disk
  {
    && Ready(fs, t) && d in t.list && Creatable(fs.geo, name) && SomeLeft(t.list[d], name)
    && Ample(fs.geo, fs.State().T, 2)
  }

  ghost predicate HasName(list: seq<Pair>, name: seq<byte>) {
    exists i :: 0 <= i < |list| && Normal(list[i].name) == Normal(name)
  }

  /**
   * When a creation is refused: the name is there already or is empty, the short names or the
   * clusters are used up, or the entry has no place.
   */
  ghost predicate Refused(g: Geometry, v: Volume, t: Tree, d: u32, name: seq<byte>) {
    && d in t.list
    && (|| HasName(t.list[d], name)
        || TakenBelow(t.list[d], BaseShort(name), MAX_TAIL)
        || name == []
        || Free(g, v.T) == []
        || !Fitting(g, v, t, d, name, 1))
  }

  /** A creation that went through. */
  ghost predicate Created(g: Geometry, v: Volume, t: Tree, w: Volume, t': Tree, d: u32, e: NewEntry) {
    && Born(t, t', d, e) && OthersKept(g, v, t, w, t', d) && Spent(g, v, t, w, t', d, e) && e.size == 0 && e.name != []
    && !HasName(t.list[d], e.name) && !TakenBelow(t.list[d], BaseShort(e.name), MAX_TAIL)
    && FirstUnused(t.list[d], BaseShort(e.name), e.short)
  }

  /** The short name for a new entry: the lookup of the name and the search, common to files and directories. */
  method PickShort(fs: FatFs, d: u32, name: seq<byte>, ghost t: Tree) returns (ok: bool, short: ShortName, ghost n: nat)
    requires Ready(fs, t) && d in t.list && Creatable(fs.geo, name)
    modifies fs, fs.table, fs.disk
    ensures Ready(fs, t) && fs.State() == old(fs.State())
    ensures Chosen(t.list[d], BaseShort(name), ok, short, n)
  {
    hide FatFs.Valid, FatFs.CurrentIn, Inv, CurAt, DirChain, DirSlots, WellFormed, Listing, Chosen, BaseShort;
    ghost var v, a := fs.State(), fs.curAddress;
    DirectoryOf(fs.geo, v, t, d);
    ok, short, n := ChooseShort(fs, d, name, v, t.chains[d], t.list[d]);
    CurMoved(fs, a, t, d);
  }

  lemma NameFound(list: seq<Pair>, name: seq<byte>, i: nat)
    requires FirstIn(list, name, i)
    ensures if HasName(list, name) then i < |list| else i == |list|
  {
    hide Normal;
  }

  /** Every chain keeps its sectors. */
  ghost predicate AllKept(g: Geometry, v: Volume, t: Tree, w: Volume) {
    forall u :: u in t.chains ==> SameSectors(g, v, w, t.chains[u])
  }

  /** From v to u a cluster was taken for the entry to come. */
  ghost predicate Pending(g: Geometry, v: Volume, t: Tree, u: Volume, t1: Tree, c: u32) {
    && Inv(g, v, t) && Inv(g, u, t1) && c !in t.chains && t1 == t.(chains := t.chains[c := [c]], loose := t.loose + {c})
    && AllKept(g, v, t, u) && Free(g, v.T) != [] && c == Free(g, v.T)[0] && Free(g, u.T) == Free(g, v.T)[1..]
    && Ample(g, u.T, 1)
    && Reaches(g, v, t, u, t1)
  }

  /**
   * The clusters taken are the first on the list of free ones: the entry's own, and the one that
   * directory d grew by for want of room, if it did.
   */
  ghost predicate Spent(g: Geometry, v: Volume, t: Tree, w: Volume, t': Tree, d: u32, e: NewEntry) {
    && d in t.chains && d in t'.chains && |t.chains[d]| <= |t'.chains[d]| <= |t.chains[d]| + 1
    && var n := 1 + |t'.chains[d]| - |t.chains[d]|;
      && n <= |Free(g, v.T)| && e.startCluster == Free(g, v.T)[0] && Free(g, w.T) == Free(g, v.T)[n..]
      && t'.chains[d] == t.chains[d] + Free(g, v.T)[1..n]
      && (HasRoom(DirSlots(g, v.data, t.chains[d]), EntriesRequired(e.name) + 1) ==> n == 1)
  }

  lemma SpentBy(g: Geometry, v: Volume, t: Tree, u: Volume, t1: Tree, w: Volume, t2: Tree, d: u32, dir': seq<u32>,
      e: NewEntry)
    requires Pending(g, v, t, u, t1, e.startCluster) && Entered(g, u, t1, w, t2, d, dir', e)
    ensures Spent(g, v, t, w, t2, d, e)
  {
    hide Inv, Free, Ample, AllKept, NameIsNew, WellNamed, Usable, Bare, Listing, DirSlots, DirChain, OneMore, Record;
    hide HasRoom, EntriesRequired, Reaches, SameOrLonger, EnteredLists;
    var F := Free(g, v.T);
    DirectoryOf(g, v, t, d);
    PendingSlots(g, v, t, u, t1, e.startCluster, d);
    FreeAfterEntry(g, u, t1, w, d, dir');
    var n := |dir'| - |t1.chains[d]|;
    assert F[1..][n..] == F[1 + n..] && F[1..][..n] == F[1..1 + n];
  }

  lemma TailUsed(g: Geometry, T: seq<u32>, ch: seq<u32>)
    requires DataChain(g, T, ch)
    ensures |ch| >= 1 && ch[|ch| - 1] < |T| && !IsFree(g.fatType, T, ch[|ch| - 1])
  {
    assert Link(g.fatType, T[ch[|ch| - 1]]) == LAST_CLUSTER;
  }

  /** A directory that grew did so by the first free cluster. */
  lemma FreeAfterEntry(g: Geometry, u: Volume, t: Tree, w: Volume, d: u32, dir': seq<u32>)
    requires Inv(g, u, t) && d in t.list && d in t.chains && SameOrLonger(g, u, w, t.chains[d], dir') && Usable(g, u.T)
    ensures |t.chains[d]| <= |dir'| <= |t.chains[d]| + 1
    ensures var n := |dir'| - |t.chains[d]|;
      n <= |Free(g, u.T)| && Free(g, w.T) == Free(g, u.T)[n..] && dir' == t.chains[d] + Free(g, u.T)[..n]
  {
    hide Stocked, Referenced, NamesDiffer, SizesFit, FreeIn, Appended, IsFree, InSome;
    var dir := t.chains[d];
    if dir' == dir {
      assert dir == dir + Free(g, u.T)[..0];
    } else {
      var tail, c := dir[|dir| - 1], Free(g, u.T)[0];
      TailUsed(g, u.T, dir);
      LimitLinkable(g);
      AppendedOne(g.fatType, u.T, tail, c);
      FreeAfterLink(g.fatType, u.T, g.rootCluster, tail, Free(g, u.T));
      assert [c] == Free(g, u.T)[..1];
    }
  }

  lemma PendingStart(g: Geometry, v: Volume, t: Tree, u: Volume, t1: Tree, c: u32)
    requires Inv(g, v, t) && FirstTaken(g, v, t, u, t1, c)
    ensures Pending(g, v, t, u, t1, c)
  {
    hide Inv, Ample, DirsGrow, Stored, Takeable, Pick, Addrs, Reaches;
    ReachesStep(g, v, t, u, t1, Allocate(c));
    AllocatedKeeps(g, v, t, u, t1, c);
    AllocatedDirs(g, v, t, u, t1, c);
  }

  lemma PendingCleaned(g: Geometry, v: Volume, t: Tree, u: Volume, t1: Tree, w: Volume, c: u32)
    requires Pending(g, v, t, u, t1, c) && Cleaned(g, u, t1, w, t1, c)
    ensures Pending(g, v, t, w, t1, c)
  {
    hide Inv, Ample, Free, Addrs, Pick, OnlyAt, Reaches;
    StepFrame(g, u, t1, w, t1, Clean(c));
    ReachesStep(g, u, t1, w, t1, Clean(c));
    ReachesOn(g, v, t, u, t1, w, t1);
    CleanedKeeps(g, u, t1, w, t1, c);
    assert Clean(c).Touched() == c;
    forall s | s in t.chains ensures SameSectors(g, v, w, t.chains[s]) {
      assert t1.chains[s] == t.chains[s] && SameSectors(g, u, w, t1.chains[s]);
    }
  }

  lemma PendingEntered(g: Geometry, v: Volume, t: Tree, u: Volume, t1: Tree, w: Volume, t2: Tree, d: u32,
      dir': seq<u32>, e: NewEntry)
    requires Pending(g, v, t, u, t1, e.startCluster) && Entered(g, u, t1, w, t2, d, dir', e)
    ensures Born(t, t2, d, e) && OthersKept(g, v, t, w, t2, d) && Spent(g, v, t, w, t2, d, e)
    ensures Reaches(g, v, t, w, t2)
  {
    hide Inv, Entered, Born, Free, Ample, Pick, Addrs, Spent, Reaches;
    ReachesStep(g, u, t1, w, t2, Enter(d, dir', e));
    ReachesOn(g, v, t, u, t1, w, t2);
    BornBy(g, v, t, u, t1, w, t2, d, dir', e);
    SpentBy(g, v, t, u, t1, w, t2, d, dir', e);
    StepFrame(g, u, t1, w, t2, Enter(d, dir', e));
  }

  lemma PendingDropped(g: Geometry, v: Volume, t: Tree, u: Volume, t1: Tree, w: Volume, t2: Tree, c: u32)
    requires Pending(g, v, t, u, t1, c) && Dropped(g, u, t1, w, t2, c) && t.loose <= t.chains.Keys
    ensures t2 == t && AllKept(g, v, t, w) && Reaches(g, v, t, w, t2)
  {
    hide Inv, Free, Ample, Pick, Addrs, Cleared, Reaches;
    ReachesStep(g, u, t1, w, t2, Drop(c));
    ReachesOn(g, v, t, u, t1, w, t2);
    assert t2.chains == t.chains;
  }

  lemma LooseChained(g: Geometry, v: Volume, t: Tree)
    requires Inv(g, v, t)
    ensures t.loose <= t.chains.Keys
  {
  }

  lemma PendingSlots(g: Geometry, v: Volume, t: Tree, u: Volume, t1: Tree, c: u32, d: u32)
    requires Pending(g, v, t, u, t1, c) && d in t.list
    ensures d in t.chains && d in t1.chains && t1.chains[d] == t.chains[d]
    ensures DirSlots(g, u.data, t1.chains[d]) == DirSlots(g, v.data, t.chains[d])
  {
    hide Inv, Free, Ample, Reaches, Slots, Pick, Addrs, WellFormed, Listing, DirChain;
    DirectoryOf(g, v, t, d);
    assert SameSectors(g, v, u, t.chains[d]);
  }

  /** The cluster taken does not count for the room of the entry. */
  lemma PendingFitting(g: Geometry, v: Volume, t: Tree, u: Volume, t1: Tree, c: u32, d: u32, name: seq<byte>)
    requires Pending(g, v, t, u, t1, c) && d in t.list
    ensures Fitting(g, u, t1, d, name, 0) <==> Fitting(g, v, t, d, name, 1)
  {
    hide Inv, Free, Ample, Reaches, HasRoom, EntriesRequired, DirSlots, AllKept;
    PendingSlots(g, v, t, u, t1, c, d);
  }

  lemma PendingParts(g: Geometry, v: Volume, t: Tree, u: Volume, t1: Tree, c: u32)
    requires Pending(g, v, t, u, t1, c)
    ensures Inv(g, v, t) && c in t1.loose && c in t1.chains && t1.chains[c] == [c] && t1.list == t.list
    ensures Ample(g, u.T, 1)
    ensures Reaches(g, v, t, u, t1)
  {
    hide Inv, Free, Ample, Reaches, AllKept;
  }

  /** Add the entry for the cluster taken, or give the cluster back. */
  method Finish(fs: FatFs, d: u32, e: NewEntry, ghost v: Volume, ghost t: Tree, ghost t1: Tree)
    returns (ok: bool, ghost t': Tree)
    requires Ready(fs, t1) && Pending(fs.geo, v, t, fs.State(), t1, e.startCluster) && d in t.list
    requires NameIsNew(t.list[d], e) && WellNamed(e) && e.size == 0
    requires EntriesRequired(e.name) + 1 <= 16 * fs.geo.sectorsPerCluster
    requires e.isDir ==> Bare(DirSlots(fs.geo, fs.State().data, [e.startCluster]))
    modifies fs, fs.table, fs.disk
    ensures Ready(fs, t') && Reaches(fs.geo, v, t, fs.State(), t')
    ensures ok ==> e.name != [] && Born(t, t', d, e) && OthersKept(fs.geo, v, t, fs.State(), t', d)
    ensures ok ==> Spent(fs.geo, v, t, fs.State(), t', d, e)
    ensures !ok ==> t' == t && AllKept(fs.geo, v, t, fs.State())
    ensures ok <==> e.name != [] && Fitting(fs.geo, v, t, d, e.name, 1)
  {
    hide *;
    ghost var g, u, dir' := fs.geo, fs.State(), [];
    PendingParts(g, v, t, u, t1, e.startCluster);
    PendingFitting(g, v, t, u, t1, e.startCluster, d, e.name);
    ok, t', dir' := EnterName(fs, d, e, t1);
    if ok {
      PendingEntered(g, v, t, u, t1, fs.State(), t', d, dir', e);
    } else {
      t' := DropNew(fs, e.startCluster, t1);
      LooseChained(g, v, t);
      PendingDropped(g, v, t, u, t1, fs.State(), t', e.startCluster);
    }
  }

  lemma Starting(fs: FatFs, t: Tree, d: u32, name: seq<byte>)
    requires MayCreate(fs, t, d, name)
    ensures Ready(fs, t) && d in t.list && Creatable(fs.geo, name) && SomeLeft(t.list[d], name)
    ensures Ample(fs.geo, fs.State().T, 2)
    ensures CString(name) && Inv(fs.geo, fs.State(), t) && AllKept(fs.geo, fs.State(), t, fs.State())
    ensures Reaches(fs.geo, fs.State(), t, fs.State(), t)
    ensures EntriesRequired(name) + 1 <= 16 * fs.geo.sectorsPerCluster
  {
    hide FatFs.Valid, Inv, CurAt, SomeLeft, Ample, EntriesRequired, Pick, Addrs, Reaches;
    ReachesSelf(fs.geo, fs.State(), t);
  }

  /** The file is in the directory, and opening it finds its record. */
  method OpenNew(fs: FatFs, d: u32, e: NewEntry, ghost t: Tree, ghost t': Tree) returns (found: bool, record: Slot)
    requires Ready(fs, t') && Born(t, t', d, e) && CString(e.name)
    modifies fs, fs.table, fs.disk
    ensures Ready(fs, t') && fs.State() == old(fs.State())
    ensures found && record == Record(e)
  {
    hide *;
    ghost var i, k;
    BornListed(fs, t, t', d, e);
    found, record, i, k := Lookup(fs, d, e.name, t');
    FoundAgain(t.list[d], t'.list[d], e, i);
  }

  lemma BornListed(fs: FatFs, t: Tree, t': Tree, d: u32, e: NewEntry)
    requires Ready(fs, t') && Born(t, t', d, e)
    ensures d in t.list && d in t'.list && NamesDiffer(t'.list[d])
    ensures OneMore(t.list[d], t'.list[d], Pair(e.name, Record(e)))
  {
    hide FatFs.Valid, CurAt, Owned, SizesFit, Stocked, Referenced, NamesDiffer, OneMore, Record;
  }

  /** Writing the FAT buffers back. */
  method PurgeFat(fs: FatFs, ghost t: Tree)
    requires Ready(fs, t)
    modifies fs.table, fs.disk
    ensures Ready(fs, t) && fs.State() == old(fs.State())
  {
    hide FatFs.Valid, Inv, CurAt;
    fs.Purge();
  }

  function Unnamed(): ShortName { seq(11, _ => SPACE) }

  /** _fs_create_file. */
  method CreateFile(fs: FatFs, d: u32, name: seq<byte>, ghost t: Tree)
    returns (ok: bool, record: Slot, ghost e: NewEntry, ghost t': Tree)
    requires MayCreate(fs, t, d, name)
    modifies fs, fs.table, fs.disk
    ensures Ready(fs, t') && Reaches(fs.geo, old(fs.State()), t, fs.State(), t')
    ensures ok ==>
              && Created(fs.geo, old(fs.State()), t, fs.State(), t', d, e) && e.name == name && !e.isDir
              && record == Record(e)
    ensures !ok ==> t' == t && AllKept(fs.geo, old(fs.State()), t, fs.State())
    ensures ok <==> !Refused(fs.geo, old(fs.State()), t, d, name)
  {
    hide *;
    ghost var v, g := fs.State(), fs.geo;
    t', e := t, NewEntry(name, Unnamed(), 0, 0, false);
    Starting(fs, t, d, name);
    ghost var i, k, n, t1;
    ok, record, i, k := Lookup(fs, d, name, t);
    NameFound(t.list[d], name, i);
    if ok {
      RefusedFor(g, v, t, d, name);
      ok := false;
      return;
    }
    var short;
    ok, short, n := PickShort(fs, d, name, t);
    NewNames(g, t.list[d], name, i, ok, short, n, 0, false);
    if !ok {
      RefusedFor(g, v, t, d, name);
      return;
    }
    var startCluster;
    ok, startCluster, t1 := NewChain(fs, t);
    if !ok {
      RefusedFor(g, v, t, d, name);
      return;
    }
    var entry := NewEntry(name, short, startCluster, 0, false);
    e := entry;
    PendingStart(g, v, t, fs.State(), t1, startCluster);
    NewNames(g, t.list[d], name, i, ok, short, n, startCluster, false);
    ok, t' := Finish(fs, d, entry, v, t, t1);
    if !ok {
      RefusedFor(g, v, t, d, name);
      return;
    }
    ok, record := OpenNew(fs, d, entry, t, t');
    PurgeFat(fs, t');
    NotRefused(g, v, t, d, name);
    CreatedBy(g, v, t, fs.State(), t', d, e);
  }

  lemma RefusedFor(g: Geometry, v: Volume, t: Tree, d: u32, name: seq<byte>)
    requires d in t.list
    requires || HasName(t.list[d], name)
             || TakenBelow(t.list[d], BaseShort(name), MAX_TAIL)
             || name == []
             || Free(g, v.T) == []
             || !Fitting(g, v, t, d, name, 1)
    ensures Refused(g, v, t, d, name)
  {
    hide HasName, TakenBelow, BaseShort, Free, Fitting;
  }

  lemma NotRefused(g: Geometry, v: Volume, t: Tree, d: u32, name: seq<byte>)
    requires d in t.list && !HasName(t.list[d], name) && !TakenBelow(t.list[d], BaseShort(name), MAX_TAIL)
    requires name != [] && Free(g, v.T) != [] && Fitting(g, v, t, d, name, 1)
    ensures !Refused(g, v, t, d, name)
  {
    hide HasName, TakenBelow, BaseShort, Free, Fitting;
  }

  lemma CreatedBy(g: Geometry, v: Volume, t: Tree, w: Volume, t': Tree, d: u32, e: NewEntry)
    requires Born(t, t', d, e) && OthersKept(g, v, t, w, t', d) && Spent(g, v, t, w, t', d, e) && e.size == 0
    requires e.name != []
    requires !HasName(t.list[d], e.name) && !TakenBelow(t.list[d], BaseShort(e.name), MAX_TAIL)
    requires FirstUnused(t.list[d], BaseShort(e.name), e.short)
    ensures Created(g, v, t, w, t', d, e)
  {
    hide HasName, TakenBelow, BaseShort, Born, OthersKept, Spent, FirstUnused;
  }

  /** A cluster was allocated and nothing names it. */
  ghost predicate Leaked(t: Tree, t': Tree) {
    exists c :: c !in t.chains && t' == t.(chains := t.chains[c := [c]], loose := t.loose + {c})
  }

  /** The refused creation of a directory: a cluster is lost exactly if only the short names ran out. */
  ghost predicate DirRefused(g: Geometry, v: Volume, t: Tree, w: Volume, t': Tree, d: u32, name: seq<byte>) {
    && d in t.list && Refused(g, v, t, d, name) && AllKept(g, v, t, w)
    && if !HasName(t.list[d], name) && Free(g, v.T) != [] && TakenBelow(t.list[d], BaseShort(name), MAX_TAIL)
      then Leaked(t, t')
      else t' == t
  }

  /** _fs_create_dir. */
  method CreateDir(fs: FatFs, d: u32, name: seq<byte>, ghost t: Tree)
    returns (ok: bool, startCluster: u32, ghost e: NewEntry, ghost t': Tree)
    requires MayCreate(fs, t, d, name)
    modifies fs, fs.table, fs.disk
    ensures Ready(fs, t') && Reaches(fs.geo, old(fs.State()), t, fs.State(), t')
    ensures ok ==>
              && Created(fs.geo, old(fs.State()), t, fs.State(), t', d, e) && e.name == name && e.isDir
              && e.startCluster == startCluster
    ensures !ok ==> DirRefused(fs.geo, old(fs.State()), t, fs.State(), t', d, name)
    ensures ok <==> !Refused(fs.geo, old(fs.State()), t, d, name)
  {
    hide *;
    ghost var v, g := fs.State(), fs.geo;
    t', e, startCluster := t, NewEntry(name, Unnamed(), 0, 0, false), 0;
    Starting(fs, t, d, name);
    var record;
    ghost var i, k, n, t1;
    ok, record, i, k := Lookup(fs, d, name, t);
    NameFound(t.list[d], name, i);
    if ok {
      RefusedFor(g, v, t, d, name);
      DirRefusedFor(g, v, t, fs.State(), t', d, name);
      ok := false;
      return;
    }
    ok, startCluster, t1 := NewChain(fs, t);
    if !ok {
      RefusedFor(g, v, t, d, name);
      DirRefusedFor(g, v, t, fs.State(), t', d, name);
      return;
    }
    PendingStart(g, v, t, fs.State(), t1, startCluster);
    PendingParts(g, v, t, fs.State(), t1, startCluster);
    ghost var u := fs.State();
    EraseNew(fs, startCluster, t1);
    PendingCleaned(g, v, t, u, t1, fs.State(), startCluster);
    PendingParts(g, v, t, fs.State(), t1, startCluster);
    u := fs.State();
    var short;
    ok, short, n := PickShort(fs, d, name, t1);
    NewNames(g, t.list[d], name, i, ok, short, n, startCluster, true);
    if !ok {
      t' := t1;
      RefusedFor(g, v, t, d, name);
      LeakedBy(g, v, t, fs.State(), t1, d, name, startCluster);
      return;
    }
    var entry := NewEntry(name, short, startCluster, 0, true);
    e := entry;
    ok, t' := Finish(fs, d, entry, v, t, t1);
    if !ok {
      RefusedFor(g, v, t, d, name);
      DirRefusedFor(g, v, t, fs.State(), t', d, name);
      return;
    }
    PurgeFat(fs, t');
    NotRefused(g, v, t, d, name);
    CreatedBy(g, v, t, fs.State(), t', d, e);
  }

  lemma DirRefusedFor(g: Geometry, v: Volume, t: Tree, w: Volume, t': Tree, d: u32, name: seq<byte>)
    requires d in t.list && Refused(g, v, t, d, name) && AllKept(g, v, t, w) && t' == t
    requires HasName(t.list[d], name) || Free(g, v.T) == [] || !TakenBelow(t.list[d], BaseShort(name), MAX_TAIL)
    ensures DirRefused(g, v, t, w, t', d, name)
  {
    hide HasName, TakenBelow, BaseShort, Free, AllKept, Refused;
  }

  lemma LeakedBy(g: Geometry, v: Volume, t: Tree, w: Volume, t1: Tree, d: u32, name: seq<byte>, c: u32)
    requires d in t.list && Refused(g, v, t, d, name) && Pending(g, v, t, w, t1, c)
    requires !HasName(t.list[d], name) && TakenBelow(t.list[d], BaseShort(name), MAX_TAIL)
    ensures DirRefused(g, v, t, w, t1, d, name)
  {
    hide HasName, TakenBelow, BaseShort, Free, AllKept, Refused, Inv, Ample;
  }

  // ----- removal

  /** What goes does not contain the directory it is named in: true wherever the root can be reached. */
  ghost predicate MayRemove(t: Tree, d: u32, name: seq<byte>) {
    d in t.list && forall i :: 0 <= i < |t.list[d]| && Normal(t.list[d][i].name) == Normal(name) ==>
      d !in Under(t, StartCluster(t.list[d][i].record))
  }

  /** The first entry of the name is gone, and its chain with it; what was below it has no name any more. */
  ghost predicate Removed(g: Geometry, v: Volume, t: Tree, w: Volume, t': Tree, d: u32, name: seq<byte>) {
    exists i: nat :: RemovedAt(g, v, t, w, t', d, name, i)
  }

  ghost predicate RemovedAt(g: Geometry, v: Volume, t: Tree, w: Volume, t': Tree, d: u32, name: seq<byte>, i: nat) {
    && d in t.list && i < |t.list[d]| && FirstIn(t.list[d], name, i)
    && var s := StartCluster(t.list[d][i].record);
      && s in t.chains && d !in Under(t, s) && w.T == Cleared(v.T, t.chains[s])
      && t' == Pruned(t, d, i, s)
      && OthersKept(g, v, t, w, t', d)
  }

  /** The chain of a listed entry, and its directory once that chain is cleared. */
  lemma RemovalStart(g: Geometry, v: Volume, t: Tree, d: u32, name: seq<byte>, i: nat)
    requires Inv(g, v, t) && MayRemove(t, d, name) && FirstIn(t.list[d], name, i) && i < |t.list[d]|
    ensures var s := StartCluster(t.list[d][i].record);
      && s in t.chains && s < |v.T| && LinksInRange(g.fatType, v.T)
      && Freed(g.fatType, v.T, s) == Cleared(v.T, t.chains[s])
      && d in t.chains && DirChain(g, Cleared(v.T, t.chains[s]), d, t.chains[d])
      && d !in Under(t, s)
  {
    hide Geometry.Ok, Owned, SizesFit, Stocked, NamesDiffer, OneRefEach, KindsAgree, AllNamed, StartCluster, Below;
    hide LinksInRange, Freed, Cleared, DirChain, Span, Normal;
    var s := StartCluster(t.list[d][i].record);
    assert RefAt(t.list, d, i, s);
    FreeKeeps(g, v.T, t.chains, s);
    ChainClusters(g, Cleared(v.T, t.chains[s]), t.chains - {s}, d);
  }

  /** The record marked deleted is the one that was looked up. */
  lemma SameEntry(g: Geometry, v: Volume, t: Tree, d: u32, i: nat, short: ShortName, k: nat)
    requires Inv(g, v, t) && d in t.list && d in t.chains && i < |t.list[d]| && short == t.list[d][i].record[..11]
    requires FirstShort(DirSlots(g, v.data, t.chains[d]), short, k)
    ensures var slots := DirSlots(g, v.data, t.chains[d]);
      k < |slots| && |Pairs(slots, k)| == i && IsLive(slots[k]) && slots[k] == t.list[d][i].record
  {
    hide Geometry.Ok, Owned, SizesFit, Referenced, DirSlots, Pairs, NameAt, Span, Normal, IsLive, WellFormed;
    var slots := DirSlots(g, v.data, t.chains[d]);
    ShortOnList(slots, short, k);
    var list := t.list[d];
    SelfShort(list[i].record);
    var j := |Pairs(slots, k)|;
    assert j <= i;
    assert SameShortName(list[j].record, list[i].record);
  }

  lemma SelfShort(s: Slot)
    ensures SameShortName(s, s[..11])
    ensures forall r: Slot :: SameShortName(r, s[..11]) <==> SameShortName(r, s)
  {
    assert s[..11][..11] == s[..11];
  }

  /** _fs_remove. */
  method Remove(fs: FatFs, d: u32, name: seq<byte>, ghost t: Tree) returns (ok: bool, ghost t': Tree)
    requires Ready(fs, t) && MayRemove(t, d, name) && CString(name)
    modifies fs, fs.table, fs.disk
    ensures Ready(fs, t') && Reaches(fs.geo, old(fs.State()), t, fs.State(), t')
    ensures ok <==> HasName(t.list[d], name)
    ensures ok ==> Removed(fs.geo, old(fs.State()), t, fs.State(), t', d, name)
    ensures !ok ==> t' == t && fs.State() == old(fs.State())
  {
    hide *;
    t' := t;
    RemoveFrom(fs, t, d, name);
    ReachesSelf(fs.geo, fs.State(), t);
    ghost var i, k;
    var entry;
    ok, entry, i, k := Lookup(fs, d, name, t);
    NameFound(t.list[d], name, i);
    if ok {
      t' := UnlinkEntry(fs, d, name, entry, t, i);
    }
  }

  lemma RemoveFrom(fs: FatFs, t: Tree, d: u32, name: seq<byte>)
    requires MayRemove(t, d, name)
    ensures d in t.list
  {
  }

  /** Free the chain of the entry and mark its record. */
  method UnlinkEntry(fs: FatFs, d: u32, name: seq<byte>, entry: Slot, ghost t: Tree, ghost i: nat)
    returns (ghost t': Tree)
    requires Ready(fs, t) && MayRemove(t, d, name) && FirstIn(t.list[d], name, i) && i < |t.list[d]|
    requires entry == t.list[d][i].record
    modifies fs, fs.table, fs.disk
    ensures Ready(fs, t') && Removed(fs.geo, old(fs.State()), t, fs.State(), t', d, name)
    ensures Reaches(fs.geo, old(fs.State()), t, fs.State(), t')
  {
    hide FatFs.Valid, FatFs.CurrentIn, Inv, CurAt, DirChain, DirSlots, Normal, FirstIn, FirstShort, LinksInRange, Freed;
    hide Cleared, Rewritten, MayRemove;
    hide RemovedAt, Removed, StartCluster, Unlinked, Reaches, Pruned, Under;
    ghost var g, v := fs.geo, fs.State();
    RemoveFrom(fs, t, d, name);
    RemovalStart(g, v, t, d, name, i);
    var start := StartCluster(entry);
    fs.FreeClusterChain(start);
    ghost var k;
    var marked;
    marked, k := MarkFileDeleted(fs, d, entry[..11], t.chains[d], DirSlots(g, v.data, t.chains[d]));
    SameEntry(g, v, t, d, i, entry[..11], k);
    RewrittenTable(g, v.(T := Cleared(v.T, t.chains[start])), fs.State(), t.chains[d], k, Deleted(entry));
    t' := Pruned(t, d, i, start);
    UnlinkDone(g, v, t, fs.State(), t', d, name, i, k);
    CurOn(fs, t', d, t.chains[d]);
  }

  lemma RewrittenTable(g: Geometry, v: Volume, w: Volume, dir: seq<u32>, k: nat, s: Slot)
    requires Rewritten(g, v, w, dir, k, s)
    ensures w.T == v.T
  {
  }

  lemma UnlinkDone(g: Geometry, v: Volume, t: Tree, w: Volume, t': Tree, d: u32, name: seq<byte>, i: nat, k: nat)
    requires Inv(g, v, t) && d in t.list && d in t.chains && i < |t.list[d]| && FirstIn(t.list[d], name, i)
    requires var slots, s := DirSlots(g, v.data, t.chains[d]), StartCluster(t.list[d][i].record);
      && k < |slots| && |Pairs(slots, k)| == i && IsLive(slots[k]) && slots[k] == t.list[d][i].record
      && s in t.chains && d !in Under(t, s) && w.T == Cleared(v.T, t.chains[s])
      && Rewritten(g, v.(T := Cleared(v.T, t.chains[s])), w, t.chains[d], k, Deleted(slots[k]))
      && t' == Pruned(t, d, i, s)
    ensures Inv(g, w, t') && Removed(g, v, t, w, t', d, name) && d in t'.list && d in t'.chains
    ensures t'.chains[d] == t.chains[d]
    ensures Reaches(g, v, t, w, t')
  {
    hide Inv, DirSlots, Pairs, StartCluster, Cleared, Rewritten, Normal, IsLive, Deleted, FirstIn, OthersKept, Reaches;
    hide Below;
    assert Unlinked(g, v, t, w, t', d, k);
    ReachesStep(g, v, t, w, t', Move.Unlink(d, k));
    UnlinkedKeeps(g, v, t, w, t', d, k);
    StepFrame(g, v, t, w, t', Move.Unlink(d, k));
    hide Unlinked;
    assert RemovedAt(g, v, t, w, t', d, name, i);
  }

  lemma NotItself(g: Geometry, v: Volume, t: Tree, d: u32, i: nat)
    requires Inv(g, v, t) && d in t.list && i < |t.list[d]|
    requires var s := StartCluster(t.list[d][i].record); s in t.list ==> t.list[s] == []
    ensures StartCluster(t.list[d][i].record) != d
  {
    hide Inv, StartCluster;
  }

  lemma CurOn(fs: FatFs, t: Tree, d: u32, dir: seq<u32>)
    requires d in t.list && d in t.chains && t.chains[d] == dir && fs.CurrentIn(dir)
    ensures CurAt(fs.geo, fs.curAddress, t)
  {
    hide Onto, FatFs.CurrentIn;
    CurrentIsOnto(fs, dir);
  }
}
