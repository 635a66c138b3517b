/** Volumes that run full: what the driver then does, and inputs on which it fails. */
module Limits {
  import opened Words
  import opened Layout
  import opened BlockDevice
  import opened FatTables
  import opened Chains
  import opened Contents
  import opened FatStrings
  import opened LongNames
  import opened Directories
  import opened Access
  import opened Allocation
  import opened DirScan
  import opened DirWrite
  import opened DirInsert
  import opened ShortNames
  import opened Listings
  import opened Ownership
  import opened ShortChoice
  import opened Volumes
  import opened Operations
  import opened FileIo
  import opened Files
  import opened Format
  import opened Lifetimes
  import Arith

  // ----- entries behind the data clusters

  /** The FAT has an entry behind the last data cluster: so it has on every volume this driver formats as FAT32. */
  predicate Spare(g: Geometry, T: seq<u32>) { g.Limit() < |T| }

  /** Where the clusters to come have data sectors, although there are spare entries, there are clusters enough. */
  lemma NeverScarce(g: Geometry, v: Volume, t: Tree, n: nat)
    requires Inv(g, v, t) && Spare(g, v.T) && Ample(g, v.T, n)
    ensures n < |Free(g, v.T)|
  {
    hide Stocked, Referenced, NamesDiffer, SizesFit, FreeIn, DataChain, Disjoint, Link;
    var c := |v.T| - 1;
    assert IsFree(g.fatType, v.T, c) by { SpareIsFree(g, v.T, t.chains, c); }
    hide Geometry.Ok, Owned, IsFree;
    FreeInMembers(g.fatType, v.T, g.rootCluster, |v.T|);
    assert c in Free(g, v.T);
    var k :| 0 <= k < |Free(g, v.T)| && Free(g, v.T)[k] == c;
  }

  lemma SpareIsFree(g: Geometry, T: seq<u32>, chains: ChainMap, c: u32)
    requires Owned(g, T, chains) && 2 <= c < |T| && g.Limit() <= c
    ensures IsFree(g.fatType, T, c)
  {
    forall s | s in chains ensures c !in chains[s] {
      ChainClusters(g, T, chains, s);
    }
    assert !InSome(chains, c);
  }

  /** On such a volume a write that is supplied is done: it neither panics nor stops short. */
  lemma NeverShort(g: Geometry, v: Volume, t: Tree, ch: seq<u32>, end: nat)
    requires Inv(g, v, t) && Spare(g, v.T) && g.sectorsPerCluster >= 1 && Supply(g, v.T, ch, Plan(g, end))
    ensures OutcomeOf(g, v.T, ch, end) == Done
  {
    hide Inv, Free, Plan, Spare;
    NeverScarce(g, v, t, Lack(ch, Plan(g, end)));
  }

  /** And a creation is refused for its names only. */
  lemma RefusedForNames(g: Geometry, v: Volume, t: Tree, d: u32, name: seq<byte>)
    requires Inv(g, v, t) && Spare(g, v.T) && Ample(g, v.T, 2) && d in t.list
    ensures Refused(g, v, t, d, name) <==>
            HasName(t.list[d], name) || TakenBelow(t.list[d], BaseShort(name), MAX_TAIL) || name == []
  {
    hide Inv, Free, Spare, HasName, TakenBelow, BaseShort, HasRoom, Ample, DirSlots, EntriesRequired;
    NeverScarce(g, v, t, 2);
    DirectoryOf(g, v, t, d);
  }

  /** All this holds of the volumes that this driver formats as FAT32. */
  lemma FormattedSpare(total: u32, T: seq<u32>)
    requires total > 4194304 && |T| == Geometry32(total).EntryCount()
    ensures Spare(Geometry32(total), T)
  {
    hide Geometry32;
    SparesExist(total);
  }

  /** The chains of a volume in order do not run through a used spare entry: there is no such volume. */
  lemma SpareUsed(g: Geometry, w: Volume, t': Tree, c: u32)
    requires 2 <= c < |w.T| && g.Limit() <= c && !IsFree(g.fatType, w.T, c)
    ensures !Inv(g, w, t')
  {
    hide Stocked, Referenced, NamesDiffer, SizesFit, IsFree, Geometry.Ok;
    if Inv(g, w, t') {
      SpareIsFree(g, w.T, t'.chains, c);
      assert false;
    }
  }

  /** Behind the chain of s the first n free entries were linked, or all there are. */
  ghost predicate Linked(g: Geometry, v: Volume, t: Tree, w: Volume, s: u32, n: nat) {
    && s in t.chains && t.chains[s] != [] && w.data == v.data
    && Grown(g.fatType, v.T, w.T, t.chains[s][|t.chains[s]| - 1], FirstFree(g, v.T, n))
    && Free(g, w.T) == Free(g, v.T)[|FirstFree(g, v.T, n)|..]
  }

  /** Growth leaves a volume in order exactly if the entries it comes to have data sectors. */
  lemma GrowthBreaks(g: Geometry, v: Volume, t: Tree, w: Volume, s: u32, n: nat)
    requires Inv(g, v, t) && s !in t.list && Linked(g, v, t, w, s, n)
    ensures (exists t' :: Inv(g, w, t')) <==> Ample(g, v.T, n)
    ensures Ample(g, v.T, n) <==> forall i :: 0 <= i < |FirstFree(g, v.T, n)| ==> FirstFree(g, v.T, n)[i] < g.Limit()
  {
    hide Inv, FreeIn, Appended, Takeable, IsFree;
    WideOf(g, v, t);
    var add := FirstFree(g, v.T, n);
    AmpleFirst(g, v.T, n);
    if Ample(g, v.T, n) {
      FirstFreeTakeable(g, v.T, n);
      var t' := t.(chains := t.chains[s := t.chains[s] + add]);
      FileGrownKeeps(g, v, t, w, t', s, add);
    } else {
      var i :| 0 <= i < |add| && add[i] >= g.Limit();
      FirstFreeUsed(g, v.T, w.T, n, i);
      forall t' ensures !Inv(g, w, t') {
        SpareUsed(g, w, t', add[i]);
      }
    }
  }

  lemma WideOf(g: Geometry, v: Volume, t: Tree)
    requires Inv(g, v, t)
    ensures Wide(g) && 2 <= |v.T| < 0x1000_0000 && g.rootCluster <= |v.T|
  {
    hide Stocked, Referenced, NamesDiffer, SizesFit, DataChain, Disjoint, IsFree, InSome;
    RootChain(g, v, t);
  }

  lemma RootChain(g: Geometry, v: Volume, t: Tree)
    requires Inv(g, v, t)
    ensures g.rootCluster < |v.T|
  {
    hide Stocked, NamesDiffer, SizesFit, OneRefEach, KindsAgree, RefsIn, AllNamed, Geometry.Ok, Owned, Span;
    var ch := t.chains[g.rootCluster];
    ChainClusters(g, v.T, t.chains, g.rootCluster);
    DataTail(g, v.T, ch);
  }

  lemma DataTail(g: Geometry, T: seq<u32>, ch: seq<u32>)
    requires DataChain(g, T, ch)
    ensures |ch| >= 1 && ch[0] < |T|
  {
  }

  lemma AmpleFirst(g: Geometry, T: seq<u32>, n: nat)
    ensures Ample(g, T, n) <==> forall i :: 0 <= i < |FirstFree(g, T, n)| ==> FirstFree(g, T, n)[i] < g.Limit()
  {
    hide Free;
    forall i | 0 <= i < |FirstFree(g, T, n)| ensures FirstFree(g, T, n)[i] == Free(g, T)[i] {
    }
  }

  /** What was linked is not free any more. */
  lemma FirstFreeUsed(g: Geometry, T: seq<u32>, U: seq<u32>, n: nat, i: nat)
    requires Wide(g) && g.rootCluster <= |T| == |U| < 0x1000_0000 && i < |FirstFree(g, T, n)|
    requires Free(g, U) == Free(g, T)[|FirstFree(g, T, n)|..]
    ensures 2 <= FirstFree(g, T, n)[i] < |U| && !IsFree(g.fatType, U, FirstFree(g, T, n)[i])
  {
    hide FreeIn, IsFree;
    FreeInMembers(g.fatType, T, g.rootCluster, |T|);
    FreeInMembers(g.fatType, U, g.rootCluster, |U|);
    var c, k := FirstFree(g, T, n)[i], |FirstFree(g, T, n)|;
    assert c == Free(g, T)[i];
    forall j | 0 <= j < |Free(g, U)| ensures Free(g, U)[j] != c {
      assert Free(g, U)[j] == Free(g, T)[k + j];
    }
  }

  /**
   * What growth does that is not supplied: fatfs_add_free_space behind the last cluster of a file
   * links a cluster without data sectors, and leaves a volume that is in order under no tree,
   * exactly if not all the entries it comes to have data sectors.
   */
  method GrowUnchecked(fs: FatFs, s: u32, last: u32, clusters: nat, ghost t: Tree) returns (ok: bool, first: u32)
    requires FileOf(fs, t, s) && t.chains[s] != [] && last == t.chains[s][|t.chains[s]| - 1]
    requires fs.geo.EntryCount() <= 0x0FFF_FFF8
    modifies fs.table, fs.disk
    ensures fs.Valid() && (ok <==> clusters <= |Free(fs.geo, old(fs.State()).T)|)
    ensures Linked(fs.geo, old(fs.State()), t, fs.State(), s, clusters)
    ensures (exists t' :: Inv(fs.geo, fs.State(), t')) <==> Ample(fs.geo, old(fs.State()).T, clusters)
    ensures Ample(fs.geo, old(fs.State()).T, clusters) <==>
            forall i :: 0 <= i < |FirstFree(fs.geo, old(fs.State()).T, clusters)| ==>
              FirstFree(fs.geo, old(fs.State()).T, clusters)[i] < fs.geo.Limit()
  {
    hide Inv, FatFs.Valid, CurAt, Free, Ample, Linkable, DataChain, IsFree, Grown, Geometry.EntryCount;
    ghost var g, v := fs.geo, fs.State();
    FileChain(fs, t, s);
    TailUsed(g, v.T, t.chains[s]);
    AllLinkable(fs);
    ok, first := AddFreeSpace(fs, last, clusters, Free(g, v.T));
    assert Free(g, v.T)[..|Free(g, v.T)|] == Free(g, v.T);
    GrowthBreaks(g, v, t, fs.State(), s, clusters);
  }

  lemma AllLinkable(fs: FatFs)
    requires fs.Valid() && fs.geo.EntryCount() <= 0x0FFF_FFF8 && fs.geo.fatType == FAT32
    ensures forall i :: 0 <= i < |Free(fs.geo, fs.State().T)| ==>
            Linkable(fs.geo.fatType, Free(fs.geo, fs.State().T)[i])
  {
    hide FreeIn, IsFree, Geometry.EntryCount;
    TableFits(fs);
    FreeInMembers(fs.geo.fatType, fs.State().T, fs.geo.rootCluster, |fs.State().T|);
  }

  // ----- a full volume

  /** The free clusters of a fresh volume are all from 3 on. */
  lemma FreshFree(g: Geometry, v: Volume)
    requires Inv(g, v, FreshTree()) && g.rootCluster == 2
    ensures |Free(g, v.T)| == |v.T| - 3 && forall i :: 0 <= i < |Free(g, v.T)| ==> Free(g, v.T)[i] == 3 + i
  {
    hide Inv, FreeIn, DataChain, IsFree;
    FreshChains(g, v);
    TailUsed(g, v.T, [2]);
    FreeInSplit(g.fatType, v.T, 2, 3, |v.T|);
    FreeInNone(g.fatType, v.T, 2, 3);
    AllFree(g.fatType, v.T, 3, |v.T|);
  }

  /** The root directory of a volume freshly formatted as FAT32 has room for any entry that fits a cluster. */
  lemma FreshRoom(sectors: seq<Sector>, total: u32, n: nat)
    requires total > 4194304 && Formatted32(sectors, Parameters32(total)) && total <= |sectors|
    requires Geometry32(total).Ok() && Geometry32(total).clusterBegin <= |sectors|
    requires 1 <= n <= 16 * Geometry32(total).sectorsPerCluster
    ensures HasRoom(DirSlots(Geometry32(total), OnSectors(Geometry32(total), sectors).data, [2]), n)
  {
    hide Blank, BootFields32, FirstFat, ClusterSize, FatSectors, Count, DirSlots, Decode, Geometry.Ok, IsOccupied;
    hide IsLongText;
    var g := Geometry32(total);
    var data := sectors[g.clusterBegin..];
    forall k | 0 <= k < g.sectorsPerCluster ensures k < |data| && data[k] == Blank() {
      assert data[k] == sectors[g.clusterBegin + k];
    }
    FreshRoomSlots(g, data);
    BlankIsFree();
    var slots := DirSlots(g, data, [2]);
    assert Room(slots, 0, n, n - 1);
  }

  lemma BlankIsFree()
    ensures !IsOccupied(BlankSlot()) && !IsLongText(BlankSlot())
  {
  }

  lemma FreshRoomSlots(g: Geometry, data: seq<Sector>)
    requires g.fatType == FAT32 && g.sectorsPerCluster >= 1
    requires forall i :: 0 <= i < g.sectorsPerCluster ==> i < |data| && data[i] == Blank()
    ensures |DirSlots(g, data, [2])| == 16 * g.sectorsPerCluster
    ensures forall j :: 0 <= j < |DirSlots(g, data, [2])| ==> DirSlots(g, data, [2])[j] == BlankSlot()
  {
    var addrs := Addrs(g, [2]);
    assert |addrs| == 1 * g.sectorsPerCluster == g.sectorsPerCluster;
    forall s: nat | s < |addrs| ensures Pick(data, addrs)[s] == Blank() {
      var i, k := AddrsSplit(g, [2], s);
      assert i == 0 && addrs[s] == s;
    }
    hide Blank, Pick, Addrs;
    BlankSector(Pick(data, addrs));
  }

  /** What the fill starts from. */
  ghost predicate Empty(fs: FatFs, name: seq<byte>)
    reads fs, fs.table, fs.disk
  {
    && Ready(fs, FreshTree()) && fs.geo.rootCluster == 2 && fs.geo.clusterCount >= 3
    && name != [] && Creatable(fs.geo, name)
    && HasRoom(DirSlots(fs.geo, fs.State().data, [2]), EntriesRequired(name) + 1)
  }

  lemma EmptyParts(fs: FatFs, name: seq<byte>)
    requires Empty(fs, name)
    ensures MayCreate(fs, FreshTree(), 2, name) && CString(name) && 2 in FreshTree().list
    ensures !Refused(fs.geo, fs.State(), FreshTree(), 2, name)
    ensures Inv(fs.geo, fs.State(), FreshTree()) && fs.geo.fatType == FAT32 && fs.geo.sectorsPerCluster >= 1
    ensures 5 <= fs.geo.Limit() <= |fs.State().T| && fs.geo.rootCluster == 2 && fs.geo.clusterCount >= 3
    ensures HasRoom(DirSlots(fs.geo, fs.State().data, FreshTree().chains[2]), EntriesRequired(name) + 1)
  {
    hide Inv, CurAt, BaseShort, Candidate, Views, Decode, Geometry.EntryCount, Free, DirSlots, HasRoom, EntriesRequired;
    hide FatFs.Valid;
    TableFits(fs);
    FreshFree(fs.geo, fs.State());
    Ordered(fs.geo, fs.State(), FreshTree());
    assert FreshTree().list[2] == [] && FreshTree().chains[2] == [2];
    assert !TakenShort([], Candidate(BaseShort(name), 0));
  }

  /** The new file has cluster 3, and the clusters from 4 on are free. */
  lemma FirstFile(g: Geometry, v: Volume, w: Volume, t: Tree, e: NewEntry)
    requires Inv(g, v, FreshTree()) && Created(g, v, FreshTree(), w, t, 2, e) && g.rootCluster == 2
    requires 5 <= g.Limit() <= |v.T|
    requires HasRoom(DirSlots(g, v.data, FreshTree().chains[2]), EntriesRequired(e.name) + 1)
    ensures e.startCluster in t.chains && t.chains[e.startCluster] == [3]
    ensures |Free(g, w.T)| == |v.T| - 4 && forall i :: 0 <= i < |Free(g, w.T)| ==> Free(g, w.T)[i] == 4 + i
  {
    hide Inv, OneMore, Record, OthersKept, HasName, FirstUnused, TakenBelow, BaseShort, Free, DirSlots, HasRoom;
    hide EntriesRequired;
    FreshFree(g, v);
  }

  /** All data clusters but the file's first are what the file lacks. */
  lemma AllOfThem(g: Geometry, T: seq<u32>, ch: seq<u32>, size: nat)
    requires g.sectorsPerCluster >= 1 && ch == [3] && g.Limit() >= 5 && |Free(g, T)| >= g.Limit() - 4
    requires forall i :: 0 <= i < |Free(g, T)| ==> Free(g, T)[i] == 4 + i
    requires size == Capacity(g, g.clusterCount - 1)
    ensures Plan(g, size) == g.clusterCount - 1 && Supply(g, T, ch, Plan(g, size)) && OutcomeOf(g, T, ch, size) == Done
  {
    PlanBehind(g, g.clusterCount - 1, 0);
    Arith.CellDiv(0, g.sectorsPerCluster - 1, g.sectorsPerCluster);
    hide Plan, Free;
  }

  /** After the write only the entries behind the data clusters are free. */
  lemma OnlySpares(g: Geometry, T: seq<u32>, ch: seq<u32>, U: seq<u32>, ch': seq<u32>)
    requires Drew(g, T, ch, U, ch') && |ch| == 1 && |ch'| == g.clusterCount - 1 && |U| == |Free(g, T)| + 4
    requires g.fatType == FAT32
    requires forall i :: 0 <= i < |Free(g, T)| ==> Free(g, T)[i] == 4 + i
    requires g.rootCluster == 2 && |U| < 0x1000_0000
    ensures forall c :: 2 <= c < |U| ==> (IsFree(FAT32, U, c) <==> c >= g.Limit())
  {
    hide FreeIn, IsFree;
    FreeInMembers(FAT32, U, 2, |U|);
    var F := Free(g, U);
    assert forall i :: 0 <= i < |F| ==> F[i] == g.Limit() + i;
    forall c | 2 <= c < |U| ensures IsFree(FAT32, U, c) <==> c >= g.Limit() {
      if c >= g.Limit() {
        assert F[c - g.Limit()] == c;
      }
    }
  }

  /** The table keeps its length. */
  lemma TableLength(fs: FatFs)
    requires fs.Valid()
    ensures |fs.State().T| == fs.geo.EntryCount() < 0x1000_0000
  {
    hide Views, Decode;
  }

  /** One file takes up every data cluster of a fresh volume; what is left free has no data sectors. */
  method FillVolume(fs: FatFs, name: seq<byte>, bytes: seq<byte>)
    returns (file: OpenFile, ghost t: Tree, ghost i: nat)
    requires Empty(fs, name) && |bytes| == Capacity(fs.geo, fs.geo.clusterCount - 1) < 0x1_0000_0000
    modifies fs, fs.table, fs.disk
    ensures Ready(fs, t) && Reaches(fs.geo, old(fs.State()), FreshTree(), fs.State(), t)
    ensures |fs.State().T| == fs.geo.EntryCount()
    ensures forall c :: 2 <= c < |fs.State().T| ==> (IsFree(FAT32, fs.State().T, c) <==> c >= fs.geo.Limit())
    ensures fresh(file) && OpenIn(fs, file, t, i) && file.len == |bytes|
    ensures file.start in t.chains && |t.chains[file.start]| == fs.geo.clusterCount - 1 && fs.geo.sectorsPerCluster >= 1
  {
    hide *;
    ghost var v0, g := fs.State(), fs.geo;
    EmptyParts(fs, name);
    ReadyOf(fs, name);
    TableLength(fs);
    var ok, record;
    ghost var e, t1;
    ok, record, e, t1 := CreateFile(fs, 2, name, FreshTree());
    ghost var v1 := fs.State();
    ReadyParts(fs, t1);
    TableLength(fs);
    CreatedParts(g, v0, FreshTree(), v1, t1, 2, e);
    NewFile(g, v0, FreshTree(), v1, t1, 2, e);
    FirstFile(g, v0, v1, t1, e);
    var f;
    f, i := Open(fs, 2, name, t1);
    BornPair(g, v1, FreshTree(), t1, 2, e, i);
    file := f;
    OpenParts(fs, file, t1, i);
    AllOfThem(g, v1.T, t1.chains[file.start], |bytes|);
    var written, panicked;
    written, panicked, t := WriteFile(fs, file, bytes, 0, t1, i);
    OpenParts(fs, file, t, i);
    assert bytes[..written] == bytes;
    WroteParts(g, v1, t1, fs.State(), t, file.start, file.parent, i, bytes[..written], 0, file.len);
    LongAs(t1, t, file.start, g.clusterCount - 1);
    ReadyParts(fs, t);
    TableLength(fs);
    OnlySpares(g, v1.T, t1.chains[file.start], fs.State().T, t.chains[file.start]);
    ReachesOn(g, v0, FreshTree(), v1, t1, fs.State(), t);
  }

  lemma ReadyOf(fs: FatFs, name: seq<byte>)
    requires Empty(fs, name)
    ensures fs.Valid()
  {
    hide Inv, Creatable, HasRoom, DirSlots, CurAt;
  }

  lemma WroteParts(g: Geometry, v: Volume, t: Tree, w: Volume, t': Tree, s: u32, p: u32, i: nat, bytes: seq<byte>,
      len: u32, len': u32)
    requires Wrote(g, v, t, w, t', s, p, i, 0, bytes, len, len')
    ensures len' == if |bytes| > len then |bytes| else len
    ensures s in t.chains && s in t'.chains && Drew(g, v.T, t.chains[s], w.T, t'.chains[s]) && Reaches(g, v, t, w, t')
  {
    hide Drew, Reaches, Content, Spliced, SameSectors, SizeChanged;
  }

  lemma LongAs(t: Tree, t': Tree, s: u32, c: nat)
    requires AsLong(t, t', s, c) && c >= 2 && s in t.chains && t.chains[s] == [3]
    ensures s in t'.chains && |t'.chains[s]| == c
  {
  }

  /** The size of a file that fills a fresh volume. */
  function FullSize(total: u32): nat
    requires total > 4194304
  {
    Geometry32Ok(total);
    Capacity(Geometry32(total), Geometry32(total).clusterCount - 1)
  }

  /**
   * A volume formatted as FAT32, filled by one file: the next cluster that the driver hands out
   * is the first one without data sectors.
   */
  method FillFresh(disk: Disk, total: u32, volumeName: seq<byte>, name: seq<byte>, bytes: seq<byte>)
    returns (fs: FatFs, next: u32, ghost before: seq<Sector>, ghost t: Tree)
    requires disk.reliable && 4194304 < total <= |disk.sectors| < 0x1_0000_0000
    requires name != [] && Creatable(Geometry32(total), name)
    requires |bytes| == FullSize(total) < 0x1_0000_0000
    modifies disk
    ensures fs.geo == Geometry32(total) && Ready(fs, t)
    ensures Formatted32(before, Parameters32(total)) && fs.geo.Ok() && fs.geo.clusterBegin <= |before|
    ensures Reaches(fs.geo, OnSectors(fs.geo, before), FreshTree(), fs.State(), t)
    ensures |fs.State().T| == fs.geo.EntryCount()
    ensures forall c :: 2 <= c < |fs.State().T| ==> (IsFree(FAT32, fs.State().T, c) <==> c >= fs.geo.Limit())
    ensures next == fs.geo.Limit() && fs.geo.Rel(next, 0) == Span(fs.geo)
  {
    hide *;
    fs := FreshFileSystem(disk, total, volumeName, 1);
    before := disk.sectors;
    StartsEmpty(fs, before, total, name);
    FullSizeIs(total);
    var file;
    ghost var i;
    file, t, i := FillVolume(fs, name, bytes);
    ReadyParts(fs, t);
    var ok;
    FullVolume(total, fs.State().T);
    TableIs(fs);
    ghost var v, a := fs.State(), fs.curAddress;
    ok, next := FindFree(fs);
    TableIs(fs);
    ReadyStill(fs, t, v, a);
    assert ok && next == fs.geo.Limit();
  }

  lemma FullSizeIs(total: u32)
    requires total > 4194304
    ensures Geometry32(total).clusterCount >= 1
    ensures FullSize(total) == Capacity(Geometry32(total), Geometry32(total).clusterCount - 1)
  {
    hide Geometry32, Geometry.Ok;
    Geometry32Ok(total);
  }

  lemma ReadyStill(fs: FatFs, t: Tree, v: Volume, a: u32)
    requires fs.Valid() && Inv(fs.geo, v, t) && CurAt(fs.geo, a, t) && fs.State() == v && fs.curAddress == a
    ensures Ready(fs, t)
  {
    hide Inv, CurAt, FatFs.Valid;
  }

  lemma TableIs(fs: FatFs)
    ensures fs.State().T == fs.table.T
  {
  }

  lemma StartsEmpty(fs: FatFs, sectors: seq<Sector>, total: u32, name: seq<byte>)
    requires total > 4194304 && fs.geo == Geometry32(total) && Ready(fs, FreshTree()) && total <= |sectors|
    requires Formatted32(sectors, Parameters32(total)) && fs.geo.Ok() && fs.geo.clusterBegin <= |sectors|
    requires fs.State() == OnSectors(fs.geo, sectors) && name != [] && Creatable(fs.geo, name)
    ensures Empty(fs, name)
  {
    hide Formatted32, OnSectors, Ready, DirSlots, HasRoom, Ascii, EntriesRequired, ClusterSize, FatSectors, Count;
    hide FatFs.State, Geometry.Ok;
    Geometry32Ok(total);
    RoomNeeded(fs.geo, name);
    FreshRoom(sectors, total, EntriesRequired(name) + 1);
  }

  lemma RoomNeeded(g: Geometry, name: seq<byte>)
    requires Creatable(g, name)
    ensures EntriesRequired(name) + 1 <= 16 * g.sectorsPerCluster
  {
    hide EntriesRequired, Ascii;
  }

  function LetterA(): seq<byte> { [0x41] }

  /** There are such volumes and files: below eight million sectors the file is not too long. */
  lemma SmallEnough(total: u32)
    requires 4194304 < total <= 8388607
    ensures FullSize(total) < 0x1_0000_0000
    ensures Creatable(Geometry32(total), LetterA())
  {
    hide Geometry32, Geometry.Ok, FullSize;
    Geometry32Ok(total);
    FullSizeIs(total);
    var g := Geometry32(total);
    Arith.MulOrder(g.clusterCount - 1, g.clusterCount, g.sectorsPerCluster);
    ClusterNotEmpty(g);
  }

  lemma ClusterNotEmpty(g: Geometry)
    requires g.Ok()
    ensures g.sectorsPerCluster >= 1
  {
  }

  // ----- a volume without spare entries

  /**
   * What becomes of a write of n more bytes at the end of a file whose sectors are all in use, on a
   * volume without a free cluster: less than a sector makes the kernel panic, more stops short.
   */
  lemma FullOutcome(g: Geometry, T: seq<u32>, ch: seq<u32>, len: nat, n: nat)
    requires g.sectorsPerCluster >= 1 && Free(g, T) == [] && len == Capacity(g, |ch|) && n >= 1
    ensures OutcomeOf(g, T, ch, len + n) == if n < SECTOR_SIZE then Panic else Short
  {
    hide Free, Plan, Whole;
    var sector := |ch| * g.sectorsPerCluster;
    WholeBehind(sector, 1);
    AtTheEnd(g, T, ch, sector, len + 1);
    WholeBehind(sector, n);
    PlanLess(g, len + 1, len + n);
    if n >= SECTOR_SIZE {
      PlanLess(g, len + 1, Whole(len + n));
    }
  }

  lemma WholeBehind(sector: nat, n: nat)
    ensures n < SECTOR_SIZE ==> Whole(SECTOR_SIZE * sector + n) == SECTOR_SIZE * sector
    ensures n >= SECTOR_SIZE ==> Whole(SECTOR_SIZE * sector + n) >= SECTOR_SIZE * sector + 1
  {
  }

  lemma NoneFree(g: Geometry, T: seq<u32>)
    requires g.fatType == FAT32 && g.rootCluster == 2 && g.Limit() == |T| < 0x1000_0000 && 2 <= |T|
    requires forall c :: 2 <= c < |T| ==> (IsFree(FAT32, T, c) <==> c >= g.Limit())
    ensures Free(g, T) == []
  {
    hide IsFree;
    FreeInNone(FAT32, T, 2, |T|);
  }

  lemma NothingToSupply(g: Geometry, T: seq<u32>, ch: seq<u32>, c: nat)
    requires Free(g, T) == []
    ensures Supply(g, T, ch, c)
  {
    hide FreeIn;
  }

  lemma ExhaustedAt(g: Geometry, T: seq<u32>, ch: seq<u32>, ch': seq<u32>, at: nat)
    requires Exhausted(g, T, ch, ch', at)
    ensures at == Capacity(g, |ch|)
  {
    hide Free, Capacity;
  }

  /** Fill a fresh volume without spare entries, and write on. */
  method WriteOnFull(fs: FatFs, name: seq<byte>, bytes: seq<byte>, more: seq<byte>)
    returns (written: nat, panicked: bool)
    requires Empty(fs, name) && fs.geo.EntryCount() == fs.geo.Limit() && more != []
    requires |bytes| == Capacity(fs.geo, fs.geo.clusterCount - 1) && |bytes| + |more| < 0x1_0000_0000
    modifies fs, fs.table, fs.disk
    ensures panicked <==> |more| < SECTOR_SIZE
    ensures !panicked ==> written == 0
  {
    hide *;
    var file;
    ghost var t, i, t';
    EmptyParts(fs, name);
    file, t, i := FillVolume(fs, name, bytes);
    ghost var g, ch := fs.geo, t.chains[file.start];
    ghost var v := fs.State();
    ReadyParts(fs, t);
    TableLength(fs);
    NoneFree(g, v.T);
    FullOutcome(g, fs.State().T, ch, |bytes|, |more|);
    NothingToSupply(g, fs.State().T, ch, Plan(g, |bytes| + |more|));
    written, panicked, t' := WriteFile(fs, file, more, file.len, t, i);
    if !panicked {
      ExhaustedAt(g, v.T, ch, t'.chains[file.start], |bytes| + written);
    }
  }

  /**
   * A volume that some other program may have laid out: 512 sectors of FAT for 65534 clusters of one
   * sector each, so that every entry has its cluster.
   */
  function Snug(): Parameters { Parameters(1, 32, 2, 0, 512, 66590) }

  function SnugGeometry(): Geometry { Geometry(FAT32, 1, 0, 32, 512, 1056, 2, 1056, 0, 0, 1, 65534) }

  /** The driver mounts it, and finds it in order. */
  lemma SnugMounts(sectors: seq<Sector>)
    requires Formatted32(sectors, Snug()) && |sectors| >= 66590
    ensures MountOf(sectors) == Mounted(SnugGeometry()) && SnugGeometry().Ok()
    ensures SnugGeometry().clusterBegin + Span(SnugGeometry()) <= |sectors|
    ensures SnugGeometry().EntryCount() == SnugGeometry().Limit()
    ensures Inv(SnugGeometry(), OnSectors(SnugGeometry(), sectors), FreshTree())
  {
    hide Blank, FirstFat, Zeroed, CountOfClusters, Inv, OnSectors, FsInfoSector, Count;
    CountBoot32(sectors[0], Snug());
    SnugCount();
    SnugInOrder(sectors);
  }

  lemma SnugCount()
    ensures Count(66590, 1056, 1) == 65534
  {
  }

  lemma SnugInOrder(sectors: seq<Sector>)
    requires Formatted32(sectors, Snug()) && |sectors| >= 66590
    ensures SnugGeometry().Ok() && SnugGeometry().clusterBegin + Span(SnugGeometry()) <= |sectors|
    ensures Inv(SnugGeometry(), OnSectors(SnugGeometry(), sectors), FreshTree())
  {
    hide Blank, FirstFat, BootFields32, FsInfoSector, Inv, OnSectors;
    BlankVolume(SnugGeometry(), sectors);
  }

  /** Lay such a volume out, mount it, and set the driver up. */
  method SnugFileSystem(disk: Disk, name: seq<byte>) returns (fs: FatFs)
    requires disk.reliable && 66590 <= |disk.sectors| < 0x1_0000_0000
    requires name != [] && Creatable(SnugGeometry(), name)
    modifies disk
    ensures fresh(fs) && fresh(fs.table) && fs.disk == disk && fs.geo == SnugGeometry()
    ensures Empty(fs, name) && fs.geo.EntryCount() == fs.geo.Limit()
  {
    hide BootFields32, FirstFat, Blank, FsInfoSector, Labelled, Inv, Decode, MountOf, DirSlots, HasRoom, Creatable;
    hide EntriesRequired, Geometry.Ok, Span;
    var boot := BootSector32(Snug(), []);
    var ok := disk.WriteOne(0, boot);
    ok := disk.WriteOne(1, FsInfoSector());
    ok := EraseFat(disk, 32, 1024, true);
    ok := EraseSectors(disk, 1056, 1);
    SnugMounts(disk.sectors);
    var r := Mount(disk);
    var table := new FatTable(disk, r.geo, 1);
    fs := new FatFs(table);
    SnugRoom(disk.sectors, name);
  }

  lemma SnugRoom(sectors: seq<Sector>, name: seq<byte>)
    requires Formatted32(sectors, Snug()) && |sectors| >= 66590 && SnugGeometry().Ok()
    requires name != [] && Creatable(SnugGeometry(), name)
    ensures HasRoom(DirSlots(SnugGeometry(), OnSectors(SnugGeometry(), sectors).data, [2]), EntriesRequired(name) + 1)
  {
    hide Blank, BootFields32, FirstFat, DirSlots, Decode, Geometry.Ok, IsOccupied, IsLongText, FsInfoSector;
    hide Creatable, EntriesRequired;
    var g := SnugGeometry();
    var data := sectors[g.clusterBegin..];
    assert data[0] == sectors[g.clusterBegin];
    FreshRoomSlots(g, data);
    BlankIsFree();
    RoomNeeded(g, name);
    var slots, n := DirSlots(g, data, [2]), EntriesRequired(name) + 1;
    assert Room(slots, 0, n, n - 1);
  }

  /** An input for either failure: the volume above, filled by one file, and then one byte, or one sector, more. */
  method WriteOnSnug(disk: Disk, bytes: seq<byte>, more: seq<byte>) returns (written: nat, panicked: bool)
    requires disk.reliable && 66590 <= |disk.sectors| < 0x1_0000_0000
    requires |bytes| == 65533 * SECTOR_SIZE && |more| in {1, SECTOR_SIZE}
    modifies disk
    ensures panicked <==> |more| == 1
    ensures !panicked ==> written == 0
  {
    hide Empty, Creatable;
    SnugName();
    var fs := SnugFileSystem(disk, LetterA());
    written, panicked := WriteOnFull(fs, LetterA(), bytes, more);
  }

  lemma SnugName()
    ensures Creatable(SnugGeometry(), LetterA())
  {
  }

  // ----- a read that goes on behind the end of the file

  /** Of an open file of this length 512 bytes are asked for of which it has one: 256 or more come out. */
  lemma BeyondLength(sectors: nat)
    requires 0xFFFF_FF01 <= SECTOR_SIZE * sectors
    ensures 256 <= BytesRead(0xFFFF_FF01, 0xFFFF_FF00, 512, SECTOR_SIZE * sectors)
  {
  }

  lemma GreatVolume()
    ensures Geometry32(0x100_0000).sectorsPerCluster == 8 && Geometry32(0x100_0000).rootCluster == 2
    ensures Plan(Geometry32(0x100_0000), 0xFFFF_FF01) + 2 < Geometry32(0x100_0000).clusterCount
    ensures Creatable(Geometry32(0x100_0000), LetterA()) && LetterA() != []
  {
    Sizes32(0x100_0000);
    hide ClusterSize;
    var g := Geometry32(0x100_0000);
    assert FatSectors(0x100_0000, 8, true) == 16385;
    assert g.clusterCount == 2093051;
    PlanHolds(g, 0xFFFF_FF01);
    hide Plan;
    assert Plan(g, 0xFFFF_FF01) <= 0x10_0000;
  }

  lemma OpenCapacity(fs: FatFs, file: OpenFile, t: Tree, i: nat)
    requires OpenIn(fs, file, t, i)
    ensures file.start in t.chains
    ensures file.len <= SECTOR_SIZE * |SectorsOf(fs.geo, fs.State().data, t.chains[file.start])|
  {
    hide FileOf, EntryOf, SectorsOf, OpenFile.LookupOk, OpenFile.SectorOk, FatFs.State;
  }

  /** An input for it: such a file on a fresh volume of eight gigabytes. */
  method ReadPastLength(disk: Disk, volumeName: seq<byte>, bytes: seq<byte>, buffer: array<byte>) returns (n: nat)
    requires disk.reliable && 0x100_0000 <= |disk.sectors| < 0x1_0000_0000
    requires |bytes| == 0xFFFF_FF01 && buffer.Length >= 512
    modifies disk, buffer
    ensures n >= 256
  {
    hide *;
    GreatVolume();
    var fs := FreshFileSystem(disk, 0x100_0000, volumeName, 1);
    ghost var g := fs.geo;
    FreshWelcome(fs, LetterA(), Plan(g, |bytes|));
    var file;
    ghost var e, t1, i, t2;
    file, e, t1, i := Begin(fs, 2, LetterA(), Plan(g, |bytes|), FreshTree());
    t2 := FillNew(fs, file, bytes, t1, i);
    OpenReadable(fs, file, t2, i);
    OpenCapacity(fs, file, t2, i);
    ghost var ch := t2.chains[file.start];
    ghost var secs := SectorsOf(g, fs.State().data, ch);
    n := ReadFile(fs, file, buffer, 0xFFFF_FF00, 512, ch, secs);
    BeyondLength(|secs|);
  }
}
