/** Sectors of open files: the cluster lookup and the transfers of kernel/fatfs/fatfs.c. */
module FileIo {
  import opened Words
  import opened Layout
  import opened Chains
  import opened Contents
  import opened FatStrings
  import opened LongNames
  import opened Access
  import opened Allocation
  import opened DirScan
  import opened DirInsert
  import opened Ownership
  import opened Volumes
  import opened Operations
  import opened FileBytes
  import Arith
  import DirWrite

  const UNSET: u32 := 0xFFFF_FFFF

  /** file_info_t of an open file, and the length kept in its node. */
  class OpenFile {
    const start: u32
    const parent: u32
    const short: ShortName

    // last_fat_lookup
    var lastIndex: u32
    var lastCluster: u32

    // file_data_sector and the sector of the file it holds
    var dataSector: Sector
    var dataAddress: u32

    var len: u32

    /** _fs_open_file, given the record that the lookup of the name found. */
    constructor (record: Slot, parent: u32)
      ensures start == StartCluster(record) && this.parent == parent && short == record[..11] && len == FileSize(record)
      ensures lastIndex == UNSET && dataAddress == UNSET
      ensures var s := record;
        start == s[26] as int + 0x100 * s[27] as int + 0x1_0000 * s[20] as int + 0x100_0000 * s[21] as int
      ensures var s := record;
        len == s[28] as int + 0x100 * s[29] as int + 0x1_0000 * s[30] as int + 0x100_0000 * s[31] as int
    {
      RecordFields(record);
      start, this.parent, short := StartCluster(record), parent, record[..11];
      lastIndex, lastCluster := UNSET, UNSET;
      dataSector, dataAddress := Blank(), UNSET;
      len := FileSize(record);
    }

    /** The recorded lookup is unset or names the chain element at its index. */
    ghost predicate LookupOk(ch: seq<u32>)
      reads `lastIndex, `lastCluster
    {
      lastIndex == UNSET || (lastIndex < |ch| && lastCluster == ch[lastIndex])
    }

    /** The sector buffer is unset or holds a sector of the file. */
    ghost predicate SectorOk(secs: seq<Sector>)
      reads `dataSector, `dataAddress
    {
      dataAddress == UNSET || (dataAddress < |secs| && dataSector == secs[dataAddress])
    }
  }

  /** A chain of the mounted volume. */
  ghost predicate ChainOf(fs: FatFs, start: u32, ch: seq<u32>)
    reads fs, fs.table, fs.disk
  {
    fs.Valid() && DataChain(fs.geo, fs.State().T, ch) && ch[0] == start
  }

  lemma ChainParts(fs: FatFs, start: u32, ch: seq<u32>)
    requires ChainOf(fs, start, ch)
    ensures |ch| >= 1 && ch[0] == start && Clusters(fs.geo, ch) && fs.geo.Ok() && Span(fs.geo) <= |fs.data|
    ensures forall i :: 0 <= i < |ch| ==>
            2 <= ch[i] < |fs.State().T| && Link(fs.geo.fatType, fs.State().T[ch[i]]) ==
              if i + 1 < |ch| then ch[i + 1] else LAST_CLUSTER
  {
  }

  method NextInChain(fs: FatFs, start: u32, cluster: u32, ghost ch: seq<u32>, ghost i: nat) returns (next: u32)
    requires ChainOf(fs, start, ch) && i < |ch| && cluster == ch[i]
    modifies fs.table, fs.disk
    ensures ChainOf(fs, start, ch) && fs.State() == old(fs.State())
    ensures next == if i + 1 < |ch| then ch[i + 1] else LAST_CLUSTER
  {
    hide FatFs.Valid, DataChain, Link, Geometry.Ok;
    ChainParts(fs, start, ch);
    next := fs.NextCluster(cluster);
  }

  /** The cluster lookup of _read_sectors: the chain element at the index, or the end. */
  method ReadLookup(fs: FatFs, file: OpenFile, index: u32, ghost ch: seq<u32>) returns (cluster: u32)
    requires ChainOf(fs, file.start, ch) && file.LookupOk(ch) && index <= |ch| && index < UNSET
    modifies file`lastIndex, file`lastCluster, fs.table, fs.disk
    ensures ChainOf(fs, file.start, ch) && fs.State() == old(fs.State()) && file.LookupOk(ch)
    ensures cluster == if index < |ch| then ch[index] else LAST_CLUSTER
  {
    hide ChainOf, FatFs.State, Geometry.Ok, Clusters, Span, Link;
    assert |ch| >= 1 && ch[0] == file.start by { ChainParts(fs, file.start, ch); }
    if index == file.lastIndex {
      cluster := file.lastCluster;
    } else {
      var i: u32;
      if index != 0 && index == Wrap(file.lastIndex + 1) {
        i, cluster := file.lastIndex, file.lastCluster;
      } else {
        i, cluster := 0, file.start;
      }
      while i < index
        invariant i <= index && ChainOf(fs, file.start, ch) && fs.State() == old(fs.State()) && file.LookupOk(ch)
        invariant cluster == if i < |ch| then ch[i] else LAST_CLUSTER
      {
        cluster := NextInChain(fs, file.start, cluster, ch, i);
        i := i + 1;
      }
      ChainInTable(fs, file.start, ch);
      if cluster != LAST_CLUSTER {
        file.lastCluster, file.lastIndex := cluster, index;
      }
    }
    ChainInTable(fs, file.start, ch);
  }

  lemma ChainInTable(fs: FatFs, start: u32, ch: seq<u32>)
    requires ChainOf(fs, start, ch)
    ensures forall i :: 0 <= i < |ch| ==> ch[i] != LAST_CLUSTER
  {
    ChainParts(fs, start, ch);
  }

  /** The cluster lookup of _write_sectors: at the end of the chain, the last element before it. */
  method WriteLookup(fs: FatFs, file: OpenFile, index: u32, ghost ch: seq<u32>) returns (cluster: u32, last: u32)
    requires ChainOf(fs, file.start, ch) && file.LookupOk(ch) && index <= |ch| && index < UNSET
    modifies fs.table, fs.disk
    ensures ChainOf(fs, file.start, ch) && fs.State() == old(fs.State())
    ensures cluster == if index < |ch| then ch[index] else LAST_CLUSTER
    ensures index == |ch| ==> last == ch[|ch| - 1]
  {
    hide ChainOf, FatFs.State, Geometry.Ok, Clusters, Span, Link;
    assert |ch| >= 1 && ch[0] == file.start by { ChainParts(fs, file.start, ch); }
    last := LAST_CLUSTER;
    if index == file.lastIndex {
      cluster := file.lastCluster;
    } else {
      var i: u32;
      if index != 0 && index == Wrap(file.lastIndex + 1) {
        i, cluster := file.lastIndex, file.lastCluster;
      } else {
        i, cluster := 0, file.start;
      }
      while i < index
        invariant i <= index && ChainOf(fs, file.start, ch) && fs.State() == old(fs.State())
        invariant cluster == if i < |ch| then ch[i] else LAST_CLUSTER
        invariant i == |ch| ==> last == ch[|ch| - 1]
      {
        var next := NextInChain(fs, file.start, cluster, ch, i);
        last, cluster := cluster, next;
        i := i + 1;
        ChainInTable(fs, file.start, ch);
        if cluster == LAST_CLUSTER {
          break;
        }
      }
    }
  }

  // ----- runs of sectors

  /** n sectors of the chain from offset on, inside one cluster, are n sectors of the volume in a row. */
  lemma RunInCluster(g: Geometry, ch: seq<u32>, offset: nat, i: nat, k: nat, n: nat)
    requires g.Ok() && Clusters(g, ch) && offset < |Addrs(g, ch)| && i < |ch| && k + n <= g.sectorsPerCluster && n >= 1
    requires offset == i * g.sectorsPerCluster + k
    ensures offset + n <= |Addrs(g, ch)| && 0 <= Addrs(g, ch)[offset] && Addrs(g, ch)[offset] + n <= Span(g)
    ensures forall j :: offset <= j < offset + n ==> Addrs(g, ch)[j] == Addrs(g, ch)[offset] + (j - offset)
  {
    Arith.CellBelow(i, |ch|, k + n - 1, g.sectorsPerCluster);
    hide Geometry.Ok, Clusters, Addrs, Span;
    assert |Addrs(g, ch)| == |ch| * g.sectorsPerCluster by { AddrsLength(g, ch); }
    forall j | offset <= j < offset + n
      ensures Addrs(g, ch)[j] == g.Rel(ch[i], k + (j - offset)) && 0 <= Addrs(g, ch)[j] < Span(g)
    {
      var i', k' := AddrsIn(g, ch, j);
      Arith.CellUnique(i', k', i, k + (j - offset), g.sectorsPerCluster);
    }
    assert Addrs(g, ch)[offset + n - 1] == Addrs(g, ch)[offset] + (n - 1);
  }

  lemma AddrsLength(g: Geometry, ch: seq<u32>)
    ensures |Addrs(g, ch)| == |ch| * g.sectorsPerCluster
  {
  }

  lemma RunRead(data: seq<Sector>, addrs: seq<int>, offset: nat, n: nat)
    requires offset + n <= |addrs| && n >= 1 && 0 <= addrs[offset] && addrs[offset] + n <= |data|
    requires forall j :: offset <= j < offset + n ==> addrs[j] == addrs[offset] + (j - offset)
    ensures data[addrs[offset]..addrs[offset] + n] == Pick(data, addrs)[offset..offset + n]
  {
  }

  /** _read_sectors. */
  method ReadSectors(fs: FatFs, file: OpenFile, offset: u32, size: nat, ghost ch: seq<u32>, ghost secs: seq<Sector>)
    returns (n: nat, got: seq<Sector>)
    requires ChainOf(fs, file.start, ch) && file.LookupOk(ch) && secs == Pick(fs.State().data, Addrs(fs.geo, ch))
    requires offset <= |secs| && size >= 1 && offset < UNSET
    modifies file`lastIndex, file`lastCluster, fs.table, fs.disk
    ensures ChainOf(fs, file.start, ch) && fs.State() == old(fs.State()) && file.LookupOk(ch)
    ensures offset < |secs| ==> 1 <= n <= size && offset + n <= |secs| && got == secs[offset..offset + n]
    ensures offset == |secs| ==> n == 0
  {
    hide ChainOf, Geometry.Ok, Clusters, Span, Addrs, OpenFile.LookupOk, Pick, Geometry.Rel, Geometry.LbaOfCluster;
    ChainParts(fs, file.start, ch);
    var clusterIndex, sector := SplitOffset(fs.geo, offset, ch);
    SplitBelow(clusterIndex, sector, fs.geo.sectorsPerCluster, offset);
    var count := if sector + size > fs.geo.sectorsPerCluster then fs.geo.sectorsPerCluster - sector else size;
    var cluster := ReadLookup(fs, file, clusterIndex, ch);
    ChainInTable(fs, file.start, ch);
    if cluster == LAST_CLUSTER {
      return 0, [];
    }
    RunInCluster(fs.geo, ch, offset, clusterIndex, sector, count);
    RunRead(fs.data, Addrs(fs.geo, ch), offset, count);
    assert fs.Valid() by { ValidOf(fs, file.start, ch); }
    n, got := fs.ReadRun(fs.geo.LbaOfCluster(cluster) + sector, count);
  }

  lemma ValidOf(fs: FatFs, start: u32, ch: seq<u32>)
    requires ChainOf(fs, start, ch)
    ensures fs.Valid()
  {
  }

  lemma SplitBelow(i: nat, k: nat, w: nat, offset: nat)
    requires i * w + k == offset && w >= 1
    ensures i <= offset
  {
  }

  // ----- growth

  /** The chain of a file, and a volume in order around it. */
  ghost predicate FileOf(fs: FatFs, t: Tree, start: u32)
    reads fs, fs.table, fs.disk
  {
    Ready(fs, t) && start in t.chains && start !in t.list
  }

  lemma FileChain(fs: FatFs, t: Tree, start: u32)
    requires FileOf(fs, t, start)
    ensures ChainOf(fs, start, t.chains[start]) && Inv(fs.geo, fs.State(), t) && CurAt(fs.geo, fs.curAddress, t)
    ensures fs.Valid()
    ensures Wide(fs.geo)
  {
    hide FatFs.Valid, CurAt, Owned, SizesFit, Stocked, Referenced, NamesDiffer, Span;
    ChainClusters(fs.geo, fs.State().T, t.chains, start);
  }

  ghost predicate Wide(g: Geometry) { g.Ok() && g.fatType == FAT32 }

  /** The clusters AddFreeSpace links: as many as asked for, or all there are. */
  function FirstFree(g: Geometry, T: seq<u32>, n: nat): seq<u32> {
    if n <= |Free(g, T)| then Free(g, T)[..n] else Free(g, T)
  }

  lemma FirstFreeTakeable(g: Geometry, T: seq<u32>, n: nat)
    requires Wide(g) && Ample(g, T, n)
    ensures Takeable(g, T, FirstFree(g, T, n))
    ensures forall i :: 0 <= i < n && i < |Free(g, T)| ==> Linkable(g.fatType, Free(g, T)[i])
  {
    LimitLinkable(g);
    var m := |FirstFree(g, T, n)|;
    hide FreeIn;
    if Free(g, T) != [] {
      assert forall i :: 0 <= i < m ==> Free(g, T)[i] < g.Limit();
      FreeTakeable(g, T, m);
      assert Free(g, T)[..m] == FirstFree(g, T, n);
      forall i | 0 <= i < m ensures 2 <= Free(g, T)[i] {
        assert FirstFree(g, T, n)[i] == Free(g, T)[i];
      }
    }
  }

  lemma GrownIsAppended(ty: FatType, T: seq<u32>, U: seq<u32>, start: u32, add: seq<u32>)
    requires Grown(ty, T, U, start, add)
    ensures start < |T| && (forall i :: 0 <= i < |add| ==> add[i] < |T|) && U == Appended(ty, T, start, add)
  {
  }

  lemma DirsStay(g: Geometry, v: Volume, t: Tree, t': Tree, s: u32)
    requires Inv(g, v, t) && s !in t.list && t'.list == t.list
    requires (forall d :: d in t.chains && d != s ==> d in t'.chains && t'.chains[d] == t.chains[d])
    ensures DirsGrow(t, t') && g.sectorsPerCluster > 0
  {
    hide Owned, SizesFit, Stocked, Referenced, NamesDiffer;
    NoneEmpty(g, v.T, t.chains);
  }

  /** fatfs_add_free_space behind the last cluster of a file. */
  method GrowFile(fs: FatFs, start: u32, last: u32, clusters: nat, ghost t: Tree)
    returns (ok: bool, first: u32, ghost add: seq<u32>, ghost t': Tree)
    requires FileOf(fs, t, start) && t.chains[start] != [] && last == t.chains[start][|t.chains[start]| - 1]
    requires clusters >= 1 && Ample(fs.geo, fs.State().T, clusters)
    modifies fs.table, fs.disk
    ensures start in t'.chains && FileOf(fs, t', start)
    ensures FileGrown(fs.geo, old(fs.State()), t, fs.State(), t', start, add)
    ensures ok <==> clusters <= |Free(fs.geo, old(fs.State()).T)|
    ensures |add| <= |Free(fs.geo, old(fs.State()).T)| && add == Free(fs.geo, old(fs.State()).T)[..|add|]
    ensures add == FirstFree(fs.geo, old(fs.State()).T, clusters) && |add| <= clusters
    ensures ok ==> |add| == clusters && first == add[0]
    ensures !ok ==> Free(fs.geo, fs.State().T) == []
    ensures |add| <= |Free(fs.geo, old(fs.State()).T)|
    ensures Free(fs.geo, fs.State().T) == Free(fs.geo, old(fs.State()).T)[|add|..]
  {
    hide Inv, FatFs.Valid, CurAt, Free, Ample, Takeable, Linkable, DataChain, IsFree, Grown, Appended, DirsGrow;
    ghost var g, v := fs.geo, fs.State();
    FileChain(fs, t, start);
    FirstFreeTakeable(g, v.T, clusters);
    TailUsed(g, v.T, t.chains[start]);
    ok, first := AddFreeSpace(fs, last, clusters, Free(g, v.T));
    add := FirstFree(g, v.T, clusters);
    assert Free(g, v.T)[..|add|] == add;
    assert Free(g, v.T)[..if ok then clusters else |Free(g, v.T)|] == add;
    GrownIsAppended(g.fatType, v.T, fs.table.T, last, add);
    t' := t.(chains := t.chains[start := t.chains[start] + add]);
    FileGrownKeeps(g, v, t, fs.State(), t', start, add);
    DirsStay(g, v, t, t', start);
    CurKept(g, fs.curAddress, t, t');
  }

  // ----- writing

  /** The clusters a file of chain ch still lacks to have c of them. */
  function Lack(ch: seq<u32>, c: nat): nat { if c > |ch| then c - |ch| else 0 }

  /** What the file lacks can be handed out, as far as there is anything. */
  ghost predicate Supply(g: Geometry, T: seq<u32>, ch: seq<u32>, c: nat) { Ample(g, T, Lack(ch, c)) }

  ghost predicate Enough(g: Geometry, T: seq<u32>, ch: seq<u32>, c: nat) { Lack(ch, c) <= |Free(g, T)| }

  /** The chain grew by the first clusters on the list of free ones, or not at all. */
  ghost predicate Drew(g: Geometry, T: seq<u32>, ch: seq<u32>, U: seq<u32>, ch': seq<u32>) {
    && |ch| <= |ch'| <= |ch| + |Free(g, T)|
    && ch' == ch + Free(g, T)[..|ch'| - |ch|]
    && Free(g, U) == Free(g, T)[|ch'| - |ch|..]
  }

  lemma DrewTwice(g: Geometry, T: seq<u32>, ch: seq<u32>, U: seq<u32>, ch1: seq<u32>, V: seq<u32>, ch2: seq<u32>)
    requires Drew(g, T, ch, U, ch1) && Drew(g, U, ch1, V, ch2)
    ensures Drew(g, T, ch, V, ch2)
  {
    hide Free;
    var F, m, n := Free(g, T), |ch1| - |ch|, |ch2| - |ch1|;
    assert F[..m] + F[m..][..n] == F[..m + n] && F[m..][n..] == F[m + n..];
    assert ch + F[..m] + F[m..][..n] == ch + (F[..m] + F[m..][..n]);
  }

  lemma DrewNothing(g: Geometry, T: seq<u32>, ch: seq<u32>)
    ensures Drew(g, T, ch, T, ch)
  {
    hide Free;
    assert Free(g, T)[..0] == [] && Free(g, T)[0..] == Free(g, T);
  }

  /** What a file may have in the end does not change as it draws on the free clusters. */
  lemma EnoughStays(g: Geometry, T: seq<u32>, ch: seq<u32>, U: seq<u32>, ch': seq<u32>, c: nat)
    requires Drew(g, T, ch, U, ch')
    ensures Enough(g, U, ch', c) <==> Enough(g, T, ch, c)
  {
    hide Free;
  }

  /** The chain of one file got longer or stayed, and nothing but its sectors changed. */
  ghost predicate FileMoved(g: Geometry, v: Volume, t: Tree, w: Volume, t': Tree, s: u32) {
    && s in t.chains && s in t'.chains && t.chains[s] <= t'.chains[s] && t'.chains.Keys == t.chains.Keys
    && t'.list == t.list && t'.loose == t.loose && OthersKept(g, v, t, w, t', s) && Reaches(g, v, t, w, t')
    && Drew(g, v.T, t.chains[s], w.T, t'.chains[s])
  }

  lemma MovedTwice(g: Geometry, v: Volume, t: Tree, u: Volume, t1: Tree, w: Volume, t2: Tree, s: u32)
    requires FileMoved(g, v, t, u, t1, s) && FileMoved(g, u, t1, w, t2, s)
    ensures FileMoved(g, v, t, w, t2, s)
  {
    hide Pick, Addrs, Reaches, Drew;
    ReachesOn(g, v, t, u, t1, w, t2);
    DrewTwice(g, v.T, t.chains[s], u.T, t1.chains[s], w.T, t2.chains[s]);
  }

  /** How many clusters n sectors fill. */
  lemma Filling(n: nat, w: nat, q: nat)
    requires n >= 1 && w >= 1 && q == (n + w - 1) / w
    ensures q >= 1 && (q - 1) * w < n
  {
    Arith.CellOf(n + w - 1, w);
    Arith.DivBelow(n + w - 1, 1, w);
    assert q * w == (q - 1) * w + w;
  }

  /** Growth from the end of the chain stays within c clusters. */
  lemma WithinPlan(k: nat, q: nat, w: nat, n: nat, c: nat)
    requires w >= 1 && (q - 1) * w < n && k * w + n <= c * w && q >= 1
    ensures k + q <= c
  {
    assert k * w + (q - 1) * w == (k + (q - 1)) * w;
    Arith.MulOrder(c, k + (q - 1), w);
  }

  lemma SupplyAfter(g: Geometry, T: seq<u32>, U: seq<u32>, ch: seq<u32>, add: seq<u32>, c: nat)
    requires Supply(g, T, ch, c) && |add| <= |Free(g, T)| && Free(g, U) == Free(g, T)[|add|..] && |ch| + |add| <= c
    ensures Supply(g, U, ch + add, c)
    ensures Enough(g, T, ch, c) ==> Enough(g, U, ch + add, c)
  {
    hide Free;
    forall i | 0 <= i < Lack(ch + add, c) && i < |Free(g, U)| ensures Free(g, U)[i] < g.Limit() {
      assert Free(g, U)[i] == Free(g, T)[|add| + i];
    }
  }

  lemma SupplyAmple(g: Geometry, T: seq<u32>, ch: seq<u32>, c: nat, n: nat)
    requires Supply(g, T, ch, c) && |ch| + n <= c
    ensures Ample(g, T, n)
    ensures Enough(g, T, ch, c) ==> n <= |Free(g, T)|
  {
    hide Free;
  }

  /** Find the cluster to write to, and allocate more behind the end of the chain. */
  method ClusterToWrite(fs: FatFs, file: OpenFile, index: u32, count: nat, ghost t: Tree, ghost c: nat)
    returns (ok: bool, cluster: u32, ghost add: seq<u32>, ghost t': Tree)
    requires FileOf(fs, t, file.start) && file.LookupOk(t.chains[file.start]) && index <= |t.chains[file.start]|
    requires index < UNSET
    requires count >= 1 && Supply(fs.geo, fs.State().T, t.chains[file.start], c)
    requires fs.geo.sectorsPerCluster >= 1
    requires index == |t.chains[file.start]| ==>
              index * fs.geo.sectorsPerCluster + count <= c * fs.geo.sectorsPerCluster
    modifies file`lastIndex, file`lastCluster, fs.table, fs.disk
    ensures file.start in t'.chains && FileOf(fs, t', file.start) && file.LookupOk(t'.chains[file.start])
    ensures t'.chains[file.start] == t.chains[file.start] + add
    ensures FileMoved(fs.geo, old(fs.State()), t, fs.State(), t', file.start) && fs.State().data == old(fs.State()).data
    ensures Supply(fs.geo, fs.State().T, t'.chains[file.start], c)
    ensures Enough(fs.geo, old(fs.State()).T, t.chains[file.start], c) ==>
              ok && Enough(fs.geo, fs.State().T, t'.chains[file.start], c)
    ensures ok ==> index < |t'.chains[file.start]| && cluster == t'.chains[file.start][index]
    ensures add == [] || |t'.chains[file.start]| <= c
    ensures index < |t.chains[file.start]| ==> ok && add == []
    ensures index == |t.chains[file.start]| ==>
              (ok <==>
                 (count + fs.geo.sectorsPerCluster - 1) / fs.geo.sectorsPerCluster <= |Free(fs.geo, old(fs.State()).T)|)
    ensures !ok ==> Free(fs.geo, fs.State().T) == []
  {
    hide FatFs.Valid, Ready, Inv, ChainOf, Supply, Enough, FileMoved, FileGrown, Ample, Free, Geometry.Ok, FirstFree;
    hide OpenFile.LookupOk;
    ghost var g, v, ch := fs.geo, fs.State(), t.chains[file.start];
    FileOfParts(fs, t, file.start);
    add, t', ok := [], t, true;
    var last;
    cluster, last := WriteLookup(fs, file, index, ch);
    ValidOf(fs, file.start, ch);
    FileOfKept(fs, t, file.start);
    ChainInTable(fs, file.start, ch);
    if cluster == LAST_CLUSTER {
      var more := (count + fs.geo.sectorsPerCluster - 1) / fs.geo.sectorsPerCluster;
      Filling(count, fs.geo.sectorsPerCluster, more);
      WithinPlan(|ch|, more, fs.geo.sectorsPerCluster, count, c);
      SupplyAmple(g, v.T, ch, c, more);
      ok, cluster, add, t' := GrowFile(fs, file.start, last, more, t);
      GrownMoved(g, v, t, fs.State(), t', file.start, add);
      SupplyAfter(g, v.T, fs.State().T, ch, add, c);
      LookupLonger(file, ch, add);
      if !ok {
        return;
      }
    } else {
      StillMoved(g, v, t, file.start);
    }
    file.lastCluster, file.lastIndex := cluster, index;
    LookupSet(file, t'.chains[file.start]);
  }

  lemma FileOfParts(fs: FatFs, t: Tree, s: u32)
    requires FileOf(fs, t, s)
    ensures ChainOf(fs, s, t.chains[s]) && t.chains[s] != [] && fs.geo.sectorsPerCluster >= 1 && s in t.chains
    ensures s !in t.list
    ensures Inv(fs.geo, fs.State(), t) && CurAt(fs.geo, fs.curAddress, t) && fs.Valid()
  {
    hide FatFs.Valid, Inv, CurAt;
    FileChain(fs, t, s);
    Ordered(fs.geo, fs.State(), t);
  }

  lemma FileOfKept(fs: FatFs, t: Tree, s: u32)
    requires fs.Valid() && Inv(fs.geo, fs.State(), t) && CurAt(fs.geo, fs.curAddress, t) && s in t.chains
    requires s !in t.list
    ensures FileOf(fs, t, s)
  {
    hide FatFs.Valid, Inv, CurAt;
  }

  lemma GrownMoved(g: Geometry, v: Volume, t: Tree, w: Volume, t': Tree, s: u32, add: seq<u32>)
    requires Inv(g, v, t) && FileGrown(g, v, t, w, t', s, add)
    requires |add| <= |Free(g, v.T)| && add == Free(g, v.T)[..|add|] && Free(g, w.T) == Free(g, v.T)[|add|..]
    ensures FileMoved(g, v, t, w, t', s) && w.data == v.data && t'.chains[s] == t.chains[s] + add
  {
    hide Inv, Takeable, Appended, Pick, Addrs, Reaches, Free;
    StepFrame(g, v, t, w, t', Grow(s, add));
    ReachesStep(g, v, t, w, t', Grow(s, add));
  }

  lemma StillMoved(g: Geometry, v: Volume, t: Tree, s: u32)
    requires s in t.chains
    ensures FileMoved(g, v, t, v, t, s) && t.chains[s] == t.chains[s] + []
  {
    hide Pick, Addrs, Reaches, Drew;
    ReachesSelf(g, v, t);
    DrewNothing(g, v.T, t.chains[s]);
  }

  lemma LookupLonger(file: OpenFile, ch: seq<u32>, add: seq<u32>)
    requires file.LookupOk(ch)
    ensures file.LookupOk(ch + add)
  {
  }

  lemma LookupSet(file: OpenFile, ch: seq<u32>)
    requires file.lastIndex < |ch| && file.lastCluster == ch[file.lastIndex]
    ensures file.LookupOk(ch)
  {
  }

  /** The sectors of the file's chain. */
  function SectorsOf(g: Geometry, data: seq<Sector>, ch: seq<u32>): (r: seq<Sector>)
    ensures |r| == |Addrs(g, ch)|
  {
    Pick(data, Addrs(g, ch))
  }

  /** A run of sectors laid over consecutive places of the chain. */
  lemma RunWritten(data: seq<Sector>, addrs: seq<int>, offset: nat, run: seq<Sector>)
    requires Proper(addrs, |data|) && |run| >= 1 && offset + |run| <= |addrs| && addrs[offset] + |run| <= |data|
    requires forall j :: offset <= j < offset + |run| ==> addrs[j] == addrs[offset] + (j - offset)
    ensures 0 <= addrs[offset]
    ensures WroteAt(Pick(data, addrs), Pick(Over(data, addrs[offset], run), addrs), offset, run)
    ensures OnlyAt(data, Over(data, addrs[offset], run), addrs)
  {
    var a := addrs[offset];
    forall j | 0 <= j < |addrs| && !(offset <= j < offset + |run|) ensures !(a <= addrs[j] < a + |run|) {
      if a <= addrs[j] < a + |run| {
        RunPlaces(addrs, |data|, j, offset + (addrs[j] - a));
      }
    }
    forall k | a <= k < a + |run| ensures k in addrs {
      assert addrs[offset + (k - a)] == k;
    }
  }

  lemma RunPlaces(addrs: seq<int>, size: nat, j: nat, k: nat)
    requires Proper(addrs, size) && j < |addrs| && k < |addrs|
    ensures addrs[j] == addrs[k] ==> j == k
  {
  }

  lemma WroteLonger(secs: seq<Sector>, more: seq<Sector>, secs': seq<Sector>, x: nat, run: seq<Sector>)
    requires WroteAt(secs + more, secs', x, run) && x <= |secs|
    ensures WroteAt(secs, secs', x, run)
  {
    forall j | 0 <= j < |secs| && !(x <= j < x + |run|) ensures secs'[j] == secs[j] {
      assert (secs + more)[j] == secs[j];
    }
  }

  lemma SectorsLonger(g: Geometry, data: seq<Sector>, ch: seq<u32>, add: seq<u32>)
    requires g.sectorsPerCluster > 0
    ensures SectorsOf(g, data, ch + add) == SectorsOf(g, data, ch) + SectorsOf(g, data, add)
  {
    AddrsAppend(g, ch, add);
    hide Addrs;
    DirWrite.PickAppend(data, Addrs(g, ch), Addrs(g, add));
  }

  lemma WroteNothing(secs: seq<Sector>, more: seq<Sector>)
    ensures WroteAt(secs, secs + more, |secs|, [])
  {
  }

  /** The run keeps clear of the current sector. */
  lemma RunClear(fs: FatFs, t: Tree, s: u32, offset: nat, n: nat)
    requires FileOf(fs, t, s) && n >= 1 && offset + n <= |Addrs(fs.geo, t.chains[s])|
    requires forall j :: offset <= j < offset + n ==>
            Addrs(fs.geo, t.chains[s])[j] == Addrs(fs.geo, t.chains[s])[offset] + (j - offset)
    ensures var lba := fs.geo.clusterBegin + Addrs(fs.geo, t.chains[s])[offset];
      fs.curAddress == INVALID_CLUSTER || fs.curAddress < lba || lba + n <= fs.curAddress
  {
    hide FatFs.Valid, Inv, CurAt, Addrs, Span;
    LengthOfData(fs);
    FileOfParts(fs, t, s);
    var lba := fs.geo.clusterBegin + Addrs(fs.geo, t.chains[s])[offset];
    if lba <= fs.curAddress < lba + n {
      CurElsewhere(fs.geo, fs.State(), t, fs.curAddress, s, offset + (fs.curAddress - lba));
    }
  }

  lemma ChainProper(g: Geometry, ch: seq<u32>, size: nat)
    requires g.Ok() && Clusters(g, ch) && ch != [] && Span(g) <= size
    ensures Proper(Addrs(g, ch), size)
  {
    hide Geometry.Ok, Clusters, Span, Addrs, Proper;
    DirAddrsProper(g, ch, size);
  }

  /** Transfer a run to sectors of one cluster of the file. */
  method PutRun(fs: FatFs, start: u32, cluster: u32, sector: nat, run: seq<Sector>, ghost offset: nat, ghost index: nat,
      ghost t: Tree)
    returns (n: nat)
    requires FileOf(fs, t, start) && index < |t.chains[start]| && cluster == t.chains[start][index]
    requires |run| >= 1 && sector + |run| <= fs.geo.sectorsPerCluster
    requires offset == index * fs.geo.sectorsPerCluster + sector
    modifies fs`data, fs.disk
    ensures n == |run| && FileOf(fs, t, start) && FileMoved(fs.geo, old(fs.State()), t, fs.State(), t, start)
    ensures fs.State().T == old(fs.State()).T
    ensures WroteAt(SectorsOf(fs.geo, old(fs.State()).data, t.chains[start]),
            SectorsOf(fs.geo, fs.State().data, t.chains[start]), offset, run)
  {
    hide FatFs.Valid, Ready, Inv, CurAt, ChainOf, Clusters, FileMoved, Geometry.Ok, Addrs, Span, Proper, WroteAt;
    hide OnlyAt, Pick, Geometry.LbaOfCluster;
    ghost var g, v, ch := fs.geo, fs.State(), t.chains[start];
    FileOfParts(fs, t, start);
    ChainParts(fs, start, ch);
    PlaceOf(g, ch, offset, index, sector, |run|);
    ChainProper(g, ch, |fs.data|);
    RunClear(fs, t, start, offset, |run|);
    RunWritten(fs.data, Addrs(g, ch), offset, run);
    LengthOfData(fs);
    n := fs.WriteRun(fs.geo.LbaOfCluster(cluster) + sector, run);
    WrittenMoved(g, v, t, fs.State(), start);
    FileOfKept(fs, t, start);
  }

  lemma PlaceOf(g: Geometry, ch: seq<u32>, offset: nat, index: nat, sector: nat, n: nat)
    requires g.Ok() && Clusters(g, ch) && index < |ch| && n >= 1 && sector + n <= g.sectorsPerCluster
    requires offset == index * g.sectorsPerCluster + sector
    ensures offset + n <= |Addrs(g, ch)| && 0 <= Addrs(g, ch)[offset] && Addrs(g, ch)[offset] + n <= Span(g)
    ensures forall j :: offset <= j < offset + n ==> Addrs(g, ch)[j] == Addrs(g, ch)[offset] + (j - offset)
    ensures g.LbaOfCluster(ch[index]) + sector == g.clusterBegin + Addrs(g, ch)[offset]
  {
    Arith.CellBelow(index, |ch|, sector, g.sectorsPerCluster);
    hide Geometry.Ok, Clusters, Addrs, Span, Geometry.LbaOfCluster, Geometry.Rel;
    AddrsLength(g, ch);
    RunInCluster(g, ch, offset, index, sector, n);
    var i, k := AddrsIn(g, ch, offset);
    Arith.CellUnique(i, k, index, sector, g.sectorsPerCluster);
  }

  lemma WrittenMoved(g: Geometry, v: Volume, t: Tree, w: Volume, s: u32)
    requires Inv(g, v, t) && FileWritten(g, v, t, w, t, s)
    ensures FileMoved(g, v, t, w, t, s) && Inv(g, w, t)
  {
    hide Inv, OnlyAt, Addrs, Pick, Reaches, Drew;
    DrewNothing(g, v.T, t.chains[s]);
    FileWrittenKeeps(g, v, t, w, t, s);
    StepFrame(g, v, t, w, t, Write(s));
    ReachesStep(g, v, t, w, t, Write(s));
  }

  /** An open file of the volume: its chain, its recorded lookup, and the plan for c clusters. */
  ghost predicate Writable(fs: FatFs, file: OpenFile, t: Tree, c: nat)
    reads fs, fs.table, fs.disk, file`lastIndex, file`lastCluster
  {
    && FileOf(fs, t, file.start) && file.LookupOk(t.chains[file.start])
    && Supply(fs.geo, fs.State().T, t.chains[file.start], c)
  }

  /** _write_sectors of the run buf at sector offset; c clusters are planned for. */
  method WriteSectors(fs: FatFs, file: OpenFile, offset: u32, buf: seq<Sector>, ghost t: Tree, ghost c: nat,
      ghost v: Volume)
    returns (n: nat, ghost t': Tree)
    requires Writable(fs, file, t, c) && fs.State() == v && file.start in t.chains
    requires offset <= |SectorsOf(fs.geo, v.data, t.chains[file.start])| && |buf| >= 1 && offset < UNSET
    requires fs.geo.sectorsPerCluster >= 1 && offset + |buf| <= c * fs.geo.sectorsPerCluster
    modifies file`lastIndex, file`lastCluster, fs`data, fs.table, fs.disk
    ensures file.start in t'.chains && Writable(fs, file, t', c) && FileMoved(fs.geo, v, t, fs.State(), t', file.start)
    ensures t'.chains[file.start] == t.chains[file.start] || |t'.chains[file.start]| <= c
    ensures n <= |buf|
    ensures WroteAt(SectorsOf(fs.geo, v.data, t.chains[file.start]),
            SectorsOf(fs.geo, fs.State().data, t'.chains[file.start]), offset, buf[..n])
    ensures Enough(fs.geo, v.T, t.chains[file.start], c) ==>
              n >= 1 && Enough(fs.geo, fs.State().T, t'.chains[file.start], c)
    ensures offset < |SectorsOf(fs.geo, v.data, t.chains[file.start])| ==>
              n >= 1 && t'.chains[file.start] == t.chains[file.start]
    ensures offset == |SectorsOf(fs.geo, v.data, t.chains[file.start])| ==>
              (n >= 1 <==> (|buf| + fs.geo.sectorsPerCluster - 1) / fs.geo.sectorsPerCluster <= |Free(fs.geo, v.T)|)
    ensures n == 0 ==> Free(fs.geo, fs.State().T) == []
  {
    hide FatFs.Valid, Ready, Inv, ChainOf, Supply, Enough, FileMoved, Free, Geometry.Ok, OpenFile.LookupOk, WroteAt;
    hide Addrs, SectorsOf, Geometry.Rel, Geometry.LbaOfCluster;
    ghost var g, ch := fs.geo, t.chains[file.start];
    FileOfParts(fs, t, file.start);
    ChainParts(fs, file.start, ch);
    SectorsLength(g, v.data, ch);
    var index, sector := SplitOffset(fs.geo, offset, ch);
    SplitBelow(index, sector, fs.geo.sectorsPerCluster, offset);
    EndOfChain(index, sector, fs.geo.sectorsPerCluster, |ch|);
    var count := if sector + |buf| > fs.geo.sectorsPerCluster then fs.geo.sectorsPerCluster - sector else |buf|;
    var ok: bool, cluster: u32;
    ghost var add;
    ok, cluster, add, t' := ClusterToWrite(fs, file, index, |buf|, t, c);
    ghost var u := fs.State();
    SectorsLonger(g, v.data, ch, add);
    if !ok {
      n := 0;
      WroteNothing(SectorsOf(g, v.data, ch), SectorsOf(g, v.data, add));
      return;
    }
    n := PutRun(fs, file.start, cluster, sector, buf[..count], offset, index, t');
    MovedTwice(g, v, t, u, t', fs.State(), t', file.start);
    WroteLonger(SectorsOf(g, v.data, ch), SectorsOf(g, v.data, add),
      SectorsOf(g, fs.State().data, t'.chains[file.start]), offset, buf[..count]);
  }

  lemma SectorsLength(g: Geometry, data: seq<Sector>, ch: seq<u32>)
    ensures |SectorsOf(g, data, ch)| == |Addrs(g, ch)| == |ch| * g.sectorsPerCluster
  {
  }

  lemma EndOfChain(index: nat, sector: nat, w: nat, n: nat)
    requires index <= n && sector < w && index * w + sector <= n * w
    ensures index == n ==> sector == 0
  {
  }
}
