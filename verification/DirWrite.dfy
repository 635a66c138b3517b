/** Adding an entry to a directory: the search for room, growth by a cluster, and the writes. */
module DirWrite {
  import opened Words
  import opened Layout
  import opened Chains
  import opened Contents
  import opened LongNames
  import opened Directories
  import opened Access
  import opened DirScan
  import opened Allocation

  // ----- the search for room

  /** No row of n usable slots ends before k. */
  ghost predicate NoRoom(slots: seq<Slot>, n: nat, k: nat) {
    forall a: nat, e: nat :: Room(slots, a, n, e) ==> e >= k
  }

  /** Slot at is the leftmost of the usable slots it belongs to. */
  ghost predicate Leftmost(slots: seq<Slot>, at: nat) { 0 < at <= |slots| ==> IsOccupied(slots[at - 1]) }

  /** The first row of n usable slots: none ends before it, and it begins as far left as it can. */
  ghost predicate FirstRoom(slots: seq<Slot>, at: nat, n: nat, end: nat) {
    Room(slots, at, n, end) && NoRoom(slots, n, end) && Leftmost(slots, at)
  }

  /** The search variables after slot k: the last possible slots are usable and start at start. */
  ghost predicate Tracking(slots: seq<Slot>, n: nat, k: nat, possible: nat, start: nat) {
    && possible <= k <= |slots|
    && (possible > 0 ==> start == k - possible)
    && (forall j :: k - possible <= j < k ==> !IsOccupied(slots[j]))
    && (possible < k ==> IsOccupied(slots[k - possible - 1]))
    && NoRoom(slots, n, k)
  }

  lemma TrackLong(slots: seq<Slot>, n: nat, k: nat, possible: nat, start: nat)
    requires Tracking(slots, n, k, possible, start) && k < |slots| && IsLongText(slots[k])
    ensures Tracking(slots, n, k + 1, possible + 1, if possible == 0 then k else start)
  {
    hide IsLongText, IsOccupied;
    assert !IsOccupied(slots[k]) by { LongNotOccupied(slots[k]); }
    forall a: nat, e: nat | Room(slots, a, n, e) ensures e >= k + 1 {
      assert e != k;
    }
  }

  lemma LongNotOccupied(s: Slot)
    requires IsLongText(s)
    ensures !IsOccupied(s)
  {
  }

  lemma TrackOccupied(slots: seq<Slot>, n: nat, k: nat, possible: nat, start: nat)
    requires Tracking(slots, n, k, possible, start) && k < |slots| && IsOccupied(slots[k])
    ensures Tracking(slots, n, k + 1, 0, start)
  {
    hide IsLongText, IsOccupied;
    forall a: nat, e: nat | Room(slots, a, n, e) ensures e >= k + 1 {
      assert e != k;
    }
  }

  lemma TrackUsable(slots: seq<Slot>, n: nat, k: nat, possible: nat, start: nat)
    requires Tracking(slots, n, k, possible, start) && k < |slots| && n >= 1
    requires !IsOccupied(slots[k]) && !IsLongText(slots[k])
    ensures possible + 1 >= n ==> FirstRoom(slots, if possible == 0 then k else start, n, k)
    ensures possible + 1 < n ==> Tracking(slots, n, k + 1, possible + 1, if possible == 0 then k else start)
  {
    if possible < k {
      OccupiedNotLong(slots[k - possible - 1]);
    }
    hide IsLongText, IsOccupied;
    if possible + 1 < n {
      forall a: nat, e: nat | Room(slots, a, n, e) ensures e >= k + 1 {
        if e == k && possible < k {
          assert a >= k - possible;
        }
      }
    }
  }

  lemma OccupiedNotLong(s: Slot)
    requires IsOccupied(s)
    ensures !IsLongText(s)
  {
  }

  type Offset = i: nat | i < 16

  datatype Search = Search(found: bool, possible: nat, started: bool, pSector: nat, pOffset: Offset) {
    function At(): nat { 16 * pSector + pOffset }
  }

  function NoSearch(): Search { Search(false, 0, false, 0, 0) }

  /** Where the search stands before slot k; once it has found room, the room ends at slot end. */
  ghost predicate Searching(slots: seq<Slot>, n: nat, k: nat, s: Search, end: nat) {
    if s.found then FirstRoom(slots, s.At(), n, end)
    else Tracking(slots, n, k, s.possible, s.At()) && (s.started <==> s.possible > 0)
  }

  /** The loop of fatfs_find_free_dir_offset over the entries of one sector, the x-th. */
  method RoomInSector(sector: Sector, n: nat, x: nat, s0: Search, ghost end0: nat, ghost slots: seq<Slot>)
    returns (s: Search, ghost end: nat)
    requires n >= 1 && 16 * x + 16 <= |slots| && forall j :: 0 <= j < 16 ==> slots[16 * x + j] == SlotOf(sector, j)
    requires Searching(slots, n, 16 * x, s0, end0) && !s0.found
    ensures Searching(slots, n, 16 * x + 16, s, end)
    ensures !s.found ==> Tracking(slots, n, 16 * x + 16, s.possible, s.At()) && (s.started <==> s.possible > 0)
  {
    hide Tracking, FirstRoom, SlotOf;
    s, end := s0, end0;
    var item := 0;
    while item < 16 && !s.found
      invariant item <= 16 && Searching(slots, n, 16 * x + item, s, end)
      decreases 16 - item, !s.found
    {
      var slot := SlotOf(sector, item);
      ghost var k := 16 * x + item;
      var here := if s.possible == 0 then s.(pSector := x, pOffset := item, started := true) else s;
      if IsLongText(slot) {
        TrackLong(slots, n, k, s.possible, s.At());
        s := here.(possible := s.possible + 1);
      } else if slot[0] == 0xE5 || slot[0] == 0 {
        TrackUsable(slots, n, k, s.possible, s.At());
        s := here.(possible := s.possible + 1);
        if s.possible >= n {
          s, end := s.(found := true), k;
        }
      } else {
        TrackOccupied(slots, n, k, s.possible, s.At());
        s := s.(possible := 0, started := false);
      }
      item := item + 1;
    }
  }

  /** The loop of fatfs_find_free_dir_offset over the sectors of the directory, whose slots are given. */
  method SearchRoom(fs: FatFs, dirCluster: u32, n: nat, ghost v: Volume, ghost dir: seq<u32>, ghost slots: seq<Slot>)
    returns (s: Search, x: nat, ghost end: nat)
    requires fs.Valid() && fs.State() == v && DirChain(fs.geo, v.T, dirCluster, dir) && n >= 1
    requires slots == DirSlots(fs.geo, v.data, dir)
    modifies fs, fs.table, fs.disk
    ensures fs.Valid() && fs.State() == v
    ensures Searching(slots, n, 16 * x, s, end) && (!s.found ==> 16 * x == |slots|)
    ensures if x == 0 then fs.curAddress == old(fs.curAddress) else fs.Window(dir, x - 1)
  {
    hide NoSearch, FatFs.Valid, FatFs.State, DirAddrs, DirChain, Searching, DirSlots, FatFs.Window;
    s, x, end := NoSearch(), 0, 0;
    SearchStart(slots, n);
    var ok := true;
    while ok && !s.found
      invariant fs.Valid() && fs.State() == v
      invariant 16 * x <= |slots| && Searching(slots, n, 16 * x, s, end) && (!ok ==> 16 * x == |slots|)
      invariant if x == 0 then fs.curAddress == old(fs.curAddress) else fs.Window(dir, x - 1)
      decreases |slots| - 16 * x, ok, !s.found
    {
      ok, s, end := SearchStep(fs, dirCluster, n, s, x, end, v, dir, slots);
      x := if ok then x + 1 else x;
    }
  }

  lemma SearchStart(slots: seq<Slot>, n: nat)
    ensures Searching(slots, n, 0, NoSearch(), 0)
  {
  }

  method SearchStep(fs: FatFs, dirCluster: u32, n: nat, s0: Search, x: nat, ghost end0: nat, ghost v: Volume,
      ghost dir: seq<u32>, ghost slots: seq<Slot>)
    returns (ok: bool, s: Search, ghost end: nat)
    requires fs.Valid() && fs.State() == v && DirChain(fs.geo, v.T, dirCluster, dir) && n >= 1
    requires slots == DirSlots(fs.geo, v.data, dir) && 16 * x <= |slots| && !s0.found
    requires Searching(slots, n, 16 * x, s0, end0)
    modifies fs, fs.table, fs.disk
    ensures fs.Valid() && fs.State() == v
    ensures if ok then 16 * x + 16 <= |slots| else 16 * x == |slots|
    ensures !ok ==> s == s0 && end == end0 && fs.curAddress == old(fs.curAddress)
    ensures ok ==> Searching(slots, n, 16 * x + 16, s, end) && fs.Window(dir, x)
  {
    ghost var secs := Pick(v.data, DirAddrs(fs.geo, dir));
    hide FatFs.Valid, DirAddrs, DirChain, Searching, Pick, SlotOf, FatFs.Window;
    s, end := s0, end0;
    ok := fs.SectorReader(dirCluster, x, dir);
    if ok {
      SlotsOf(secs, x);
      s, end := RoomInSector(fs.current, n, x, s0, end0, slots);
    }
  }

  lemma SlotsOf(secs: seq<Sector>, x: nat)
    requires x < |secs|
    ensures forall j :: 0 <= j < 16 ==> Slots(secs)[16 * x + j] == SlotOf(secs[x], j)
  {
    hide SlotOf;
    forall j | 0 <= j < 16 ensures Slots(secs)[16 * x + j] == SlotOf(secs[x], j) {
      assert (16 * x + j) / 16 == x && (16 * x + j) % 16 == j;
    }
  }

  // ----- growth

  /** From v to w the sectors of cluster c are zeroed, and nothing else changes. */
  ghost predicate Erased(g: Geometry, v: Volume, w: Volume, c: u32) {
    && w.T == v.T
    && OnlyAt(v.data, w.data, Addrs(g, [c]))
    && forall i :: 0 <= i < |Addrs(g, [c])| ==> Pick(w.data, Addrs(g, [c]))[i] == Blank()
  }

  /** The first i sectors are done. */
  ghost predicate ErasedTo(g: Geometry, v: Volume, w: Volume, c: u32, i: nat) {
    && w.T == v.T
    && OnlyAt(v.data, w.data, Addrs(g, [c]))
    && forall s :: 0 <= s < i && s < |Addrs(g, [c])| ==>
         0 <= Addrs(g, [c])[s] < |w.data| && w.data[Addrs(g, [c])[s]] == Blank()
  }

  lemma ErasedMore(g: Geometry, v: Volume, w: Volume, c: u32, i: nat)
    requires g.Ok() && 2 <= c < g.Limit() && ErasedTo(g, v, w, c, i) && i < |Addrs(g, [c])| && Span(g) <= |w.data|
    ensures 0 <= Addrs(g, [c])[i] < |w.data|
    ensures ErasedTo(g, v, w.(data := w.data[Addrs(g, [c])[i] := Blank()]), c, i + 1)
  {
    AddrsOne(g, c);
    hide Geometry.Ok, Geometry.LbaOfCluster, Geometry.Rel, Addrs, Span;
    assert Addrs(g, [c])[i] in Addrs(g, [c]);
  }

  /** Zeroing a cluster through the current sector, as fatfs_find_free_dir_offset does. */
  method EraseThroughCurrent(fs: FatFs, c: u32)
    requires fs.Valid() && 2 <= c < fs.geo.Limit()
    modifies fs, fs.disk
    ensures fs.Valid() && Erased(fs.geo, old(fs.State()), fs.State(), c)
    ensures fs.CurrentIn([c])
  {
    ghost var g, v, addrs := fs.geo, fs.State(), Addrs(fs.geo, [c]);
    AddrsOne(g, c);
    assert Span(g) <= |v.data| && g.sectorsPerCluster >= 1 && g.Ok();
    assert ErasedTo(g, v, v, c, 0);
    hide Geometry.Ok, Geometry.LbaOfCluster, Geometry.Rel, Addrs, Span, ErasedTo, Erased, FatFs.Attached, FatFs.State;
    fs.current := Blank();
    for i := 0 to fs.geo.sectorsPerCluster
      invariant fs.Attached() && fs.current == Blank()
      invariant |fs.data| == |v.data| && ErasedTo(g, v, fs.State(), c, i)
      invariant i > 0 ==> fs.Coherent() && fs.curAddress == g.clusterBegin + addrs[i - 1]
    {
      ErasedMore(g, v, fs.State(), c, i);
      EraseSector(fs, c, i);
    }
    ErasedAll(g, v, fs.State(), c);
    assert fs.Window([c], |addrs| - 1);
  }

  /** fatfs_write_sector with no target. */
  method EraseSector(fs: FatFs, c: u32, i: nat)
    requires fs.Attached() && 2 <= c < fs.geo.Limit() && i < fs.geo.sectorsPerCluster && i < |Addrs(fs.geo, [c])|
    modifies fs`curAddress, fs`data, fs.disk
    ensures fs.Attached() && fs.Coherent() && fs.curAddress == fs.geo.clusterBegin + Addrs(fs.geo, [c])[i]
    ensures 0 <= Addrs(fs.geo, [c])[i] < |old(fs.data)|
    ensures fs.table.T == old(fs.table.T) && fs.data == old(fs.data)[Addrs(fs.geo, [c])[i] := fs.current]
  {
    AddrsOne(fs.geo, c);
    assert fs.geo.clusterBegin + Addrs(fs.geo, [c])[i] < |fs.disk.sectors| < 0x1_0000_0000;
    hide Geometry.Ok, Geometry.LbaOfCluster, Geometry.Rel, Addrs, Span;
    fs.curAddress := fs.geo.LbaOfCluster(c) + i;
    var ok := fs.WriteCurrent();
  }

  lemma ErasedAll(g: Geometry, v: Volume, w: Volume, c: u32)
    requires ErasedTo(g, v, w, c, |Addrs(g, [c])|)
    ensures Erased(g, v, w, c)
  {
  }

  /** The directory after one more cluster, whose sectors are blank, is linked behind its last. */
  ghost predicate Lengthened(g: Geometry, v: Volume, w: Volume, dir: seq<u32>, c: u32) {
    && dir != [] && dir[|dir| - 1] < |v.T| && c < |v.T|
    && w.T == Appended(g.fatType, v.T, dir[|dir| - 1], [c])
    && OnlyAt(v.data, w.data, Addrs(g, [c]))
    && DirSlots(g, w.data, dir + [c]) == DirSlots(g, v.data, dir) + BlankSlots(16 * g.sectorsPerCluster)
  }

  function BlankSlots(n: nat): (r: seq<Slot>)
    ensures |r| == n && forall i :: 0 <= i < n ==> r[i] == BlankSlot()
  {
    seq(n, _ => BlankSlot())
  }

  function BlankSlot(): Slot { seq(32, _ => 0) }

  lemma BlankSector(secs: seq<Sector>)
    requires forall i :: 0 <= i < |secs| ==> secs[i] == Blank()
    ensures Slots(secs) == BlankSlots(16 * |secs|)
  {
    forall i | 0 <= i < 16 ensures SlotOf(Blank(), i) == BlankSlot() {
    }
    hide SlotOf, Blank, BlankSlot;
  }

  lemma SlotsAppend(a: seq<Sector>, b: seq<Sector>)
    ensures Slots(a + b) == Slots(a) + Slots(b)
  {
    hide SlotOf;
    forall k | 0 <= k < 16 * |a + b| ensures Slots(a + b)[k] == (Slots(a) + Slots(b))[k] {
      if k >= 16 * |a| {
        assert (k - 16 * |a|) / 16 == k / 16 - |a|;
      }
    }
  }

  /** Sectors elsewhere do not matter. */
  lemma PickElsewhere(before: seq<Sector>, after: seq<Sector>, addrs: seq<int>, changed: seq<int>)
    requires OnlyAt(before, after, changed)
    requires forall i, j :: 0 <= i < |addrs| && 0 <= j < |changed| ==> addrs[i] != changed[j]
    ensures Pick(after, addrs) == Pick(before, addrs)
  {
  }

  lemma PickAppend(data: seq<Sector>, a: seq<int>, b: seq<int>)
    ensures Pick(data, a + b) == Pick(data, a) + Pick(data, b)
  {
  }

  /** A cluster that is free is in no chain. */
  lemma FreeNotInChain(ty: FatType, T: seq<u32>, ch: seq<u32>, c: u32)
    requires IsChain(ty, T, ch) && c < |T| && IsFree(ty, T, c)
    ensures c !in ch
  {
    forall i | 0 <= i < |ch| ensures ch[i] != c {
      assert i < |ch| - 1 ==> Link(ty, T[ch[i]]) == ch[i + 1];
    }
  }

  /** The new cluster is used and blank, the old ones are as they were. */
  lemma LengthenedBy(g: Geometry, v: Volume, w: Volume, dir: seq<u32>, c: u32)
    requires g.Ok() && dir != [] && DataChain(g, v.T, dir) && 2 <= c < g.Limit() && c < |v.T| && c !in dir
    requires w.T == Appended(g.fatType, v.T, dir[|dir| - 1], [c])
    requires Erased(g, v.(T := w.T), w, c)
    ensures Lengthened(g, v, w, dir, c) && DataChain(g, w.T, dir + [c])
  {
    assert g.sectorsPerCluster >= 1 && Clusters(g, dir) && Clusters(g, [c]) && Disjoint(dir, [c]);
    AppendedOne(g.fatType, v.T, dir[|dir| - 1], c);
    assert Linkable(g.fatType, c);
    ChainGrows(g.fatType, v.T, dir, c);
    hide Geometry.Ok, IsChain, Clusters, Disjoint, Addrs, Appended, Slots, BlankSlots;
    AddrsAppend(g, dir, [c]);
    PickAppend(w.data, Addrs(g, dir), Addrs(g, [c]));
    forall i, j | 0 <= i < |Addrs(g, dir)| && 0 <= j < |Addrs(g, [c])| ensures Addrs(g, dir)[i] != Addrs(g, [c])[j] {
      AddrsDisjoint(g, dir, [c], i, j);
    }
    PickElsewhere(v.data, w.data, Addrs(g, dir), Addrs(g, [c]));
    SlotsAppend(Pick(v.data, Addrs(g, dir)), Pick(w.data, Addrs(g, [c])));
    BlankSector(Pick(w.data, Addrs(g, [c])));
    assert |Addrs(g, [c])| == 1 * g.sectorsPerCluster == g.sectorsPerCluster;
  }

  /** The branch of fatfs_find_free_dir_offset that allocates another cluster. */
  method GrowDirectory(fs: FatFs, dirCluster: u32, ghost v: Volume, ghost dir: seq<u32>)
    returns (ok: bool, ghost c: u32)
    requires fs.Valid() && fs.State() == v && dir != [] && DirChain(fs.geo, v.T, dirCluster, dir)
    requires Usable(fs.geo, v.T)
    modifies fs, fs.table, fs.disk
    ensures fs.Valid()
    ensures ok <==> Free(fs.geo, v.T) != []
    ensures !ok ==> fs.State() == v && fs.curAddress == old(fs.curAddress)
    ensures ok ==> c == Free(fs.geo, v.T)[0] && c !in dir && Lengthened(fs.geo, v, fs.State(), dir, c)
    ensures ok ==> DirChain(fs.geo, fs.State().T, dirCluster, dir + [c]) && fs.CurrentIn([c])
  {
    hide FatFs.Valid, Geometry.Ok, IsChain, Link, IsFree, Lengthened, Erased, Appended, FatFs.Coherent;
    c := 0;
    var newCluster;
    ok, newCluster := FindFree(fs);
    if ok {
      c := newCluster;
      FreeNotInChain(fs.geo.fatType, v.T, dir, c);
      fs.AddClusterToChain(dirCluster, newCluster, dir);
      EraseThroughCurrent(fs, newCluster);
      assert fs.geo.Ok() by { GeoOk(fs); }
      LengthenedBy(fs.geo, v, fs.State(), dir, c);
    }
  }

  lemma GeoOk(fs: FatFs)
    requires fs.Valid()
    ensures fs.geo.Ok()
  {
  }
}
