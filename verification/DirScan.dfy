/** The scans over a directory: lookup by name, by short name, and the updates of one record. */
module DirScan {
  import opened Words
  import opened Layout
  import opened Contents
  import opened FatStrings
  import opened LongNames
  import opened Directories
  import opened Access

  /** The slots of a directory. */
  function DirSlots(g: Geometry, data: seq<Sector>, dir: seq<u32>): seq<Slot> {
    Slots(Pick(data, DirAddrs(g, dir)))
  }

  /** Slot k is the first live slot with this short name, or there is none and k is past the end. */
  ghost predicate FirstShort(slots: seq<Slot>, short: seq<byte>, k: nat)
    requires |short| == 11
  {
    && k <= |slots|
    && (k < |slots| ==> IsLive(slots[k]) && SameShortName(slots[k], short))
    && NoShort(slots, short, k)
  }

  ghost predicate NoShort(slots: seq<Slot>, short: seq<byte>, k: nat)
    requires |short| == 11
  {
    forall j :: 0 <= j < k && j < |slots| && IsLive(slots[j]) ==> !SameShortName(slots[j], short)
  }

  predicate Matches(slot: Slot, short: seq<byte>)
    requires |short| == 11
  {
    IsLive(slot) && SameShortName(slot, short)
  }

  /** The loop over the entries of one sector. */
  method ShortInSector(sector: Sector, short: seq<byte>) returns (i: nat)
    requires |short| == 11
    ensures i <= 16 && forall j :: 0 <= j < i ==> !Matches(SlotOf(sector, j), short)
    ensures i < 16 ==> Matches(SlotOf(sector, i), short)
  {
    i := 0;
    while i < 16
      invariant i <= 16 && forall j :: 0 <= j < i ==> !Matches(SlotOf(sector, j), short)
    {
      var slot := SlotOf(sector, i);
      if !IsLongText(slot) && !IsInvalid(slot) && SameShortName(slot, short) {
        return;
      }
      i := i + 1;
    }
  }

  lemma SectorScanned(secs: seq<Sector>, short: seq<byte>, x: nat, i: nat)
    requires |short| == 11 && x < |secs| && i <= 16
    requires NoShort(Slots(secs), short, 16 * x)
    requires forall j :: 0 <= j < i ==> !Matches(SlotOf(secs[x], j), short)
    ensures NoShort(Slots(secs), short, 16 * x + i)
  {
    hide SlotOf, SameShortName;
    forall j | 16 * x <= j < 16 * x + i ensures !Matches(Slots(secs)[j], short) {
      assert j / 16 == x && j % 16 == j - 16 * x;
    }
  }

  /**
   * The scan shared by fatfs_sfn_exists, fatfs_update_file_length and
   * fatfs_mark_file_deleted: it stops at the first match, in sector x, or past the last sector.
   */
  method ScanShort(fs: FatFs, start: u32, short: seq<byte>, ghost dir: seq<u32>, ghost secs: seq<Sector>)
    returns (found: bool, x: nat, item: nat)
    requires fs.Valid() && DirChain(fs.geo, fs.table.T, start, dir) && |short| == 11
    requires secs == Pick(fs.data, DirAddrs(fs.geo, dir))
    modifies fs, fs.table, fs.disk
    ensures fs.Valid() && fs.State() == old(fs.State())
    ensures x <= |secs| && (found <==> x < |secs|)
    ensures found ==> item < 16 && fs.Window(dir, x) && fs.current == secs[x] && Matches(SlotOf(secs[x], item), short)
    ensures !found ==> item == 0 && if x == 0 then fs.curAddress == old(fs.curAddress) else fs.Window(dir, x - 1)
    ensures NoShort(Slots(secs), short, 16 * x + item)
  {
    assert NoShort(Slots(secs), short, 0);
    hide FatFs.Valid, FatFs.Window, IsLive, SameShortName, DirAddrs, DirChain, Slots, NoShort, Matches, Pick;
    x, item, found := 0, 0, false;
    var ok := true;
    while ok && !found
      invariant fs.Valid() && fs.State() == old(fs.State())
      invariant x <= |secs| && item < 16 && NoShort(Slots(secs), short, 16 * x + item)
      invariant found ==>
                x < |secs| && fs.Window(dir, x) && fs.current == secs[x] && Matches(SlotOf(secs[x], item), short)
      invariant !found ==> item == 0 && if x == 0 then fs.curAddress == old(fs.curAddress) else fs.Window(dir, x - 1)
      invariant !ok ==> x == |secs|
      decreases |secs| - x, ok, !found
    {
      ok, item := SectorStep(fs, start, short, dir, secs, x);
      if ok && item < 16 {
        found := true;
      } else if ok {
        x, item := x + 1, 0;
      }
    }
  }

  method SectorStep(fs: FatFs, start: u32, short: seq<byte>, ghost dir: seq<u32>, ghost secs: seq<Sector>, x: nat)
    returns (ok: bool, item: nat)
    requires fs.Valid() && DirChain(fs.geo, fs.table.T, start, dir) && |short| == 11
    requires secs == Pick(fs.data, DirAddrs(fs.geo, dir)) && x <= |secs| && NoShort(Slots(secs), short, 16 * x)
    modifies fs, fs.table, fs.disk
    ensures fs.Valid() && fs.State() == old(fs.State())
    ensures ok <==> x < |secs|
    ensures !ok ==> item == 0 && fs.curAddress == old(fs.curAddress)
    ensures ok ==>
              item <= 16 && fs.Window(dir, x) && fs.current == secs[x] && NoShort(Slots(secs), short, 16 * x + item)
    ensures ok && item < 16 ==> Matches(SlotOf(secs[x], item), short)
  {
    hide FatFs.Valid, IsLive, SameShortName, DirAddrs, DirChain, Slots, NoShort, Matches, Pick;
    ok := fs.SectorReader(start, x, dir);
    item := 0;
    if ok {
      item := ShortInSector(fs.current, short);
      SectorScanned(secs, short, x, item);
    }
  }

  method FindShort(fs: FatFs, start: u32, short: seq<byte>, ghost dir: seq<u32>)
    returns (found: bool, item: nat, ghost k: nat)
    requires fs.Valid() && DirChain(fs.geo, fs.table.T, start, dir) && |short| == 11
    modifies fs, fs.table, fs.disk
    ensures fs.Valid() && fs.State() == old(fs.State())
    ensures FirstShort(DirSlots(fs.geo, fs.data, dir), short, k)
    ensures found <==> k < |DirSlots(fs.geo, fs.data, dir)|
    ensures found ==> item == k % 16 && fs.Window(dir, k / 16)
    ensures found ==> fs.current == Pick(fs.data, DirAddrs(fs.geo, dir))[k / 16]
    ensures fs.curAddress == old(fs.curAddress) || fs.CurrentIn(dir)
  {
    ghost var secs := Pick(fs.data, DirAddrs(fs.geo, dir));
    var x;
    found, x, item := ScanShort(fs, start, short, dir, secs);
    k := 16 * x + item;
    hide FatFs.Valid, FatFs.Window, IsLive, SameShortName, DirAddrs, DirChain, NoShort, Pick;
    if found {
      assert k / 16 == x && k % 16 == item;
    } else if x > 0 {
      assert fs.Window(dir, x - 1);
    }
  }

  /** fatfs_sfn_exists. */
  method ShortNameExists(fs: FatFs, start: u32, short: seq<byte>, ghost dir: seq<u32>) returns (found: bool)
    requires fs.Valid() && DirChain(fs.geo, fs.table.T, start, dir) && |short| == 11
    modifies fs, fs.table, fs.disk
    ensures fs.Valid() && fs.State() == old(fs.State())
    ensures found <==> !NoShort(DirSlots(fs.geo, fs.data, dir), short, |DirSlots(fs.geo, fs.data, dir)|)
    ensures fs.curAddress == old(fs.curAddress) || fs.CurrentIn(dir)
  {
    var item;
    ghost var k;
    found, item, k := FindShort(fs, start, short, dir);
  }

  /** The sectors agree except at the given places. */
  ghost predicate OnlyAt(before: seq<Sector>, after: seq<Sector>, addrs: seq<int>) {
    && |after| == |before|
    && forall a :: 0 <= a < |before| && a !in addrs ==> after[a] == before[a]
  }

  /** From v to w slot k of the directory becomes s, and nothing else changes. */
  ghost predicate Rewritten(g: Geometry, v: Volume, w: Volume, dir: seq<u32>, k: nat, s: Slot) {
    && w.T == v.T
    && k < |DirSlots(g, v.data, dir)|
    && DirSlots(g, w.data, dir) == DirSlots(g, v.data, dir)[k := s]
    && OnlyAt(v.data, w.data, DirAddrs(g, dir))
  }

  lemma RewrittenBy(g: Geometry, v: Volume, w: Volume, dir: seq<u32>, k: nat, s: Slot)
    requires g.Ok() && Clusters(g, dir) && (dir == [] ==> g.fatType == FAT16) && Span(g) <= |v.data|
    requires k < |DirSlots(g, v.data, dir)|
    requires 0 <= DirAddrs(g, dir)[k / 16] < |v.data|
    requires w == v.(data :=
              v.data[DirAddrs(g, dir)[k / 16] := WithSlot(Pick(v.data, DirAddrs(g, dir))[k / 16], k % 16, s)])
    ensures Rewritten(g, v, w, dir, k, s)
  {
    var addrs := DirAddrs(g, dir);
    DirAddrsProper(g, dir, |v.data|);
    PickWritten(v.data, addrs, k / 16, WithSlot(Pick(v.data, addrs)[k / 16], k % 16, s));
    SlotsWritten(Pick(v.data, addrs), k, s);
  }

  /** Put the image, which differs from the current sector at one slot, in its place. */
  method RewriteRecord(fs: FatFs, item: nat, image: Sector, ghost s: Slot, ghost k: nat, ghost dir: seq<u32>)
    requires fs.Valid() && Clusters(fs.geo, dir) && (dir == [] ==> fs.geo.fatType == FAT16)
    requires k / 16 < |DirAddrs(fs.geo, dir)| && item == k % 16 && fs.Window(dir, k / 16)
    requires fs.current == Pick(fs.data, DirAddrs(fs.geo, dir))[k / 16] && image == WithSlot(fs.current, item, s)
    modifies fs, fs.disk
    ensures fs.Valid() && fs.curAddress == old(fs.curAddress)
    ensures Rewritten(fs.geo, old(fs.State()), fs.State(), dir, k, s)
  {
    ghost var v := fs.State();
    assert 0 <= DirAddrs(fs.geo, dir)[k / 16] < Span(fs.geo) <= |v.data| by { DirAddrsIn(fs.geo, dir, k / 16); }
    assert Span(fs.geo) <= |v.data| && fs.geo.Ok();
    hide Geometry.Ok, DirAddrs, WithSlot, Span, Rewritten;
    fs.current := image;
    var ok := fs.WriteCurrent();
    RewrittenBy(fs.geo, v, fs.State(), dir, k, s);
  }

  /** A record with another file size. */
  function WithSize(s: Slot, size: u32): Slot { Put32(s, 28, size) }

  lemma SizeInSector(sector: Sector, i: nat, v: u32)
    requires i < 16
    ensures Put32(sector, i * 32 + 28, v) == WithSlot(sector, i, WithSize(SlotOf(sector, i), v))
  {
  }

  /** fatfs_update_file_length; slots are the directory's slots at the call. */
  method UpdateFileLength(fs: FatFs, start: u32, short: seq<byte>, length: u32, ghost dir: seq<u32>,
      ghost slots: seq<Slot>)
    returns (ok: bool, ghost k: nat)
    requires fs.Valid() && DirChain(fs.geo, fs.table.T, start, dir) && |short| == 11
    requires slots == DirSlots(fs.geo, fs.data, dir)
    modifies fs, fs.table, fs.disk
    ensures fs.Valid() && FirstShort(slots, short, k)
    ensures ok <==> k < |slots|
    ensures ok ==> Rewritten(fs.geo, old(fs.State()), fs.State(), dir, k, WithSize(slots[k], length))
    ensures ok ==> fs.CurrentIn(dir)
    ensures !ok ==> fs.State() == old(fs.State())
    ensures fs.curAddress == old(fs.curAddress) || fs.CurrentIn(dir)
  {
    DirClusters(fs.geo, fs.table.T, start, dir);
    hide FatFs.Valid, FatFs.Window, Rewritten, FirstShort, DirAddrs, DirChain, Clusters, SlotOf;
    var item;
    ok, item, k := FindShort(fs, start, short, dir);
    if ok {
      assert slots[k] == SlotOf(fs.current, item);
      SizeInSector(fs.current, item, length);
      hide WithSize, WithSlot, Put32, Slots, Pick;
      RewriteRecord(fs, item, Put32(fs.current, item * 32 + 28, length), WithSize(slots[k], length), k, dir);
    }
  }

  /** The record with its first byte marked deleted. */
  function Deleted(s: Slot): Slot { s[0 := 0xE5] }

  lemma DeletedInSector(sector: Sector, i: nat)
    requires i < 16
    ensures sector[i * 32 := 0xE5] == WithSlot(sector, i, Deleted(SlotOf(sector, i)))
  {
  }

  /** fatfs_mark_file_deleted; slots are the directory's slots at the call. */
  method MarkFileDeleted(fs: FatFs, start: u32, short: seq<byte>, ghost dir: seq<u32>, ghost slots: seq<Slot>)
    returns (ok: bool, ghost k: nat)
    requires fs.Valid() && DirChain(fs.geo, fs.table.T, start, dir) && |short| == 11
    requires slots == DirSlots(fs.geo, fs.data, dir)
    modifies fs, fs.table, fs.disk
    ensures fs.Valid() && FirstShort(slots, short, k)
    ensures ok <==> k < |slots|
    ensures ok ==> Rewritten(fs.geo, old(fs.State()), fs.State(), dir, k, Deleted(slots[k]))
    ensures ok ==> fs.CurrentIn(dir)
    ensures !ok ==> fs.State() == old(fs.State())
    ensures fs.curAddress == old(fs.curAddress) || fs.CurrentIn(dir)
  {
    DirClusters(fs.geo, fs.table.T, start, dir);
    hide FatFs.Valid, FatFs.Window, Rewritten, FirstShort, DirAddrs, DirChain, Clusters, SlotOf;
    var item;
    ok, item, k := FindShort(fs, start, short, dir);
    if ok {
      assert slots[k] == SlotOf(fs.current, item);
      DeletedInSector(fs.current, item);
      hide Deleted, WithSlot, Slots, Pick;
      RewriteRecord(fs, item, fs.current[item * 32 := 0xE5], Deleted(slots[k]), k, dir);
    }
  }
}
