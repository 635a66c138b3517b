/** Adding an entry to a directory: where it goes, and the writes that put it there. */
module DirInsert {
  import opened Words
  import opened Layout
  import opened Chains
  import opened Contents
  import opened FatStrings
  import opened LongNames
  import opened Directories
  import opened Access
  import opened DirScan
  import opened Allocation
  import opened DirWrite

  // ----- where it goes

  ghost predicate HasRoom(slots: seq<Slot>, n: nat) { exists a: nat, e: nat :: Room(slots, a, n, e) }

  /**
   * After the search slots at .. at+n-1 of the directory may be overwritten.  They begin the first row
   * that is long enough; the directory grew by one cluster only if it had none.
   */
  ghost predicate RoomMade(g: Geometry, v: Volume, w: Volume, start: u32, dir: seq<u32>, dir': seq<u32>, n: nat,
      at: nat, end: nat) {
    && DirChain(g, w.T, start, dir')
    && Room(DirSlots(g, w.data, dir'), at, n, end) && Leftmost(DirSlots(g, w.data, dir'), at)
    && if dir' == dir then w == v && FirstRoom(DirSlots(g, v.data, dir), at, n, end) else
         && !HasRoom(DirSlots(g, v.data, dir), n) && Free(g, v.T) != []
         && dir' == dir + [Free(g, v.T)[0]] && Lengthened(g, v, w, dir, Free(g, v.T)[0])
  }

  /** The usable slots at the end of a directory and the blank ones behind them. */
  lemma RoomAfterGrowth(slots: seq<Slot>, n: nat, possible: nat, start: nat, blank: nat)
    requires Tracking(slots, n, |slots|, possible, start) && 1 <= n <= blank
    ensures Room(slots + BlankSlots(blank), if possible > 0 then start else |slots|, n, |slots| + blank - 1)
    ensures Leftmost(slots + BlankSlots(blank), if possible > 0 then start else |slots|)
  {
    if possible < |slots| {
      OccupiedNotLong(slots[|slots| - possible - 1]);
    }
    assert !IsOccupied(BlankSlot()) && !IsLongText(BlankSlot());
    hide IsOccupied, IsLongText, BlankSlot;
  }

  lemma NoRoomAtAll(slots: seq<Slot>, n: nat)
    requires NoRoom(slots, n, |slots|)
    ensures !HasRoom(slots, n)
  {
  }

  lemma RoomFound(fs: FatFs, start: u32, dir: seq<u32>, s: Search, x: nat, end: nat, v: Volume, slots: seq<Slot>,
      n: nat)
    requires fs.State() == v && DirChain(fs.geo, v.T, start, dir) && slots == DirSlots(fs.geo, v.data, dir)
    requires Searching(slots, n, 16 * x, s, end) && s.found && (x > 0 ==> fs.Window(dir, x - 1))
    ensures RoomMade(fs.geo, v, fs.State(), start, dir, dir, n, 16 * s.pSector + s.pOffset, end)
    ensures x > 0 ==> fs.CurrentIn(dir)
  {
    hide DirChain, DirSlots, Room, NoRoom, Leftmost, FatFs.Window;
  }

  /** The search ran off the end of the directory: allocate another cluster. */
  method MakeRoom(fs: FatFs, dirCluster: u32, entryCount: nat, s: Search, x: nat, ghost v: Volume, ghost dir: seq<u32>,
      ghost slots: seq<Slot>, ghost end0: nat)
    returns (ok: bool, pSector: nat, pOffset: Offset, ghost dir': seq<u32>, ghost end: nat)
    requires fs.Valid() && fs.State() == v && DirChain(fs.geo, v.T, dirCluster, dir) && Usable(fs.geo, v.T)
    requires slots == DirSlots(fs.geo, v.data, dir) && 1 <= entryCount <= 16 * fs.geo.sectorsPerCluster
    requires dir == [] ==> HasRoom(slots, entryCount)
    requires Searching(slots, entryCount, 16 * x, s, end0) && !s.found && 16 * x == |slots|
    requires x > 0 ==> fs.Window(dir, x - 1)
    modifies fs, fs.table, fs.disk
    ensures fs.Valid()
    ensures ok ==> RoomMade(fs.geo, v, fs.State(), dirCluster, dir, dir', entryCount, 16 * pSector + pOffset, end)
    ensures !ok ==> dir' == dir && fs.State() == v && Free(fs.geo, v.T) == [] && !HasRoom(slots, entryCount)
    ensures (fs.curAddress == old(fs.curAddress) && x == 0) || fs.CurrentIn(dir')
  {
    hide *;
    pSector, pOffset, dir', end := s.pSector, s.pOffset, dir, 0;
    TrackedToEnd(slots, entryCount, s, end0);
    OursToo(fs, dir, x);
    ghost var c;
    ok, c := GrowDirectory(fs, dirCluster, v, dir);
    if ok {
      if !s.started {
        pSector, pOffset := x, 0;
      }
      dir' := dir + [c];
      end := |slots| + 16 * fs.geo.sectorsPerCluster - 1;
      GrownRoom(fs.geo, v, fs.State(), dirCluster, dir, c, entryCount, s, x, end0);
      LastIsOurs(fs, dir, c);
    }
  }

  /** fatfs_find_free_dir_offset. */
  method FindFreeDirOffset(fs: FatFs, dirCluster: u32, entryCount: nat, ghost v: Volume, ghost dir: seq<u32>,
      ghost slots: seq<Slot>)
    returns (ok: bool, pSector: nat, pOffset: Offset, ghost dir': seq<u32>, ghost end: nat)
    requires fs.Valid() && fs.State() == v && DirChain(fs.geo, v.T, dirCluster, dir) && Usable(fs.geo, v.T)
    requires slots == DirSlots(fs.geo, v.data, dir) && entryCount <= 16 * fs.geo.sectorsPerCluster
    requires dir == [] ==> HasRoom(slots, entryCount)
    modifies fs, fs.table, fs.disk
    ensures fs.Valid()
    ensures ok ==> RoomMade(fs.geo, v, fs.State(), dirCluster, dir, dir', entryCount, 16 * pSector + pOffset, end)
    ensures !ok ==>
              && dir' == dir && fs.State() == v
              && (entryCount == 0 || (Free(fs.geo, v.T) == [] && !HasRoom(slots, entryCount)))
    ensures fs.curAddress == old(fs.curAddress) || fs.CurrentIn(dir')
  {
    hide *;
    ok, pSector, pOffset, dir', end := false, 0, 0, dir, 0;
    if entryCount == 0 {
      return;
    }
    var s, x;
    s, x, end := SearchRoom(fs, dirCluster, entryCount, v, dir, slots);
    if s.found {
      RoomFound(fs, dirCluster, dir, s, x, end, v, slots, entryCount);
      ok, pSector, pOffset := true, s.pSector, s.pOffset;
    } else {
      ok, pSector, pOffset, dir', end := MakeRoom(fs, dirCluster, entryCount, s, x, v, dir, slots, end);
    }
  }

  lemma TrackedToEnd(slots: seq<Slot>, n: nat, s: Search, end: nat)
    requires Searching(slots, n, |slots|, s, end) && !s.found
    ensures !HasRoom(slots, n)
  {
    NoRoomAtAll(slots, n);
  }

  lemma OursToo(fs: FatFs, dir: seq<u32>, x: nat)
    requires x > 0 ==> fs.Window(dir, x - 1)
    ensures x > 0 ==> fs.CurrentIn(dir)
  {
  }

  lemma GrownRoom(g: Geometry, v: Volume, w: Volume, start: u32, dir: seq<u32>, c: u32, n: nat, s: Search, x: nat,
      end0: nat)
    requires Lengthened(g, v, w, dir, c) && DirChain(g, w.T, start, dir + [c]) && Free(g, v.T) != []
    requires c == Free(g, v.T)[0]
    requires !HasRoom(DirSlots(g, v.data, dir), n) && 1 <= n <= 16 * g.sectorsPerCluster
    requires |DirSlots(g, v.data, dir)| == 16 * x
    requires Searching(DirSlots(g, v.data, dir), n, 16 * x, s, end0) && !s.found
    ensures RoomMade(g, v, w, start, dir, dir + [c], n, if s.started then 16 * s.pSector + s.pOffset else 16 * x,
                     16 * x + 16 * g.sectorsPerCluster - 1)
  {
    hide DirChain, Room, Leftmost, FirstRoom, Free, HasRoom, DirSlots, BlankSlots, Appended;
    RoomAfterGrowth(DirSlots(g, v.data, dir), n, s.possible, s.At(), 16 * g.sectorsPerCluster);
  }

  /** A window on the new cluster is a window on the directory. */
  lemma LastIsOurs(fs: FatFs, dir: seq<u32>, c: u32)
    requires fs.Valid() && dir != [] && fs.CurrentIn([c])
    ensures fs.CurrentIn(dir + [c])
  {
    var g := fs.geo;
    assert g.sectorsPerCluster > 0;
    hide FatFs.Valid, Addrs, Geometry.Ok, Span;
    var x: nat :| fs.Window([c], x);
    AddrsAppend(g, dir, [c]);
    assert DirAddrs(g, dir + [c])[|Addrs(g, dir)| + x] == DirAddrs(g, [c])[x];
    assert fs.Window(dir + [c], |Addrs(g, dir)| + x);
  }

  // ----- the slots of the new entry

  /** What fatfs_add_file_entry is told about the new entry. */
  datatype NewEntry = NewEntry(name: seq<byte>, short: ShortName, startCluster: u32, size: u32, isDir: bool)

  /** The entry's names as the directory code needs them. */
  predicate WellNamed(e: NewEntry) {
    && CString(e.name) && 0xFF !in e.name && EntriesRequired(e.name) <= MAX_ENTRIES
    && e.short[0] != 0 && e.short[0] != 0xE5
  }

  function StartCluster(s: Slot): u32 { Get16(s, 20) * 0x1_0000 + Get16(s, 26) }

  function FileSize(s: Slot): u32 { Get32(s, 28) }

  /** fatfs_sfn_create_entry. */
  function Record(e: NewEntry): (s: Slot)
    ensures s[..11] == e.short && StartCluster(s) == e.startCluster && FileSize(s) == e.size
    ensures IsDirectory(s) == e.isDir && !IsLongText(s)
    ensures IsLive(s) <==> e.short[0] != 0 && e.short[0] != 0xE5
  {
    var c, n := e.startCluster, e.size;
    var attr: byte := if e.isDir then 0x10 else 0x20;
    var rest: seq<byte> := [attr, 0, 0, 0, 0, 0x20, 0, 0x20, 0,
      c / 0x1_0000 % 0x100, c / 0x100_0000, 0, 0, 0x20, 0, c % 0x100, c / 0x100 % 0x100,
      n % 0x100, n / 0x100 % 0x100, n / 0x1_0000 % 0x100, n / 0x100_0000];
    var s := e.short + rest;
    Bytes32(c);
    Bytes32(n);
    assert s[11] == rest[0] && s[20] == rest[9] && s[21] == rest[10] && s[26] == rest[15] && s[27] == rest[16];
    assert s[28] == rest[17] && s[29] == rest[18] && s[30] == rest[19] && s[31] == rest[20];
    assert s[0] == e.short[0];
    s
  }

  /** The record, byte by byte: name, kind, dates, and start cluster and size with the low byte first. */
  lemma RecordBytes(e: NewEntry)
    ensures Record(e)[..11] == e.short
    ensures Record(e)[11] == if e.isDir then 0x10 else 0x20
    ensures var r := Record(e);
      && r[12] == r[13] == r[14] == r[15] == r[17] == r[19] == r[22] == r[23] == r[25] == 0
      && r[16] == r[18] == r[24] == 0x20
    ensures var c: int, r := e.startCluster, Record(e);
      r[26] == c % 0x100 && r[27] == c / 0x100 % 0x100 && r[20] == c / 0x1_0000 % 0x100 && r[21] == c / 0x100_0000
    ensures var n: int, r := e.size, Record(e);
      r[28] == n % 0x100 && r[29] == n / 0x100 % 0x100 && r[30] == n / 0x1_0000 % 0x100 && r[31] == n / 0x100_0000
  {
    hide Record;
    var rest := RecordRest(e);
    forall k | 0 <= k < 21 ensures Record(e)[11 + k] == rest[k] {
    }
    assert Record(e)[11] == Record(e)[11 + 0];
  }

  lemma RecordRest(e: NewEntry) returns (rest: seq<byte>)
    ensures Record(e) == e.short + rest
    ensures var c: u32, n: u32 := e.startCluster, e.size;
      rest == [if e.isDir then 0x10 else 0x20, 0, 0, 0, 0, 0x20, 0, 0x20, 0,
        c / 0x1_0000 % 0x100, c / 0x100_0000, 0, 0, 0x20, 0, c % 0x100, c / 0x100 % 0x100,
        n % 0x100, n / 0x100 % 0x100, n / 0x1_0000 % 0x100, n / 0x100_0000]
  {
    rest := Record(e)[11..];
  }

  /** Where a record has its start cluster and its size. */
  lemma RecordFields(s: Slot)
    ensures StartCluster(s) == s[26] as int + 0x100 * s[27] as int + 0x1_0000 * s[20] as int + 0x100_0000 * s[21] as int
    ensures FileSize(s) == s[28] as int + 0x100 * s[29] as int + 0x1_0000 * s[30] as int + 0x100_0000 * s[31] as int
  {
  }

  /** A new size changes four bytes of a record. */
  lemma SizeBytes(s: Slot, size: u32)
    ensures WithSize(s, size)[..28] == s[..28]
    ensures var n: int, r := size, WithSize(s, size);
      && r[28] == n % 0x100 && r[29] == n / 0x100 % 0x100 && r[30] == n / 0x1_0000 % 0x100 && r[31] == n / 0x100_0000
  {
  }

  /** The checksum of a short name, byte by byte. */
  function Rotated(checksum: byte): byte { (if checksum % 2 == 1 then 0x80 else 0) + checksum / 2 }

  function Checksum(short: seq<byte>): byte {
    if short == [] then 0 else (Rotated(Checksum(short[..|short| - 1])) + short[|short| - 1]) % 0x100
  }

  /** Each byte is added to the checksum turned right by one bit. */
  lemma ChecksumBytes(short: seq<byte>, b: byte)
    ensures Checksum([]) == 0
    ensures var c := Checksum(short);
      Checksum(short + [b]) == (c / 2 + c % 2 * 0x80 + b as int) % 0x100
  {
    assert (short + [b])[..|short|] == short;
  }

  method ShortChecksum(short: seq<byte>) returns (checksum: byte)
    requires |short| == 11
    ensures checksum == Checksum(short)
  {
    checksum := 0;
    for i := 0 to 11
      invariant checksum == Checksum(short[..i])
    {
      assert short[..i + 1][..i] == short[..i];
      checksum := ((if checksum % 2 == 1 then 0x80 else 0) + checksum / 2 + short[i]) % 0x100;
    }
    assert short[..11] == short;
  }

  /** The first slots of an entry: the long name, highest ordinal first, then the record. */
  ghost predicate Begun(e: NewEntry, part: seq<Slot>)
  {
    var n := EntriesRequired(e.name);
    && |part| <= n + 1
    && (forall i :: 0 <= i < |part| && i < n ==>
          && IsLongText(part[i]) && Ordinal(part[i]) == n - i && Text(part[i]) == Chunk(e.name, n - 1 - i)
          && part[i][13] == Checksum(e.short) && part[i][0] == (if i == 0 then 0x40 else 0) + n - i)
    && (|part| == n + 1 ==> part[n] == Record(e))
  }

  lemma BegunMore(e: NewEntry, part: seq<Slot>, s: Slot)
    requires Begun(e, part) && |part| < EntriesRequired(e.name)
    requires var n := EntriesRequired(e.name) - 1 - |part|;
      && IsLongText(s) && Ordinal(s) == n + 1 && Text(s) == Chunk(e.name, n) && s[13] == Checksum(e.short)
      && s[0] == (if part == [] then 0x40 else 0) + n + 1
    ensures Begun(e, part + [s])
  {
    hide IsLongText, Ordinal, Text, Chunk, Checksum, Record, EntriesRequired;
  }

  lemma BegunWhole(e: NewEntry, part: seq<Slot>)
    requires WellNamed(e) && e.name != [] && Begun(e, part) && |part| == EntriesRequired(e.name) + 1
    ensures IsEntry(part, e.name, Record(e))
  {
    hide IsLongText, Ordinal, Text, Chunk, Checksum, EntriesRequired, IsLive;
  }

  lemma BegunEnd(e: NewEntry, part: seq<Slot>)
    requires Begun(e, part) && |part| == EntriesRequired(e.name)
    ensures Begun(e, part + [Record(e)])
  {
    hide IsLongText, Ordinal, Text, Chunk, Checksum, Record, EntriesRequired;
  }

  // ----- the writes

  /** The image holds slots |part| .. |part'|-1 of the entry from slot from on, and is otherwise the sector. */
  ghost predicate Filled(sector: Sector, image: Sector, from: nat, part: seq<Slot>, part': seq<Slot>) {
    && part <= part' && from + |part'| - |part| <= 16
    && forall j :: 0 <= j < 16 ==>
         SlotOf(image, j) == if from <= j < from + |part'| - |part| then part'[|part| + j - from] else SlotOf(sector, j)
  }

  lemma FilledMore(sector: Sector, image: Sector, from: nat, part: seq<Slot>, part': seq<Slot>, item: nat, s: Slot)
    requires Filled(sector, image, from, part, part') && item == from + |part'| - |part| < 16
    ensures Filled(sector, WithSlot(image, item, s), from, part, part' + [s])
  {
    hide SlotOf, WithSlot;
    forall j | 0 <= j < 16
      ensures SlotOf(WithSlot(image, item, s), j)
           == if from <= j <= item then (part' + [s])[|part| + j - from] else SlotOf(sector, j)
    {
      WithSlotRead(image, item, s, j);
    }
  }

  lemma FilledNone(sector: Sector, from: nat, part: seq<Slot>)
    requires from <= 16
    ensures Filled(sector, sector, from, part, part)
  {
  }

  /** The loop of fatfs_add_file_entry over the slots of one sector. */
  method FillSector(sector: Sector, x: nat, dirSector: nat, dirOffset: Offset, foundEnd0: bool, entryCount0: nat,
      e: NewEntry, checksum: byte, ghost part: seq<Slot>)
    returns (image: Sector, foundEnd: bool, entryCount: nat, done: bool, dirty: bool, ghost part': seq<Slot>)
    requires WellNamed(e) && checksum == Checksum(e.short)
    requires Begun(e, part) && entryCount0 == EntriesRequired(e.name) - |part|
    requires if foundEnd0 then dirSector < x else dirSector == x
    ensures Filled(sector, image, if foundEnd0 then 0 else dirOffset, part, part') && Begun(e, part')
    ensures done <==> (if foundEnd0 then 0 else dirOffset) + entryCount0 < 16
    ensures done ==> |part'| == EntriesRequired(e.name) + 1
    ensures !done ==> foundEnd && dirty && entryCount == EntriesRequired(e.name) - |part'|
    ensures !done ==> (if foundEnd0 then 0 else dirOffset) + |part'| - |part| == 16
  {
    hide WellNamed, Begun, Filled, Checksum, EntriesRequired, IsLongText, Ordinal, Text, Chunk, WithSlot, Record;
    ghost var from: nat := if foundEnd0 then 0 else dirOffset;
    image, foundEnd, entryCount, done, dirty, part' := sector, foundEnd0, entryCount0, false, false, part;
    FilledNone(sector, from, part);
    var item := 0;
    while item < 16
      invariant item <= 16 && Filled(sector, image, from, part, part') && Begun(e, part')
      invariant foundEnd <==> foundEnd0 || item > from
      invariant |part'| == |part| + if item > from then item - from else 0
      invariant entryCount == EntriesRequired(e.name) - |part'|
      invariant dirty <==> item > from
    {
      if !foundEnd && dirSector == x && dirOffset == item {
        foundEnd := true;
      }
      if foundEnd {
        var slot: Slot;
        if entryCount == 0 {
          slot := Record(e);
          BegunEnd(e, part');
          done := true;
        } else {
          entryCount := entryCount - 1;
          slot := LongSlot(e, entryCount, checksum);
          BegunMore(e, part', slot);
          dirty := true;
        }
        FilledMore(sector, image, from, part, part', item, slot);
        image, part' := WithSlot(image, item, slot), part' + [slot];
        if done {
          return;
        }
      }
      item := item + 1;
    }
  }

  method LongSlot(e: NewEntry, entry: nat, checksum: byte) returns (slot: Slot)
    requires WellNamed(e) && entry < EntriesRequired(e.name)
    ensures Text(slot) == Chunk(e.name, entry) && IsLongText(slot) && Ordinal(slot) == entry + 1 && slot[13] == checksum
    ensures slot[0] == (if entry + 1 == EntriesRequired(e.name) then 0x40 else 0) + entry + 1
  {
    slot := WriteLongSlot(e.name, entry, checksum);
  }

  /** From v to w the slots from at on become those of part, and nothing else changes. */
  ghost predicate Placed(g: Geometry, v: Volume, w: Volume, dir: seq<u32>, at: nat, part: seq<Slot>) {
    && w.T == v.T && OnlyAt(v.data, w.data, DirAddrs(g, dir))
    && at + |part| <= |DirSlots(g, v.data, dir)|
    && DirSlots(g, w.data, dir) == Overwritten(DirSlots(g, v.data, dir), at, part)
  }

  lemma PlacedNone(g: Geometry, v: Volume, dir: seq<u32>, at: nat)
    requires at <= |DirSlots(g, v.data, dir)|
    ensures Placed(g, v, v, dir, at, [])
  {
    hide DirSlots, DirAddrs;
  }

  lemma SlotsImage(secs: seq<Sector>, x: nat, image: Sector)
    requires x < |secs|
    ensures |Slots(secs[x := image])| == |Slots(secs)|
    ensures forall k :: 0 <= k < |Slots(secs)| ==>
              Slots(secs[x := image])[k] ==
                if 16 * x <= k < 16 * x + 16 then SlotOf(image, k - 16 * x) else Slots(secs)[k]
  {
    hide SlotOf;
  }

  lemma OverwrittenMore(slots: seq<Slot>, a: seq<Slot>, b: seq<Slot>, at: nat, x: nat, from: nat, image: Sector,
      sector: Sector, part: seq<Slot>, part': seq<Slot>)
    requires |a| == |b| == |slots| && at + |part| == 16 * x + from && from <= 16 && 16 * x + 16 <= |slots|
    requires a == Overwritten(slots, at, part) && Filled(sector, image, from, part, part')
    requires forall j :: 0 <= j < 16 ==> a[16 * x + j] == SlotOf(sector, j)
    requires forall k :: 0 <= k < |b| ==> b[k] == if 16 * x <= k < 16 * x + 16 then SlotOf(image, k - 16 * x) else a[k]
    ensures at + |part'| <= |slots| && b == Overwritten(slots, at, part')
  {
    hide SlotOf;
    forall k | 0 <= k < |b| ensures b[k] == Overwritten(slots, at, part')[k] {
      if 16 * x <= k < 16 * x + 16 {
        assert a[16 * x + (k - 16 * x)] == SlotOf(sector, k - 16 * x);
      } else if at <= k < at + |part| {
        assert part[k - at] == part'[k - at];
      }
    }
  }

  lemma PlacedMore(g: Geometry, v: Volume, w: Volume, dir: seq<u32>, at: nat, x: nat, from: nat, image: Sector,
      part: seq<Slot>, part': seq<Slot>)
    requires g.Ok() && Clusters(g, dir) && (dir == [] ==> g.fatType == FAT16) && Span(g) <= |v.data|
    requires Placed(g, v, w, dir, at, part) && x < |DirAddrs(g, dir)| && at + |part| == 16 * x + from && from <= 16
    requires Filled(Pick(w.data, DirAddrs(g, dir))[x], image, from, part, part')
    ensures 0 <= DirAddrs(g, dir)[x] < |w.data|
    ensures Placed(g, v, w.(data := w.data[DirAddrs(g, dir)[x] := image]), dir, at, part')
  {
    var addrs := DirAddrs(g, dir);
    var secs := Pick(w.data, addrs);
    assert |DirSlots(g, v.data, dir)| == 16 * |addrs|;
    hide Geometry.Ok, Clusters, Span, Filled, Overwritten, DirAddrs, Slots, SlotOf;
    DirAddrsProper(g, dir, |v.data|);
    PickWritten(w.data, addrs, x, image);
    SlotsImage(secs, x, image);
    SlotsOf(secs, x);
    OverwrittenMore(DirSlots(g, v.data, dir), Slots(secs), Slots(secs[x := image]), at, x, from, image, secs[x], part,
      part');
    assert addrs[x] in addrs;
  }

  /** One turn of the sector loop of fatfs_add_file_entry. */
  method WriteStep(fs: FatFs, dirCluster: u32, x: nat, dirSector: nat, dirOffset: Offset, foundEnd0: bool,
      entryCount0: nat,
      e: NewEntry, checksum: byte, ghost v: Volume, ghost dir: seq<u32>, ghost part: seq<Slot>)
    returns (ok: bool, foundEnd: bool, entryCount: nat, done: bool, ghost part': seq<Slot>)
    requires fs.Valid() && DirChain(fs.geo, fs.State().T, dirCluster, dir) && WellNamed(e)
    requires checksum == Checksum(e.short)
    requires Writing(fs.geo, v, fs.State(), dir, e, x, dirSector, dirOffset, foundEnd0, entryCount0, part)
    modifies fs, fs.table, fs.disk
    ensures fs.Valid() && ok && DirChain(fs.geo, fs.State().T, dirCluster, dir) && fs.Window(dir, x)
    ensures done ==> Placed(fs.geo, v, fs.State(), dir, 16 * dirSector + dirOffset, part')
    ensures done ==> Begun(e, part') && |part'| == EntriesRequired(e.name) + 1
    ensures !done ==> Writing(fs.geo, v, fs.State(), dir, e, x + 1, dirSector, dirOffset, foundEnd, entryCount, part')
  {
    hide *;
    WritingRoom(fs, dirCluster, x, dirSector, dirOffset, foundEnd0, entryCount0, e, v, dir, part);
    foundEnd, entryCount, done, part' := foundEnd0, entryCount0, false, part;
    ok := fs.SectorReader(dirCluster, x, dir);
    DataThere(fs);
    ghost var w := fs.State();
    var image: Sector, dirty: bool;
    image, foundEnd, entryCount, done, dirty, part' := FillSector(fs.current, x, dirSector, dirOffset, foundEnd0,
      entryCount0, e, checksum, part);
    if done || dirty {
      PutImage(fs, dirCluster, image, x, dir);
    }
    WritingStep(fs, dirCluster, w, x, dirSector, dirOffset, foundEnd0, entryCount0, foundEnd, entryCount, done, e, v,
      dir, image, part, part');
  }

  /** Before sector x is filled. */
  ghost predicate Writing(g: Geometry, v: Volume, w: Volume, dir: seq<u32>, e: NewEntry, x: nat, dirSector: nat,
      dirOffset: Offset,
      foundEnd: bool, entryCount: nat, part: seq<Slot>)
  {
    var at := 16 * dirSector + dirOffset;
    && Placed(g, v, w, dir, at, part) && Begun(e, part) && entryCount == EntriesRequired(e.name) - |part|
    && at + EntriesRequired(e.name) + 1 <= |DirSlots(g, v.data, dir)|
    && if foundEnd then dirSector < x && at + |part| == 16 * x else dirSector == x && part == []
  }

  lemma WritingRoom(fs: FatFs, start: u32, x: nat, dirSector: nat, dirOffset: Offset, foundEnd: bool, entryCount: nat,
      e: NewEntry, v: Volume, dir: seq<u32>, part: seq<Slot>)
    requires fs.Valid() && DirChain(fs.geo, fs.State().T, start, dir)
    requires Writing(fs.geo, v, fs.State(), dir, e, x, dirSector, dirOffset, foundEnd, entryCount, part)
    ensures x < |DirAddrs(fs.geo, dir)| && Begun(e, part) && entryCount == EntriesRequired(e.name) - |part|
    ensures DirChain(fs.geo, fs.table.T, start, dir)
    ensures if foundEnd then dirSector < x else dirSector == x
  {
    assert |DirSlots(fs.geo, v.data, dir)| == 16 * |DirAddrs(fs.geo, dir)|;
    hide FatFs.Valid, DirChain, Placed, Begun, DirAddrs, DirSlots;
  }

  lemma PlacedSize(g: Geometry, v: Volume, w: Volume, dir: seq<u32>, at: nat, part: seq<Slot>)
    requires Placed(g, v, w, dir, at, part)
    ensures |w.data| == |v.data| && w.T == v.T
  {
  }

  lemma DataThere(fs: FatFs)
    requires fs.Valid()
    ensures fs.geo.Ok() && Span(fs.geo) <= |fs.data| && fs.State() == Volume(fs.table.T, fs.data)
  {
  }

  lemma WritingStep(fs: FatFs, start: u32, w: Volume, x: nat, dirSector: nat, dirOffset: Offset, foundEnd0: bool,
      entryCount0: nat,
      foundEnd: bool, entryCount: nat, done: bool, e: NewEntry, v: Volume, dir: seq<u32>, image: Sector,
        part: seq<Slot>, part': seq<Slot>)
    requires fs.Valid() && DirChain(fs.geo, w.T, start, dir)
    requires Writing(fs.geo, v, w, dir, e, x, dirSector, dirOffset, foundEnd0, entryCount0, part)
    requires x < |DirAddrs(fs.geo, dir)|
    requires Filled(Pick(w.data, DirAddrs(fs.geo, dir))[x], image, if foundEnd0 then 0 else dirOffset, part, part')
    requires Begun(e, part')
    requires !done ==> foundEnd && entryCount == EntriesRequired(e.name) - |part'|
    requires !done ==> (if foundEnd0 then 0 else dirOffset) + |part'| - |part| == 16
    requires 0 <= DirAddrs(fs.geo, dir)[x] < |w.data|
    requires fs.State() == w.(data := w.data[DirAddrs(fs.geo, dir)[x] := image])
    ensures DirChain(fs.geo, fs.State().T, start, dir)
    ensures done ==> Placed(fs.geo, v, fs.State(), dir, 16 * dirSector + dirOffset, part')
    ensures !done ==> Writing(fs.geo, v, fs.State(), dir, e, x + 1, dirSector, dirOffset, foundEnd, entryCount, part')
  {
    hide FatFs.Valid, Geometry.Ok, DirChain, Clusters, Span, Placed, Filled, Begun, DirAddrs, DirSlots, Pick;
    DirClusters(fs.geo, w.T, start, dir);
    PlacedSize(fs.geo, v, w, dir, 16 * dirSector + dirOffset, part);
    DataThere(fs);
    var from := if foundEnd0 then 0 else dirOffset;
    PlacedMore(fs.geo, v, w, dir, 16 * dirSector + dirOffset, x, from, image, part, part');
  }

  /** Write the image over the current sector, which is sector x of the directory. */
  method PutImage(fs: FatFs, start: u32, image: Sector, ghost x: nat, ghost dir: seq<u32>)
    requires fs.Valid() && fs.Window(dir, x) && DirChain(fs.geo, fs.State().T, start, dir)
    modifies fs, fs.disk
    ensures fs.Valid() && fs.Window(dir, x)
    ensures 0 <= DirAddrs(fs.geo, dir)[x] < |old(fs.State()).data|
    ensures fs.State() == old(fs.State()).(data := old(fs.State()).data[DirAddrs(fs.geo, dir)[x] := image])
  {
    hide Geometry.Ok, DirAddrs, Span, DirChain, Clusters;
    DirClusters(fs.geo, fs.State().T, start, dir);
    DataThere(fs);
    DirAddrsIn(fs.geo, dir, x);
    fs.current := image;
    var ok := fs.WriteCurrent();
  }

  /** The sector loop of fatfs_add_file_entry. */
  method WriteEntry(fs: FatFs, dirCluster: u32, dirSector: nat, dirOffset: Offset, e: NewEntry, checksum: byte,
      ghost v: Volume, ghost dir: seq<u32>)
    returns (ok: bool, ghost part: seq<Slot>)
    requires fs.Valid() && fs.State() == v && DirChain(fs.geo, v.T, dirCluster, dir) && WellNamed(e)
    requires checksum == Checksum(e.short)
    requires 16 * dirSector + dirOffset + EntriesRequired(e.name) + 1 <= |DirSlots(fs.geo, v.data, dir)|
    modifies fs, fs.table, fs.disk
    ensures fs.Valid() && ok && DirChain(fs.geo, fs.State().T, dirCluster, dir) && fs.CurrentIn(dir)
    ensures Placed(fs.geo, v, fs.State(), dir, 16 * dirSector + dirOffset, part)
    ensures Begun(e, part) && |part| == EntriesRequired(e.name) + 1
  {
    hide *;
    part := [];
    var x, foundEnd, entryCount, done := dirSector, false, EntriesRequired(e.name), false;
    WritingStart(fs.geo, v, dir, e, dirSector, dirOffset);
    ok := true;
    while !done
      invariant fs.Valid() && ok && DirChain(fs.geo, fs.State().T, dirCluster, dir)
      invariant !done ==> Writing(fs.geo, v, fs.State(), dir, e, x, dirSector, dirOffset, foundEnd, entryCount, part)
      invariant done ==> Placed(fs.geo, v, fs.State(), dir, 16 * dirSector + dirOffset, part)
      invariant done ==> Begun(e, part) && |part| == EntriesRequired(e.name) + 1 && fs.CurrentIn(dir)
      decreases |DirAddrs(fs.geo, dir)| - x, !done
    {
      WritingRoom(fs, dirCluster, x, dirSector, dirOffset, foundEnd, entryCount, e, v, dir, part);
      ok, foundEnd, entryCount, done, part := WriteStep(fs, dirCluster, x, dirSector, dirOffset, foundEnd, entryCount,
        e, checksum, v, dir, part);
      x := x + 1;
      OursToo(fs, dir, x);
    }
  }

  lemma WritingStart(g: Geometry, v: Volume, dir: seq<u32>, e: NewEntry, dirSector: nat, dirOffset: Offset)
    requires 16 * dirSector + dirOffset + EntriesRequired(e.name) + 1 <= |DirSlots(g, v.data, dir)|
    ensures Writing(g, v, v, dir, e, dirSector, dirSector, dirOffset, false, EntriesRequired(e.name), [])
  {
    hide DirSlots, Placed, EntriesRequired;
    PlacedNone(g, v, dir, 16 * dirSector + dirOffset);
  }

  // ----- what it amounts to

  /** One pair more, and the others in their order. */
  ghost predicate OneMore(before: seq<Pair>, after: seq<Pair>, pair: Pair) {
    exists i: nat :: i <= |before| && after == before[..i] + [pair] + before[i..]
  }

  /** The clusters of a directory, and the FAT, after it kept its size or took the next free cluster. */
  ghost predicate SameOrLonger(g: Geometry, v: Volume, w: Volume, dir: seq<u32>, dir': seq<u32>) {
    if dir' == dir then w.T == v.T else
      && dir != [] && dir[|dir| - 1] < |v.T| && Free(g, v.T) != [] && Free(g, v.T)[0] < |v.T|
      && dir' == dir + [Free(g, v.T)[0]] && w.T == Appended(g.fatType, v.T, dir[|dir| - 1], [Free(g, v.T)[0]])
  }

  /** From v to w the entry was added to the directory. */
  ghost predicate EntryAdded(g: Geometry, v: Volume, w: Volume, start: u32, dir: seq<u32>, dir': seq<u32>,
      e: NewEntry) {
    && DirChain(g, w.T, start, dir') && SameOrLonger(g, v, w, dir, dir')
    && (HasRoom(DirSlots(g, v.data, dir), EntriesRequired(e.name) + 1) ==> dir' == dir)
    && OnlyAt(v.data, w.data, DirAddrs(g, dir'))
    && (WellFormed(DirSlots(g, v.data, dir)) ==>
          && WellFormed(DirSlots(g, w.data, dir'))
          && OneMore(Listing(DirSlots(g, v.data, dir)), Listing(DirSlots(g, w.data, dir')), Pair(e.name, Record(e))))
  }

  lemma InsertedAt(slots: seq<Slot>, at: nat, part: seq<Slot>, e: NewEntry, end: nat)
    requires WellFormed(slots) && Room(slots, at, |part|, end) && IsEntry(part, e.name, Record(e))
    ensures WellFormed(Overwritten(slots, at, part))
    ensures OneMore(Listing(slots), Listing(Overwritten(slots, at, part)), Pair(e.name, Record(e)))
  {
    assert at + |part| <= |slots|;
    hide Room, IsEntry, WellFormed, Overwritten, Listing, Record;
    InsertWellFormed(slots, at, part, e.name, Record(e), end);
    InsertPair(slots, at, part, e.name, Record(e), end);
    var i := |Pairs(slots, at)|;
    assert Listing(slots)[..i] == Pairs(slots, at);
  }

  lemma BlankBehind(slots: seq<Slot>, n: nat)
    requires WellFormed(slots)
    ensures WellFormed(slots + BlankSlots(n)) && Listing(slots + BlankSlots(n)) == Listing(slots)
  {
    BlankTail(slots, BlankSlots(n));
  }

  lemma GrownInside(g: Geometry, dir: seq<u32>, c: u32)
    requires g.sectorsPerCluster > 0 && dir != []
    ensures forall a :: a in Addrs(g, [c]) ==> a in DirAddrs(g, dir + [c])
  {
    AddrsAppend(g, dir, [c]);
  }

  lemma EntryLength(part: seq<Slot>, name: seq<byte>, record: Slot)
    requires IsEntry(part, name, record)
    ensures |part| == EntriesRequired(name) + 1
  {
    hide EntriesRequired, Text, Chunk;
  }

  lemma AddedBy(g: Geometry, v: Volume, u: Volume, w: Volume, start: u32, dir: seq<u32>, dir': seq<u32>, e: NewEntry,
      at: nat, end: nat, part: seq<Slot>)
    requires g.sectorsPerCluster > 0
    requires RoomMade(g, v, u, start, dir, dir', |part|, at, end) && DirChain(g, w.T, start, dir')
    requires Placed(g, u, w, dir', at, part) && IsEntry(part, e.name, Record(e))
    ensures EntryAdded(g, v, w, start, dir, dir', e)
  {
    hide Room, IsEntry, WellFormed, Overwritten, Listing, DirChain, DirAddrs, DirSlots, HasRoom, EntriesRequired;
    hide Record, Appended, BlankSlots, OneMore, Addrs, Free;
    EntryLength(part, e.name, Record(e));
    if dir' != dir {
      GrownInside(g, dir, Free(g, v.T)[0]);
    }
    if WellFormed(DirSlots(g, v.data, dir)) {
      BlankBehind(DirSlots(g, v.data, dir), 16 * g.sectorsPerCluster);
      InsertedAt(DirSlots(g, u.data, dir'), at, part, e, end);
    }
  }

  /** fatfs_add_file_entry. */
  method AddFileEntry(fs: FatFs, dirCluster: u32, e: NewEntry, ghost v: Volume, ghost dir: seq<u32>)
    returns (ok: bool, ghost dir': seq<u32>)
    requires fs.Valid() && fs.State() == v && DirChain(fs.geo, v.T, dirCluster, dir) && Usable(fs.geo, v.T)
    requires WellNamed(e) && EntriesRequired(e.name) + 1 <= 16 * fs.geo.sectorsPerCluster
    requires dir == [] ==> HasRoom(DirSlots(fs.geo, v.data, dir), EntriesRequired(e.name) + 1)
    modifies fs, fs.table, fs.disk
    ensures fs.Valid()
    ensures ok ==> e.name != [] && EntryAdded(fs.geo, v, fs.State(), dirCluster, dir, dir', e)
    ensures !ok ==> dir' == dir && fs.State() == v
    ensures ok <==>
              e.name != []
              && (Free(fs.geo, v.T) != [] || HasRoom(DirSlots(fs.geo, v.data, dir), EntriesRequired(e.name) + 1))
    ensures fs.curAddress == old(fs.curAddress) || fs.CurrentIn(dir')
  {
    hide *;
    dir' := dir;
    var entryCount := EntriesRequired(e.name);
    NoneRequired(e);
    if entryCount == 0 {
      return false, dir;
    }
    var dirSector: nat, dirOffset: Offset;
    ghost var end: nat;
    ok, dirSector, dirOffset, dir', end := FindFreeDirOffset(fs, dirCluster, entryCount + 1, v, dir,
      DirSlots(fs.geo, v.data, dir));
    if !ok {
      return;
    }
    ghost var u := fs.State();
    var checksum := ShortChecksum(e.short);
    ghost var part;
    RoomFits(fs, v, u, dirCluster, dir, dir', entryCount + 1, 16 * dirSector + dirOffset, end);
    RoomSource(fs.geo, v, u, dirCluster, dir, dir', entryCount + 1, 16 * dirSector + dirOffset, end);
    ok, part := WriteEntry(fs, dirCluster, dirSector, dirOffset, e, checksum, u, dir');
    BegunWhole(e, part);
    AddedBy(fs.geo, v, u, fs.State(), dirCluster, dir, dir', e, 16 * dirSector + dirOffset, end, part);
  }

  /** Room was there, or a cluster for it. */
  lemma RoomSource(g: Geometry, v: Volume, w: Volume, start: u32, dir: seq<u32>, dir': seq<u32>, n: nat, at: nat,
      end: nat)
    requires RoomMade(g, v, w, start, dir, dir', n, at, end)
    ensures Free(g, v.T) != [] || HasRoom(DirSlots(g, v.data, dir), n)
  {
    hide Room, DirSlots, Free, DirChain, Lengthened;
  }

  lemma NoneRequired(e: NewEntry)
    ensures EntriesRequired(e.name) == 0 <==> e.name == []
  {
  }

  lemma RoomFits(fs: FatFs, v: Volume, u: Volume, start: u32, dir: seq<u32>, dir': seq<u32>, n: nat, at: nat, end: nat)
    requires fs.Valid() && RoomMade(fs.geo, v, u, start, dir, dir', n, at, end)
    ensures at + n <= |DirSlots(fs.geo, u.data, dir')| && DirChain(fs.geo, u.T, start, dir')
    ensures fs.geo.sectorsPerCluster > 0
  {
  }
}
