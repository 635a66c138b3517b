/**
 * The FAT behind its list of write-back sector buffers.  Clients see only the ghost
 * table T, one stored value per FAT entry; the buffers never show.
 */
module FatTables {
  import opened Words
  import opened Layout
  import opened BlockDevice
  import opened Chains
  import Arith

  /** Word m of a FAT sector. */
  function Word(g: Geometry, sector: Sector, m: nat): u32
    requires m < g.EntriesPerSector()
  {
    if g.fatType == FAT16 then Get16(sector, m * 2) else Get32(sector, m * 4)
  }

  /** The sector image after word m of it is overwritten. */
  function WithWord(g: Geometry, sector: Sector, m: nat, v: u32): Sector
    requires m < g.EntriesPerSector()
  {
    if g.fatType == FAT16 then Put16(sector, m * 2, v % 0x1_0000) else Put32(sector, m * 4, v)
  }

  lemma WordStored(g: Geometry, sector: Sector, m: nat, v: u32, k: nat)
    requires m < g.EntriesPerSector() && k < g.EntriesPerSector()
    ensures Word(g, WithWord(g, sector, m, v), k) == if k == m then Stored(g.fatType, v) else Word(g, sector, k)
  {
    if g.fatType == FAT16 {
      Put16Get16(sector, m * 2, v % 0x1_0000, k * 2);
    } else {
      Put32Get32(sector, m * 4, v, k * 4);
    }
  }

  lemma InTable(g: Geometry, c: nat)
    ensures c / g.EntriesPerSector() < g.fatSectors <==> c < g.EntryCount()
    ensures c == c / g.EntriesPerSector() * g.EntriesPerSector() + c % g.EntriesPerSector()
  {
    Arith.DivBelow(c, g.fatSectors, g.EntriesPerSector());
    Arith.CellOf(c, g.EntriesPerSector());
  }

  /** Entry c of a FAT laid out over sectors. */
  function Entry(g: Geometry, fat: seq<Sector>, c: nat): u32
    requires |fat| == g.fatSectors && c < g.EntryCount()
  {
    InTable(g, c);
    Word(g, fat[c / g.EntriesPerSector()], c % g.EntriesPerSector())
  }

  /** The table that a FAT laid out over sectors stores. */
  function Decode(g: Geometry, fat: seq<Sector>): (t: seq<u32>)
    requires |fat| == g.fatSectors
    ensures |t| == g.EntryCount()
    ensures forall c :: 0 <= c < |t| ==> t[c] == Entry(g, fat, c)
  {
    seq(g.EntryCount(), c requires 0 <= c < g.EntryCount() => Entry(g, fat, c))
  }

  /** Entry c of a FAT: two or four bytes, the low one first, 256 or 128 entries to a sector. */
  lemma EntryBytes(g: Geometry, fat: seq<Sector>, c: nat)
    requires |fat| == g.fatSectors && c < g.EntryCount()
    ensures g.fatType == FAT16 ==>
      && c / 256 < |fat|
      && var s, p := fat[c / 256], c % 256 * 2; Decode(g, fat)[c] == s[p] as int + 0x100 * s[p + 1] as int
    ensures g.fatType == FAT32 ==>
      && c / 128 < |fat|
      && var s, p := fat[c / 128], c % 128 * 4;
         Decode(g, fat)[c] ==
         s[p] as int + 0x100 * s[p + 1] as int + 0x1_0000 * s[p + 2] as int + 0x100_0000 * s[p + 3] as int
  {
    InTable(g, c);
  }

  /** Storing an entry changes the table at that entry only. */
  lemma DecodeStored(g: Geometry, fat: seq<Sector>, c: nat, v: u32)
    requires |fat| == g.fatSectors && c < g.EntryCount()
    ensures c / g.EntriesPerSector() < |fat|
    ensures Decode(g, fat[c / g.EntriesPerSector() :=
              WithWord(g, fat[c / g.EntriesPerSector()], c % g.EntriesPerSector(), v)])
         == Decode(g, fat)[c := Stored(g.fatType, v)]
  {
    var n := g.EntriesPerSector();
    InTable(g, c);
    var k := c / n;
    var fat' := fat[k := WithWord(g, fat[k], c % n, v)];
    hide Word, WithWord, Geometry.EntriesPerSector, Geometry.EntryCount;
    forall d: nat | d < g.EntryCount()
      ensures Entry(g, fat', d) == if d == c then Stored(g.fatType, v) else Entry(g, fat, d)
    {
      InTable(g, d);
      WordStored(g, fat[k], c % n, v, d % n);
    }
  }

  lemma EntryAt(g: Geometry, fat: seq<Sector>, i: nat, m: nat)
    requires |fat| == g.fatSectors && i < |fat| && m < g.EntriesPerSector()
    ensures i * g.EntriesPerSector() + m < g.EntryCount()
    ensures Entry(g, fat, i * g.EntriesPerSector() + m) == Word(g, fat[i], m)
  {
    Arith.CellBelow(i, g.fatSectors, m, g.EntriesPerSector());
    Arith.CellDiv(i, m, g.EntriesPerSector());
  }

  /** The inner loop of fatfs_count_free_clusters, over the sector of the FAT's i-th block of entries. */
  method CountIn(g: Geometry, ghost fat: seq<Sector>, i: nat, sector: Sector, sofar: nat) returns (count: nat)
    requires |fat| == g.fatSectors && i < |fat| && sector == fat[i]
    requires sofar == CountedTo(g, fat, i * g.EntriesPerSector())
    ensures count == CountedTo(g, fat, i * g.EntriesPerSector() + g.EntriesPerSector())
  {
    count := sofar;
    var j := 0;
    ghost var m := 0;
    while j < SECTOR_SIZE
      invariant 0 <= m <= g.EntriesPerSector() && j == if g.fatType == FAT16 then m * 2 else m * 4
      invariant count == CountedTo(g, fat, i * g.EntriesPerSector() + m)
    {
      CountStep(g, fat, i, m);
      if g.fatType == FAT16 {
        if Get16(sector, j) == 0 {
          count := count + 1;
        }
        j := j + 2;
      } else {
        if Get32(sector, j) == 0 {
          count := count + 1;
        }
        j := j + 4;
      }
      m := m + 1;
    }
  }

  /** Raw zero entries below c. */
  ghost function CountedTo(g: Geometry, fat: seq<Sector>, c: nat): nat
    requires |fat| == g.fatSectors
  {
    var T := Decode(g, fat);
    if c <= |T| then ZeroCount(T[..c]) else 0
  }

  lemma CountedAll(g: Geometry, fat: seq<Sector>)
    requires |fat| == g.fatSectors
    ensures CountedTo(g, fat, 0 * g.EntriesPerSector()) == 0
    ensures CountedTo(g, fat, g.fatSectors * g.EntriesPerSector()) == ZeroCount(Decode(g, fat))
  {
    var T := Decode(g, fat);
    assert T[..|T|] == T && T[..0] == [];
  }

  lemma CountStep(g: Geometry, fat: seq<Sector>, i: nat, m: nat)
    requires |fat| == g.fatSectors && i < |fat| && m < g.EntriesPerSector()
    ensures CountedTo(g, fat, i * g.EntriesPerSector() + m + 1)
         == CountedTo(g, fat, i * g.EntriesPerSector() + m) + if Word(g, fat[i], m) == 0 then 1 else 0
  {
    EntryAt(g, fat, i, m);
    hide Word, Geometry.EntriesPerSector, Geometry.EntryCount;
    var c := i * g.EntriesPerSector() + m;
    var T := Decode(g, fat);
    assert T[..c + 1][..c] == T[..c];
  }

  datatype Buffer = Buffer(address: u32, dirty: bool, sector: Sector)

  /** A held FAT sector reads as it should; if it is clean the disk has it too. */
  ghost predicate BufferOk(g: Geometry, b: Buffer, disk: seq<Sector>, fat: seq<Sector>)
    requires g.fatBegin + g.fatSectors <= |disk| && |fat| == g.fatSectors
  {
    if g.InFat(b.address) then
      b.sector == fat[b.address - g.fatBegin] && (b.dirty || b.sector == disk[b.address])
    else
      !b.dirty && (b.address == INVALID_CLUSTER || g.Buffered(b.address))
  }

  ghost predicate HeldDirty(list: seq<Buffer>, lba: int) {
    exists i :: 0 <= i < |list| && list[i].address == lba && list[i].dirty
  }

  /** fat is what a reader that looks in the buffers before the disk sees; no sector is held twice. */
  ghost predicate Views(g: Geometry, list: seq<Buffer>, disk: seq<Sector>, fat: seq<Sector>) {
    && g.fatBegin + g.fatSectors <= g.clusterBegin <= |disk|
    && |fat| == g.fatSectors
    && (forall i, j :: 0 <= i < j < |list| && list[i].address == list[j].address ==> list[i].address == INVALID_CLUSTER)
    && (forall i :: 0 <= i < |list| ==> BufferOk(g, list[i], disk, fat))
    && (forall k :: 0 <= k < |fat| ==> HeldDirty(list, g.fatBegin + k) || disk[g.fatBegin + k] == fat[k])
  }

  lemma FlushKeeps(g: Geometry, list: seq<Buffer>, disk: seq<Sector>, fat: seq<Sector>, i: nat)
    requires g.Ok() && Views(g, list, disk, fat) && i < |list| && g.InFat(list[i].address)
    ensures Views(g, list[i := list[i].(dirty := false)], disk[list[i].address := list[i].sector], fat)
  {
    var list', disk' := list[i := list[i].(dirty := false)], disk[list[i].address := list[i].sector];
    assert BufferOk(g, list[i], disk, fat);
    forall j | 0 <= j < |list| ensures BufferOk(g, list'[j], disk', fat) {
      assert BufferOk(g, list[j], disk, fat);
    }
    forall k | 0 <= k < |fat| ensures HeldDirty(list', g.fatBegin + k) || disk'[g.fatBegin + k] == fat[k] {
      if HeldDirty(list, g.fatBegin + k) {
        var j :| 0 <= j < |list| && list[j].address == g.fatBegin + k && list[j].dirty;
        if j != i {
          assert list'[j].dirty;
        }
      }
    }
  }

  lemma RotateKeeps(g: Geometry, list: seq<Buffer>, disk: seq<Sector>, fat: seq<Sector>)
    requires Views(g, list, disk, fat) && |list| >= 1
    ensures Views(g, [list[|list| - 1]] + list[..|list| - 1], disk, fat)
  {
    var n := |list| - 1;
    var list' := [list[n]] + list[..n];
    forall k | 0 <= k < |fat| ensures HeldDirty(list', g.fatBegin + k) || disk[g.fatBegin + k] == fat[k] {
      if HeldDirty(list, g.fatBegin + k) {
        var j :| 0 <= j < |list| && list[j].address == g.fatBegin + k && list[j].dirty;
        assert list'[if j == n then 0 else j + 1] == list[j];
      }
    }
  }

  /** A clean buffer may take up any sector of the disk that no buffer holds, or none. */
  lemma LoadKeeps(g: Geometry, list: seq<Buffer>, disk: seq<Sector>, fat: seq<Sector>, i: nat, b: Buffer)
    requires g.Ok() && Views(g, list, disk, fat) && i < |list| && !list[i].dirty && !b.dirty
    requires b.address == INVALID_CLUSTER || (g.Buffered(b.address) && b.sector == disk[b.address])
    requires forall j :: 0 <= j < |list| && j != i ==> list[j].address != b.address || b.address == INVALID_CLUSTER
    ensures Views(g, list[i := b], disk, fat)
  {
    var list' := list[i := b];
    if g.InFat(b.address) {
      assert !HeldDirty(list, b.address);
    }
    forall j | 0 <= j < |list| ensures BufferOk(g, list'[j], disk, fat) {
      assert BufferOk(g, list[j], disk, fat);
    }
    forall k | 0 <= k < |fat| ensures HeldDirty(list', g.fatBegin + k) || disk[g.fatBegin + k] == fat[k] {
      if HeldDirty(list, g.fatBegin + k) {
        var j :| 0 <= j < |list| && list[j].address == g.fatBegin + k && list[j].dirty;
        assert list'[j].dirty;
      }
    }
  }

  /** Overwriting a held FAT sector changes the view at that sector only. */
  lemma StoreKeeps(g: Geometry, list: seq<Buffer>, disk: seq<Sector>, fat: seq<Sector>, i: nat, s: Sector)
    requires g.Ok() && Views(g, list, disk, fat) && i < |list| && g.InFat(list[i].address)
    ensures Views(g, list[i := list[i].(sector := s, dirty := true)], disk, fat[list[i].address - g.fatBegin := s])
  {
    var list', fat' := list[i := list[i].(sector := s, dirty := true)], fat[list[i].address - g.fatBegin := s];
    forall j | 0 <= j < |list| ensures BufferOk(g, list'[j], disk, fat') {
      assert BufferOk(g, list[j], disk, fat);
    }
    forall k | 0 <= k < |fat| ensures HeldDirty(list', g.fatBegin + k) || disk[g.fatBegin + k] == fat'[k] {
      if HeldDirty(list, g.fatBegin + k) {
        var j :| 0 <= j < |list| && list[j].address == g.fatBegin + k && list[j].dirty;
        assert list'[j].dirty;
      }
      assert list'[i].dirty;
    }
  }

  /** The FSINFO sector may be rewritten on disk if its buffer gives it up. */
  lemma FsInfoKeeps(g: Geometry, list: seq<Buffer>, disk: seq<Sector>, fat: seq<Sector>, i: nat, s: Sector)
    requires g.Ok() && g.fatType == FAT32 && Views(g, list, disk, fat) && i < |list| && list[i].address == g.FsInfoLba()
    ensures Views(g, list[i := Buffer(INVALID_CLUSTER, false, s)], disk, fat)
    ensures Views(g, list[i := Buffer(INVALID_CLUSTER, false, s)], disk[g.FsInfoLba() := s], fat)
  {
    assert BufferOk(g, list[i], disk, fat);
    LoadKeeps(g, list, disk, fat, i, Buffer(INVALID_CLUSTER, false, s));
    var list', disk' := list[i := Buffer(INVALID_CLUSTER, false, s)], disk[g.FsInfoLba() := s];
    forall j | 0 <= j < |list'| ensures BufferOk(g, list'[j], disk', fat) {
      assert BufferOk(g, list'[j], disk, fat);
    }
  }

  lemma BufferedOnDisk(g: Geometry, list: seq<Buffer>, disk: seq<Sector>, fat: seq<Sector>, sector: u32)
    requires g.Ok() && Views(g, list, disk, fat) && g.Buffered(sector)
    ensures sector < g.clusterBegin && sector < |disk| && OnlyFat(g, disk, disk)
    ensures forall after :: OnlyFat(g, disk, after) ==> |after| == |disk|
  {
  }

  /** The sectors of the two disks agree outside the FAT and the FSINFO sector. */
  ghost predicate OnlyFat(g: Geometry, before: seq<Sector>, after: seq<Sector>) {
    && |after| == |before|
    && forall s :: 0 <= s < |after| && !g.Buffered(s) ==> after[s] == before[s]
  }

  lemma OnlyFatTransitive(g: Geometry, a: seq<Sector>, b: seq<Sector>, c: seq<Sector>)
    requires OnlyFat(g, a, b) && OnlyFat(g, b, c)
    ensures OnlyFat(g, a, c)
  {
  }

  class FatTable {
    const disk: Disk
    const geo: Geometry
    var list: seq<Buffer>       // from newest to oldest
    var nextFree: u32

    ghost var fat: seq<Sector>  // the FAT as its sectors should read
    ghost var T: seq<u32>       // the table fat stores

    ghost predicate Valid()
      reads this, disk
    {
      && geo.Ok()
      && |list| >= 1
      && Views(geo, list, disk.sectors, fat)
      && T == Decode(geo, fat)
    }

    /** fatfs_fat_init with n buffers, over the FAT the disk holds. */
    constructor (disk: Disk, geo: Geometry, n: nat)
      requires geo.Ok() && 1 <= n && geo.clusterBegin <= |disk.sectors|
      ensures Valid() && this.disk == disk && this.geo == geo && nextFree == 0 && |list| == n
      ensures T == Decode(geo, disk.sectors[geo.fatBegin..geo.fatBegin + geo.fatSectors])
    {
      this.disk, this.geo, nextFree := disk, geo, 0;
      list := seq(n, _ => Buffer(INVALID_CLUSTER, false, seq(SECTOR_SIZE, _ => 0)));
      fat := disk.sectors[geo.fatBegin..geo.fatBegin + geo.fatSectors];
      T := Decode(geo, disk.sectors[geo.fatBegin..geo.fatBegin + geo.fatSectors]);
    }

    /** fatfs_fat_writeback of the buffer at position i. */
    method Writeback(i: nat) returns (ok: bool)
      requires Valid() && i < |list|
      modifies `list, disk
      ensures Valid()
      ensures ok ==> list == old(list)[i := old(list)[i].(dirty := false)]
      ensures !ok ==> list == old(list) && disk.sectors == old(disk.sectors)
      ensures disk.reliable ==> ok
      ensures OnlyFat(geo, old(disk.sectors), disk.sectors)
    {
      var cur := list[i];
      if cur.dirty {
        assert BufferOk(geo, cur, disk.sectors, fat);
        var offset := cur.address - geo.fatBegin;
        var count := if offset + 1 <= geo.fatSectors then 1 else geo.fatSectors - offset;
        assert count == 1;
        ok := disk.WriteOne(cur.address, cur.sector);
        if !ok {
          return;
        }
        FlushKeeps(geo, list, old(disk.sectors), fat, i);
        list := list[i := cur.(dirty := false)];
      }
      ok := true;
    }

    /**
     * fatfs_fat_read_sector: the position of the buffer that holds the sector.  If none
     * does, the oldest buffer moves to the head and takes the sector up.
     */
    method ReadSector(sector: u32) returns (ok: bool, at: nat)
      requires Valid() && geo.Buffered(sector)
      modifies `list, disk
      ensures Valid() && |list| == |old(list)|
      ensures ok ==> at < |list| && list[at].address == sector
      ensures disk.reliable ==> ok
      ensures OnlyFat(geo, old(disk.sectors), disk.sectors)
    {
      hide Decode, Views, OnlyFat, Geometry.Ok, Geometry.Buffered;
      BufferedOnDisk(geo, list, disk.sectors, fat, sector);
      at := 0;
      while at < |list|
        invariant at <= |list|
        invariant forall k :: 0 <= k < at ==> list[k].address != sector
      {
        if sector >= list[at].address && sector < Wrap(list[at].address + 1) {
          return true, at;
        }
        at := at + 1;
      }
      RotateKeeps(geo, list, disk.sectors, fat);
      list := [list[|list| - 1]] + list[..|list| - 1];
      at := 0;
      ok := Writeback(0);
      if !ok {
        return;
      }
      var data: Sector;
      ok, data := disk.ReadOne(sector);
      var taken := Buffer(if ok then sector else INVALID_CLUSTER, false, data);
      LoadKeeps(geo, list, disk.sectors, fat, 0, taken);
      list := list[0 := taken];
    }

    /** The FAT as the disk alone has it. */
    ghost function OnDisk(): seq<u32>
      requires Valid()
      reads this, disk
    {
      Decode(geo, disk.sectors[geo.fatBegin..geo.fatBegin + geo.fatSectors])
    }

    /** fatfs_fat_purge: after success the disk alone stores the table. */
    method Purge() returns (ok: bool)
      requires Valid()
      modifies `list, disk
      ensures Valid() && OnlyFat(geo, old(disk.sectors), disk.sectors)
      ensures disk.reliable ==> ok
      ensures ok ==> OnDisk() == T
    {
      for i := 0 to |list|
        invariant Valid() && OnlyFat(geo, old(disk.sectors), disk.sectors)
        invariant |list| == |old(list)|
        invariant forall k :: 0 <= k < i ==> !list[k].dirty
      {
        if list[i].dirty {
          ok := Writeback(i);
          if !ok {
            return;
          }
        }
      }
      forall k | 0 <= k < |fat| ensures disk.sectors[geo.fatBegin + k] == fat[k] {
        assert !HeldDirty(list, geo.fatBegin + k);
      }
      assert disk.sectors[geo.fatBegin..geo.fatBegin + geo.fatSectors] == fat;
      ok := true;
    }

    /** The buffer of the FAT's k-th sector. */
    method ReadFatSector(k: u32) returns (ok: bool, at: nat)
      requires Valid() && k < |fat|
      modifies `list, disk
      ensures Valid() && OnlyFat(geo, old(disk.sectors), disk.sectors)
      ensures disk.reliable ==> ok
      ensures ok ==> at < |list| && list[at].address == geo.fatBegin + k && list[at].sector == fat[k]
    {
      ok, at := ReadSector(geo.fatBegin + k);
      assert ok ==> BufferOk(geo, list[at], disk.sectors, fat);
    }

    /** The prologue shared by all entry accesses: load the entry's sector, find the word in it. */
    method Locate(c: u32) returns (ok: bool, at: nat, word: nat)
      requires Valid() && c < |T|
      modifies `list, disk
      ensures Valid() && OnlyFat(geo, old(disk.sectors), disk.sectors)
      ensures disk.reliable ==> ok
      ensures c / geo.EntriesPerSector() < |fat|
      ensures ok ==> at < |list| && list[at].address == geo.fatBegin + c / geo.EntriesPerSector()
      ensures ok ==> list[at].sector == fat[c / geo.EntriesPerSector()]
      ensures word == c % geo.EntriesPerSector()
    {
      var offset := if geo.fatType == FAT16 then c / 256 else c / 128;
      word := if geo.fatType == FAT16 then c - offset * 256 else c - offset * 128;
      InTable(geo, c);
      ok, at := ReadFatSector(offset);
    }

    /** Overwrite, in its buffer, the FAT sector of entry c. */
    method StoreImage(at: nat, c: u32, v: u32, image: Sector)
      requires Valid() && c < |T| && at < |list|
      requires c / geo.EntriesPerSector() < |fat| && list[at].address == geo.fatBegin + c / geo.EntriesPerSector()
      requires image == WithWord(geo, fat[c / geo.EntriesPerSector()], c % geo.EntriesPerSector(), v)
      modifies `list, `fat, `T
      ensures Valid() && T == old(T)[c := Stored(geo.fatType, v)]
    {
      StoreKeeps(geo, list, disk.sectors, fat, at, image);
      DecodeStored(geo, fat, c, v);
      hide WithWord, Views, Decode;
      list := list[at := list[at].(sector := image, dirty := true)];
      fat := fat[c / geo.EntriesPerSector() := image];
      T := T[c := Stored(geo.fatType, v)];
    }

    method Fetch(c: u32) returns (ok: bool, raw: u32)
      requires Valid() && c < |T|
      modifies `list, disk
      ensures Valid() && OnlyFat(geo, old(disk.sectors), disk.sectors)
      ensures disk.reliable ==> ok
      ensures ok ==> raw == T[c]
    {
      var at, word;
      ok, at, word := Locate(c);
      if !ok {
        return false, 0;
      }
      raw := if geo.fatType == FAT16 then Get16(list[at].sector, word * 2) else Get32(list[at].sector, word * 4);
      assert T[c] == Entry(geo, fat, c);
    }

    /** fatfs_find_next_cluster. */
    method FindNextCluster(cluster: u32) returns (next: u32)
      requires Valid() && (if cluster == 0 then 2 else cluster) < |T|
      modifies `list, disk
      ensures Valid() && OnlyFat(geo, old(disk.sectors), disk.sectors)
      ensures next == Link(geo.fatType, T[if cluster == 0 then 2 else cluster])
              || (next == LAST_CLUSTER && !disk.reliable)
    {
      var current := if cluster == 0 then 2 else cluster;
      var ok, raw := Fetch(current);
      if !ok {
        return LAST_CLUSTER;
      }
      next := Masked(geo.fatType, raw);
      if IsEnd(geo.fatType, next) {
        next := LAST_CLUSTER;
      }
    }

    /** fatfs_fat_set_cluster. */
    method SetCluster(cluster: u32, next: u32) returns (ok: bool)
      requires Valid() && cluster < |T|
      modifies `list, `fat, `T, disk
      ensures Valid() && OnlyFat(geo, old(disk.sectors), disk.sectors)
      ensures T == if ok then old(T)[cluster := Stored(geo.fatType, next)] else old(T)
      ensures disk.reliable ==> ok
    {
      var at, word;
      ok, at, word := Locate(cluster);
      if !ok {
        return;
      }
      var cur := list[at];
      var image := if geo.fatType == FAT16 then Put16(cur.sector, word * 2, next % 0x1_0000) else Put32(cur.sector,
        word * 4, next);
      hide FatTable.Valid;
      StoreImage(at, cluster, next, image);
    }

    /** fatfs_set_fs_info_next_free_cluster. */
    method SetFsInfoNextFree(value: u32)
      requires Valid()
      modifies `list, `nextFree, disk
      ensures Valid() && OnlyFat(geo, old(disk.sectors), disk.sectors)
      ensures geo.fatType == FAT16 ==> nextFree == old(nextFree)
      ensures geo.fatType == FAT32 && disk.reliable ==>
                nextFree == value && Get32(disk.sectors[geo.FsInfoLba()], 492) == value
    {
      if geo.fatType == FAT16 {
        return;
      }
      var ok, at := ReadSector(geo.FsInfoLba());
      if !ok {
        return;
      }
      var cur := list[at];
      var image := Put32(cur.sector, 492, value);
      Put32Get32(cur.sector, 492, value, 492);
      nextFree := value;
      FsInfoKeeps(geo, list, disk.sectors, fat, at, image);
      ok := disk.WriteOne(cur.address, image);
      list := list[at := Buffer(INVALID_CLUSTER, false, image)];
    }

    /** fatfs_find_blank_cluster: the least free cluster from start on. */
    method FindBlankCluster(start: u32) returns (ok: bool, blank: u32)
      requires Valid()
      modifies `list, disk
      ensures Valid() && OnlyFat(geo, old(disk.sectors), disk.sectors)
      ensures ok ==> start <= blank < |T| && IsFree(geo.fatType, T, blank)
      ensures ok ==> forall c :: start <= c < blank ==> !IsFree(geo.fatType, T, c)
      ensures !ok && disk.reliable ==> forall c :: start <= c < |T| ==> !IsFree(geo.fatType, T, c)
    {
      hide FatTable.Valid, Geometry.EntryCount, Geometry.EntriesPerSector, Masked, OnlyFat;
      TableSize();
      blank := start;
      var next: u32 := 1;
      while next != 0
        invariant Valid() && OnlyFat(geo, old(disk.sectors), disk.sectors)
        invariant start <= blank && (blank <= |T| || blank == start)
        invariant forall c :: start <= c < blank && c < |T| ==> !IsFree(geo.fatType, T, c)
        invariant next == 0 ==> blank < |T| && IsFree(geo.fatType, T, blank)
        decreases |T| - blank, next
      {
        var offset := blank / geo.EntriesPerSector();
        InTable(geo, blank);
        if offset >= geo.fatSectors {
          return false, 0;
        }
        ghost var before := disk.sectors;
        var raw;
        ok, raw := Fetch(blank);
        OnlyFatTransitive(geo, old(disk.sectors), before, disk.sectors);
        if !ok {
          return false, 0;
        }
        next := Masked(geo.fatType, raw);
        if next != 0 {
          blank := blank + 1;
        }
      }
      ok := true;
    }

    lemma TableSize()
      requires Valid()
      ensures |T| == geo.EntryCount() < 0x1000_0000 && OnlyFat(geo, disk.sectors, disk.sectors)
      ensures geo.EntriesPerSector() > 0
    {
      hide Views, Decode;
    }

    /** fatfs_free_cluster_chain. */
    method FreeClusterChain(start: u32)
      requires Valid() && disk.reliable
      requires LinksInRange(geo.fatType, T) && (start == LAST_CLUSTER || start < |T|)
      modifies `list, `fat, `T, disk
      ensures Valid() && OnlyFat(geo, old(disk.sectors), disk.sectors)
      ensures T == Freed(geo.fatType, old(T), start)
    {
      hide FatTable.Valid, LinksInRange, Freed, ZeroCount, Link, Masked, OnlyFat, Stored;
      TableSize();
      StoredLink(geo.fatType, 0);
      var next: u32 := start;
      while next != LAST_CLUSTER && next != 0
        invariant Valid() && OnlyFat(geo, old(disk.sectors), disk.sectors)
        invariant |T| == |old(T)|
        invariant LinksInRange(geo.fatType, T) && (next == LAST_CLUSTER || next < |T|)
        invariant Freed(geo.fatType, T, next) == Freed(geo.fatType, old(T), start)
        decreases |T| - ZeroCount(T), if next == LAST_CLUSTER || next == 0 then 0 else 1
      {
        var last := next;
        ghost var before := disk.sectors;
        FreedStep(geo.fatType, T, last);
        next := FindNextCluster(last);
        ghost var between := disk.sectors;
        var _ := SetCluster(last, 0);
        OnlyFatTransitive(geo, old(disk.sectors), before, between);
        OnlyFatTransitive(geo, old(disk.sectors), between, disk.sectors);
      }
      FreedEnd(geo.fatType, T, next);
    }

    /** fatfs_fat_add_cluster_to_chain. */
    method AddClusterToChain(start: u32, newEntry: u32, ghost chain: seq<u32>) returns (ok: bool)
      requires Valid() && disk.reliable && newEntry < |T|
      requires IsChain(geo.fatType, T, chain) && chain[0] == start
      modifies `list, `fat, `T, disk
      ensures Valid() && OnlyFat(geo, old(disk.sectors), disk.sectors)
      ensures ok && T == Appended(geo.fatType, old(T), chain[|chain| - 1], [newEntry])
    {
      hide FatTable.Valid;
      var last: u32, next: u32 := LAST_CLUSTER, start;
      if start == LAST_CLUSTER {
        return false;
      }
      ghost var i := 0;
      while next != LAST_CLUSTER
        invariant Valid() && OnlyFat(geo, old(disk.sectors), disk.sectors)
        invariant T == old(T)
        invariant 0 <= i <= |chain|
        invariant next == if i < |chain| then chain[i] else LAST_CLUSTER
        invariant i > 0 ==> last == chain[i - 1]
        decreases |chain| - i
      {
        last := next;
        next := FindNextCluster(last);
        i := i + 1;
        assert next == if i < |chain| then chain[i] else LAST_CLUSTER;
        if next == 0 {
          return false;
        }
      }
      ok := SetCluster(last, newEntry);
      ok := SetCluster(newEntry, LAST_CLUSTER);
      AppendedOne(geo.fatType, old(T), chain[|chain| - 1], newEntry);
    }

    /** fatfs_count_free_clusters. */
    method CountFreeClusters() returns (count: nat)
      requires Valid() && disk.reliable
      modifies `list, disk
      ensures Valid() && OnlyFat(geo, old(disk.sectors), disk.sectors)
      ensures count == ZeroCount(T)
    {
      hide FatTable.Valid, Views, OnlyFat, CountedTo, ZeroCount, Word, Decode, Geometry.EntriesPerSector;
      count := 0;
      CountStart();
      for i := 0 to geo.fatSectors
        invariant Valid() && OnlyFat(geo, old(disk.sectors), disk.sectors)
        invariant fat == old(fat) && T == old(T) && count == CountedTo(geo, fat, i * geo.EntriesPerSector())
      {
        ghost var before := disk.sectors;
        var ok, at := ReadFatSector(i);
        OnlyFatTransitive(geo, old(disk.sectors), before, disk.sectors);
        count := CountIn(geo, fat, i, list[at].sector, count);
        NextBlock(i, geo.EntriesPerSector());
      }
    }

    lemma CountStart()
      requires Valid()
      ensures |fat| == geo.fatSectors && OnlyFat(geo, disk.sectors, disk.sectors)
      ensures CountedTo(geo, fat, 0 * geo.EntriesPerSector()) == 0
      ensures CountedTo(geo, fat, geo.fatSectors * geo.EntriesPerSector()) == ZeroCount(T)
    {
      hide Decode, CountedTo;
      CountedAll(geo, fat);
    }
  }

  lemma NextBlock(i: nat, w: nat)
    ensures (i + 1) * w == i * w + w
  {
  }
}
